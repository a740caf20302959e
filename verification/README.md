# The MetalLB operator, modelled and proved in Dafny

The operator turns one MetalLB resource into deletes and applies against a cluster whose calls may
fail at any point, rewrites the objects two Helm charts render, reports a status, and decides whether to
try again. This project models that behaviour and proves what it guarantees over every input and every
run, together with the text formats the repository parses and prints.

`dafny verify dfyconfig.toml` verifies the whole project.

## How the model is laid out

| file | contents |
|---|---|
| Wrappers, Text, Json | options and results, the string operations used, JSON trees with the nested-field accessors |
| Editors | the in-place editors of pkg/helm/config.go on heap objects |
| Charts, ChartTheorems, ChartEdits, Identities | the two Objects loops with their pointers, what they return, change and keep, which identities they share |
| Api, Cidr, CidrForms, AlwaysBlock, Images | the resource, both validations, mode-dependent chart values, prefixes, the block list, image references |
| Status | conditions, the CRD's reason pattern, rollout checks |
| Cluster, Reconciling, Controller | the API server, what a reconcile does to it, and the controller making its calls one by one |
| Applies | what an applied object keeps of the rendered one, and the order of the calls |
| Convergence | one sync: prefixes under failure, progress and its exact condition, convergence, ordering |
| Outcomes | when a sync succeeds, what a request returns and writes |
| Runs, Ownership, Networks | any interleaving of requests with users, other clients and rollouts |
| Witnesses | concrete inputs for the defects found |
| Curves | the TLS curve list |
| VersionLines, GoMod, Readers, UpdateGoMod, BumpK8s | the patterns and what is read by them, the in-place editor of hack/bump-k8s.py and its whole update of go.mod |

A sync is a list of calls: `Del` for a delete, `Own` for setting the controller reference, `Put` for an
apply. A `Script` fixes how every call of one request turns out and what the request reads from outside
the model (support in the network operator, clock, error text, writes of other clients between reading
and updating the Network), so each theorem ranges over all failures. The server also keeps a ghost record
of every delete and apply asked for, successful or not. The two charts may render objects under one
identity; `SharedIds` are those identities, and no convergence theorem assumes there are none. Helm
rendering, the conversion between unstructured and typed objects, and the set of curves Go supports are
parameters; what a theorem needs of them is in its `requires`. A Go panic on an endpoint that is not a map
counts as a failure.

The methods of `Controller`, `Charts`, `Editors`, `AlwaysBlock`, `Curves` and `BumpK8s` follow the loops
and assignments of the source and are proved equal to functions of the old state; the lemmas are about
those functions.

## What the proofs brought to light

* In frr mode, the default off OpenShift, both charts render the ConfigMap frr-startup, so every sync
  deletes it and applies it again: a sync that fails after the delete and before the object is applied,
  that apply included, leaves a converged cluster without it (`Convergence.SharedObjectIsLost`; exactly what
  a sync removes is `Convergence.GoneExactly`; at a concrete input `Witnesses.FRRStartupIsLost`). Progress
  holds for every object the charts do not share, and for no other (`Convergence.ConvergedSurvives`, an
  if-and-only-if); a sync that goes through always converges.
* Retries depend on a refusal. `Reconcile` returns nil once its status write succeeds, even after a failed
  sync; the error survives only because the reason "internal error" breaks the CRD's pattern and the write
  is refused (`Runs.FailureReported`, an if-and-only-if).
* On OpenShift, edits go to an object that is no longer the one returned when an override replaced it
  (`Charts.MetalLBChart.Objects`). A resource with a SpeakerConfig loses the required-scc annotation
  (`ChartTheorems.SpeakerAnnotationReaches`, at a concrete input `Witnesses.SpeakerAnnotationLost`). One with
  a ControllerConfig keeps the chart's security context instead of the loop's
  (`ChartTheorems.ControllerSecurityContextReaches`, `Witnesses.ChartContextKept`). The two differ unless
  Helm drops the chart's default user and group when the operator's values set them to null
  (the comment at pkg/helm/metallb.go:79-80 says it does not).
* An external mode chosen by default, not by name, may be rendered with an empty FRR-K8s namespace; the
  exact condition is `Api.ExternalNamespace`, a concrete input `Witnesses.EmptyExternalNamespace`.
* A resource that fails validation is left alone but reported Available (`Runs.InvalidReportedAvailable`,
  `Witnesses.InvalidYetAvailable`). For every other resource Available means converged
  (`Runs.AvailableMeansConverged`).
* When go.mod has no go line, the script raises its exception after having rewritten toolchain lines
  (`BumpK8s.LineList.SetGoVersion`, `GoMod.SetGoFrame`).

## Model

| member | source | states |
|---|---|---|
| Controller.MetalLBReconciler.Reconcile | controllers/metallb_controller.go:87-131 | one request, call by call, changes the cluster and returns exactly as the function the run theorems are about |
| Controller.MetalLBReconciler.ReconcileResource | controllers/metallb_controller.go:133-149 | the condition, requeue and error asked for after a sync |
| Controller.MetalLBReconciler.SyncMetalLBResources | controllers/metallb_controller.go:173-200 | the network gate and both validations come before any object call |
| Controller.MetalLBReconciler.SyncObjects | controllers/metallb_controller.go:202-248 | rendering errors stop the sync before any call; otherwise all calls are made in order |
| Controller.MetalLBReconciler.MakeCalls | controllers/metallb_controller.go:209-245 | FRR-K8s objects are applied or deleted by mode, before every MetalLB object |
| Controller.MetalLBReconciler.DeleteAll | controllers/metallb_controller.go:221-226 | deletes in order, a missing object is no failure, the first other failure ends the sync |
| Controller.MetalLBReconciler.ApplyAll | controllers/metallb_controller.go:228-245 | applies in order up to the first failure |
| Controller.MetalLBReconciler.ApplyOne | controllers/metallb_controller.go:229-244 | RBAC objects are skipped, namespaced objects get their owner set first |
| Controller.MetalLBReconciler.Update | pkg/status/status.go:37-48 | conditions equal to the stored ones are not written; otherwise one write, which may be refused |
| Controller.MetalLBReconciler.DeployFRRK8s | pkg/openshift/openshift.go:44-62 | read, add FRR if missing, write back under the version read |
| Clusters.Cluster.UpdateStatus | bin/metallb-operator.yaml:4479-4488 | a status with a reason outside the pattern is refused |
| Clusters.Cluster.UpdateNetwork | pkg/openshift/openshift.go:57-60 | a write based on an old version is refused |
| Convergence.FailureGivesPrefix | controllers/metallb_controller.go:221-247 | a sync stopped at any call has the effect of exactly the calls before it |
| Convergence.ProgressDuringSync | controllers/metallb_controller.go:221-247 | no object goes from right to wrong during a sync unless two calls want it differently; without such objects the count of wrong ones never rises; after the last call nothing is wrong, whatever the store was |
| Convergence.NothingWrong | controllers/metallb_controller.go:221-247 | no object is wrong exactly when making all the calls again changes nothing |
| Convergence.EffectIsLast | controllers/metallb_controller.go:221-247 | the last call on an object decides what it is after the sync, and an object without a call is left alone |
| Convergence.ContestedExactly | controllers/metallb_controller.go:221-247 | starting with nothing wrong, an object is wrong at some point of the calls if and only if two of them want it differently |
| Convergence.SyncConverges | controllers/metallb_controller.go:192-247 | from any store, a valid sync without failures leaves every MetalLB object that is not RBAC as applied; an FRR-K8s identity is there outside frr-k8s mode exactly when the MetalLB chart applies it; the FRR-K8s side is final if and only if the charts share no identity; nothing else is touched |
| Convergence.SyncProgresses | controllers/metallb_controller.go:192-247 | any sync, failing anywhere, leaves every object that was right as it was, unless the charts share it |
| Convergence.ConvergedSurvives | controllers/metallb_controller.go:192-247 | a converged store survives every sync of its resource, wherever it fails, if and only if the charts share no identity; an object is left wrong by some failing sync if and only if they share it |
| Convergence.GoneExactly | controllers/metallb_controller.go:221-247 | an object that was there is gone after a sync, wherever that fails, if and only if the sync deleted it and had not applied it; a missing one stays missing if and only if it was not applied |
| Convergence.SharedObjectIsLost | controllers/metallb_controller.go:209-245 | outside frr-k8s mode, from any store, a sync that fails after deleting a shared object and before it has applied it, the apply itself included, leaves it gone |
| Witnesses.FRRStartupIsLost | bindata/deployment/helm/frr-k8s/templates/controller.yaml:3-7 | with the ConfigMap frr-startup rendered by both charts in frr mode, a sync whose apply is refused, or that cannot set the owner before it, leaves it gone |
| Witnesses.FRRStartupStays | bindata/deployment/helm/metallb/templates/speaker.yaml:19-27 | a sync that goes through leaves frr-startup as the MetalLB chart renders it |
| Convergence.FRRK8SSettledFirst | controllers/metallb_controller.go:209-245 | when the first MetalLB object is about to be applied the FRR-K8s side is final for the mode; what the charts do not share stays final, and all of it is final at the end if and only if they share nothing |
| Convergence.AppliedExactlyWhenEnabled | controllers/metallb_controller.go:209-213 | an FRR-K8s object is among the applies made for that chart exactly when frrk8s.enabled is rendered, and among the deletes exactly otherwise |
| Convergence.OwnedKeepsIdentity | controllers/metallb_controller.go:235-240 | setting the owner changes neither kind, name nor namespace |
| Applies.OwnedFrame | controllers/metallb_controller.go:235-240 | setting the owner leaves every place but the owner references as it was |
| Applies.OwnedReferences | controllers/metallb_controller.go:235-240 | the owner references are the old ones in order, and at the end the one to this resource, by its uid, if it was not there |
| Applies.ConvergedCarries | controllers/metallb_controller.go:228-247 | a converged store holds every MetalLB object as rendered, but for its owner when it has a namespace; in frr-k8s mode also every FRR-K8s object the charts do not share |
| Applies.SyncStoresRendered | controllers/metallb_controller.go:192-247 | the same after any single sync all of whose calls succeed, from any store |
| Applies.PutsCarry | controllers/metallb_controller.go:228-245 | whatever a sync applies, wherever it fails, is some rendered object but for its owner |
| Convergence.PutsMeaning | controllers/metallb_controller.go:228-245 | what is applied is exactly the objects that are not RBAC, with the owner set when namespaced |
| Applies.CallsInOrder | controllers/metallb_controller.go:209-245 | the deletes or applies of the FRR-K8s objects come first, then the applies of the MetalLB objects, each in the order rendered, RBAC left out of the applies only |
| Applies.RequestsMeaning | controllers/metallb_controller.go:221-245 | a sync asks for the calls up to and including the first that fails |
| Applies.CallsOwnersFirst | controllers/metallb_controller.go:235-244 | every object with a namespace has its owner set by the call just before its apply, and no other object has |
| Convergence.ContestedIsShared | controllers/metallb_controller.go:202-245 | with distinct identities within each chart, the objects two calls of a sync want differently are exactly those the charts share |
| Identities.ChartsRender | pkg/helm/metallb.go:45-106 | rendered objects of distinct kind and name within each chart give distinct identities through both loops, and the charts share only identities whose kind and name both render |
| Runs.ConvergesAfterAnyRun | controllers/metallb_controller.go:173-248 | after any run, one clean request converges; outside frr-k8s mode, of everything the FRR-K8s chart ever rendered, only what the MetalLB chart applies is there |
| Runs.CalmRunsProgress | controllers/metallb_controller.go:173-248 | between edits, reconciles failing anywhere never change an object that was right, unless the charts share it; with nothing shared a converged store is never changed again |
| Runs.ReconcileKeepsSpecs | controllers/metallb_controller.go:87-131 | a request changes no resource but the conditions of its own |
| Runs.ReconcileEffect | controllers/metallb_controller.go:104-115 | objects and Network change only through the sync of a resource named "metallb" |
| Runs.ReasonsStayOk | bin/metallb-operator.yaml:4479-4488 | over every run all stored reasons match the pattern |
| Runs.FailureReported | controllers/metallb_controller.go:115-130 | a failed sync or failed rollout read makes Reconcile return an error if and only if the pattern is enforced or the status write fails |
| Runs.RetryNeverLost | controllers/metallb_controller.go:115-149 | with the pattern enforced, at every point of every run a failed reconcile returns an error |
| Runs.QuietMeansRolledOut | controllers/metallb_controller.go:115-149 | a request that asks for no retry synced without error and saw both workloads rolled out |
| Runs.QuietMeansConverged | controllers/metallb_controller.go:115-149 | at every point of every run with the pattern enforced, a request that asks for no retry saw both workloads rolled out and left the store converged, or changed nothing because the resource failed Validate |
| Runs.AvailableMeansConverged | controllers/metallb_controller.go:115-149 | a request that writes Available saw both workloads rolled out and left the store converged, or changed nothing because the resource failed Validate |
| Runs.UnsupportedWaits | controllers/metallb_controller.go:135-137 | where frr-k8s comes from the network operator, by name or by default, missing support changes nothing and comes back in two minutes |
| Runs.InvalidReportedAvailable | controllers/metallb_controller.go:192-196 | a resource failing Validate changes no object and is reported Available once workloads are ready |
| Witnesses.InvalidYetAvailable | controllers/metallb_controller.go:192-196 | a resource naming a backend that does not exist is reported Available with no object changed |
| Runs.WrittenStatus | controllers/metallb_controller.go:115-149 | what Reconcile writes: Degraded for a wrong name or a failed sync, Available after a nil sync with both workloads rolled out, Progressing after one without; "internal error" as reason exactly when the sync failed or a workload could not be read |
| Runs.VerdictMeaning | controllers/metallb_controller.go:133-149 | the whole table of condition, error and requeue for every outcome of a sync and every state of the rollout |
| Runs.RolloutMeaning | pkg/status/status.go:98-140 | ready, pending or unread, by the two reads in their order, the generations and the counts, replicas defaulting to one |
| Outcomes.SyncOutcome | controllers/metallb_controller.go:173-248 | exactly when a sync succeeds and when it waits: the gate, both validations, both charts and every call |
| Outcomes.CleanRequestConverges | controllers/metallb_controller.go:87-131 | after any run, a request of a valid resource none of whose calls fails converges |
| Outcomes.ReturnMeaning | controllers/metallb_controller.go:115-149 | what a request for the managed resource returns, and that an error needs a refused status write |
| Outcomes.WrongNameMeaning | controllers/metallb_controller.go:104-113 | a wrongly named resource gets Degraded with the reason for it, asks for no retry even if the write fails, and changes nothing else |
| Outcomes.EarlyReturns | controllers/metallb_controller.go:91-102 | a failed read is an error, a missing resource is none, and neither touches anything |
| Outcomes.UpdateMeaning | pkg/status/status.go:37-48 | a status write is skipped for equal conditions, refused on a failing call or a bad reason, and otherwise stores the conditions |
| Runs.NonInterference | controllers/metallb_controller.go:91-115 | every run ends as the run without the requests for wrongly named resources, but for those resources' own conditions |
| Ownership.OwnedCarriesController | controllers/metallb_controller.go:235-240 | a named object has the MetalLB controller reference after its owner is set |
| Ownership.PutsAreLawful | controllers/metallb_controller.go:228-245 | every applied object is not RBAC and carries the controller reference, or is a PodSecurityPolicy or the SCC |
| Ownership.ProvenanceOverRuns | controllers/metallb_controller.go:228-245 | after any run every object is someone else's, untouched, or lawfully the operator's |
| Ownership.RBACNeverApplied | controllers/metallb_controller.go:230-234 | a Role or RoleBinding that is gone stays gone over every run of the operator |
| Ownership.ModeSwitchLosesRBAC | controllers/metallb_controller.go:209-234 | if the FRR-K8s chart rendered a Role, leaving frr-k8s mode would delete it for good; the shipped chart renders none, as prometheus.rbacPrometheus stays off |
| Ownership.WebhookSecretUntouched | pkg/helm/frrk8s.go:98-102 | on OpenShift no run creates, changes or deletes the FRR-K8s webhook secret |
| Networks.DeployMeaning | pkg/openshift/openshift.go:44-62 | exactly when the call succeeds; a write keeps the providers in order, adds FRR once and moves the version on; with FRR there nothing is written; a failure leaves what others wrote |
| Networks.NoLostUpdate | pkg/openshift/openshift.go:44-62 | in every run the providers are what others last wrote, with FRR added at the end at most |
| Networks.ExternalModeGate | controllers/metallb_controller.go:177-190 | for the external backend named or taken by default on OpenShift, no delete or apply is asked for, and no sync succeeds, before support was confirmed and FRR seen or written |
| Networks.OtherwiseNetworkUntouched | controllers/metallb_controller.go:177-190 | for every other resource or environment the Network is left alone and support does not matter |
| Charts.OverrideParameters | pkg/helm/metallb.go:135-152 | a new object with the affinity and the named container's resources replaced, nothing else |
| ChartEdits.OverrideMeaning | pkg/helm/metallb.go:135-152 | only the containers of the given name take the configured resources, the affinity is the configured one where given, everything else is kept, and it fails exactly when a conversion does |
| Charts.OverrideControllerParameters | pkg/helm/metallb.go:130-153 | the same pointer when there is nothing to override, a new object otherwise |
| Charts.OverrideSpeakerParameters | pkg/helm/metallb.go:155-178 | the same pointer when there is nothing to override, a new object otherwise |
| Charts.MetalLBTurn | pkg/helm/metallb.go:61-101 | one turn of the loop with `obj` and `objs[i]` as separate variables: all edits go to the object passed in, and that is the object returned exactly when no override replaced it |
| Charts.MetalLBChart.Objects | pkg/helm/metallb.go:45-106 | distinct new objects holding the rewritten trees, or an error; every edit went to the object made from the rendered tree, which is returned exactly when not overridden |
| Charts.FRRK8STurn | pkg/helm/frrk8s.go:83-137 | one turn of the loop, where the object edited is the one kept, and is the one passed in exactly when not overridden |
| Charts.FRRK8SChart.Objects | pkg/helm/frrk8s.go:62-139 | distinct new objects holding the rewritten trees, skipped ones left out, or an error |
| ChartTheorems.MetalLBObjectsShape | pkg/helm/metallb.go:61-105 | order, kinds and names are kept, the namespace is the operator's, and the SCC named metallb-speaker is appended exactly on OpenShift |
| ChartTheorems.MetalLBEntryAliasing | pkg/helm/metallb.go:61-101 | which tree the returned entry holds: an override's result without the OpenShift edits, or the edited tree; a ServiceMonitor is always returned edited |
| ChartEdits.ControllerConfigured | pkg/helm/metallb.go:130-153 | Deployment controller has its container "controller" configured from the ControllerConfig |
| ChartEdits.SpeakerConfigured | pkg/helm/metallb.go:155-178 | DaemonSet speaker has its container "speaker" configured from the SpeakerConfig |
| ChartEdits.FRRK8SConfigured | pkg/helm/frrk8s.go:260-282 | DaemonSet frr-k8s has its container "controller" configured from the SpeakerConfig and no further edit |
| ChartEdits.MetalLBEntryFrame | pkg/helm/metallb.go:61-101 | an object no override replaced is as rendered everywhere but its namespace and, on OpenShift, the one place its kind is edited at |
| ChartEdits.MetalLBEditsAt | pkg/helm/metallb.go:79-94 | on OpenShift the controller has exactly runAsNonRoot as security context and the speaker the annotation for the SCC, where no override replaced them |
| ChartEdits.MetalLBEntrySucceeds | pkg/helm/metallb.go:61-101 | a turn fails exactly when an override or an edit does, overridden or not |
| ChartEdits.OffOpenshiftOnlyPlaced | pkg/helm/metallb.go:61-101 | off OpenShift setting the namespace is all either loop does to an object no override replaces |
| ChartTheorems.SpeakerAnnotationReaches | pkg/helm/metallb.go:75-94 | the returned speaker requires the SCC if and only if there is no SpeakerConfig or the chart rendered the annotation |
| Witnesses.SpeakerAnnotationLost | pkg/helm/metallb.go:75-94 | an empty SpeakerConfig is enough for the speaker to be returned without the annotation |
| ChartTheorems.ControllerSecurityContextReaches | pkg/helm/metallb.go:71-89 | the returned controller has the loop's security context without a ControllerConfig and the chart's with one, if the typed conversion keeps that |
| Witnesses.ChartContextKept | pkg/helm/metallb.go:71-89 | with an empty ControllerConfig a controller rendered with the chart's default security context is returned with it, and without one with the loop's |
| ChartTheorems.FRRK8SEntryMeaning | pkg/helm/frrk8s.go:83-137 | only the webhook secret is skipped, only on OpenShift; identities are kept; the endpoint, security context, CA bundle and serving certificate edits all reach what is returned |
| ChartEdits.FRRK8SEntryFrame | pkg/helm/frrk8s.go:83-137 | what the loop returns is as rendered everywhere but its namespace and, on OpenShift, the one place its kind is edited at |
| ChartEdits.FRRK8SEditsAt | pkg/helm/frrk8s.go:98-130 | on OpenShift, which secret is skipped and which annotations and security context are left, by kind, name and value |
| ChartTheorems.PlacedIdentity | pkg/helm/frrk8s.go:84-89 | every named object but a PodSecurityPolicy ends in the operator's namespace under its kind and name |
| ChartEdits.PlacedFrame | pkg/helm/frrk8s.go:84-89 | setting the namespace changes no other place |
| Editors.SetOcpMonitorFields | pkg/helm/config.go:55-74 | the edit succeeds as specified or leaves the object unchanged |
| Editors.UpdateAnnotations | pkg/helm/config.go:133-147 | the merge succeeds as specified or leaves the object unchanged |
| Editors.SetRequiredSCCAnnotationForSpeaker | pkg/helm/config.go:121-131 | the merge succeeds as specified or leaves the object unchanged |
| Editors.SecureAll | pkg/helm/config.go:63-68 | the endpoint loop edits a copy and stops at the first error |
| Editors.MergeInto | pkg/helm/config.go:142-144 | ranging over the new annotations in any order, the new value wins |
| Editors.MonitorEditFrame | pkg/helm/config.go:55-74 | every endpoint ends with verification on, and no path but insecureSkipVerify under an endpoint changes |
| Editors.MonitorEditIdempotent | pkg/helm/config.go:55-74 | a second edit changes nothing |
| Editors.MonitorEditFails | pkg/helm/config.go:55-74 | the edit fails exactly without an endpoints list or with an endpoint whose tlsConfig is no map |
| JsonTrees.TypedReads | pkg/helm/config.go:56-59 | a read finds a list, a map of strings or a string exactly where one is, and is an error exactly for another type there or on the way |
| Editors.MergeAtMeaning | pkg/helm/config.go:121-147 | annotations are merged with the new value winning, every other path is kept, and merging again changes nothing |
| Editors.MergeAtFails | pkg/helm/config.go:121-147 | a merge fails exactly when the annotations or a node above them have the wrong type |
| Api.ModeAgreement | pkg/params/params.go:19-30 | a resource passing both validations has one of four modes, fitting the platform, with at most one backend on and none exactly for native |
| Api.BackendSwitches | pkg/helm/metallb.go:375-395 | which backend the charts switch on, by the name given or the platform's default; which namespace wins; whether secrets are passed through |
| Api.ValidateMeaning | api/v1beta1/metallb_webhook.go:65-140 | everything Validate objects to, and nothing else |
| Api.BGPModeMeaning | controllers/metallb_controller.go:250-266 | the backends each platform allows |
| Api.ExternalNamespace | pkg/helm/metallb.go:375-395 | an external mode lacks a namespace exactly when it was chosen by default and none is given anywhere |
| Witnesses.EmptyExternalNamespace | pkg/helm/metallb.go:375-395 | a valid resource naming no backend is rendered in external mode with an empty namespace |
| Api.ValidSpecHasBlockString | pkg/helm/frrk8s.go:207-213 | a resource passing Validate never makes frrk8sValues fail, and its block value is the sorted prefixes joined by commas |
| Cidr.CidrHasNoComma | api/v1beta1/metallb_webhook.go:134-138 | no text accepted as a CIDR contains a comma |
| CidrForms.CidrMeaning | api/v1beta1/metallb_webhook.go:134-138 | an address, a slash and a decimal length, up to 32 or 128, and no other text |
| CidrForms.IPv4Meaning | api/v1beta1/metallb_webhook.go:134-138 | an IPv4 address is four numbers up to 255 printed in decimal, and no other text |
| CidrForms.IPv6Meaning | api/v1beta1/metallb_webhook.go:134-138 | an IPv6 address is eight fields, or at most seven around two colons, the last two as an IPv4 address if at all, and no other text |
| Text.TrimSpaceMeaning | api/v1beta1/metallb_webhook.go:134-138 | trimming takes white space from both ends until none is left there, and nothing else |
| AlwaysBlock.AlwaysBlockToString | pkg/helm/frrk8s.go:302-314 | fails exactly on an invalid entry, otherwise returns the sorted entries joined, and leaves its input alone |
| AlwaysBlock.SortedIsUnique | pkg/helm/frrk8s.go:312-312 | two sorted lists with the same elements are equal, so any sort gives this result |
| AlwaysBlock.AtMostMeaning | pkg/helm/frrk8s.go:312-312 | the order is by prefix, else by the first character that differs |
| AlwaysBlock.CanonicalUnderPermutation | pkg/helm/frrk8s.go:302-314 | permuting the input does not change the result |
| AlwaysBlock.CanonicalSplits | pkg/helm/frrk8s.go:302-314 | splitting a non-empty result on commas gives back the sorted entries |
| AlwaysBlock.CanonicalIsInjective | pkg/helm/frrk8s.go:302-314 | equal results come only from permutations of one another |
| Status.GetConditions | pkg/status/status.go:50-96 | editing four false conditions in place gives, type by type, the conditions asked for |
| Status.ConditionsMeaning | pkg/status/status.go:50-96 | four types in fixed order, Upgradeable follows Available, exactly the desired one of the others is true; reason, message and time of each; the reasons match the pattern exactly when the caller's does |
| Status.KnownReasons | bin/metallb-operator.yaml:4479-4488 | the operator's own reasons match the pattern and "internal error" does not |
| Status.PatternMeaning | bin/metallb-operator.yaml:4479-4488 | the pattern as a form: a letter, or a letter, allowed characters and a last one that is no comma or colon |
| Curves.ParseCurvePreferences | pkg/tlsconfig/tlsopt.go:43-58 | the loop over the parts reports the first part that is no number, else checks the numbers |
| Curves.TlsCurvePreferences | pkg/tlsconfig/tlsopt.go:65-86 | the loop with its set of seen curves reports the first complaint |
| Curves.AcceptsExactly | pkg/tlsconfig/tlsopt.go:43-86 | the empty string gives no list; any other is accepted exactly when every trimmed part is a decimal in 1..65535, supported and not repeated; order is kept |
| Curves.RefusesFirst | pkg/tlsconfig/tlsopt.go:43-86 | a refusal names the first thing wrong: the first part that is no such decimal, else the first number out of range, repeated or not supported |
| Curves.PrintThenParse | pkg/tlsconfig/tlsopt.go:43-86 | printing an accepted list and parsing it gives the same list |
| Images.ImageNameTagMeaning | pkg/params/params.go:171-183 | what repository and tag are for no, one and several colons after the last slash; the tag holds neither slash nor colon |
| VersionLines.WrittenLines | hack/bump-k8s.py:100-129 | the go and toolchain lines written, and that they are read back as the versions written |
| VersionLines.MatchK8sOf | hack/bump-k8s.py:132-146 | a line of well-formed parts matches the pattern with those parts and no others |
| VersionLines.MatchK8sSound | hack/bump-k8s.py:132-146 | a line that matches is made of the parts reported |
| Readers.GoVersionMeaning | hack/bump-k8s.py:37-55 | a go line is read as its version of two or three numbers, whole, and no other line as any |
| Readers.ToolchainVersionMeaning | hack/bump-k8s.py:37-55 | the same of toolchain lines, with three numbers |
| Readers.GetGoMeaning | hack/bump-k8s.py:37-55 | of the lines up to where both kinds were seen, the last of each kind is read |
| Readers.VersionAtMeaning | hack/bump-k8s.py:80-97 | the form a search for a module matches at a place |
| Readers.SearchMeaning | hack/bump-k8s.py:80-97 | a search finds the leftmost such place, or none when there is none |
| Readers.GetK8sMeaning | hack/bump-k8s.py:80-97 | the first kubernetes line wins, else the last api line |
| BumpK8s.LineList.GetGoVersion | hack/bump-k8s.py:37-55 | the reading loop computes the pair the lemmas are about |
| BumpK8s.LineList.RewriteVersionLines | hack/bump-k8s.py:105-122 | the index loop with its flags rewrites lines until both kinds were seen |
| BumpK8s.LineList.SetGoVersion | hack/bump-k8s.py:100-129 | the list afterwards, with the toolchain line inserted when there was none, and whether an exception is raised |
| BumpK8s.LineList.GetK8sVersion | hack/bump-k8s.py:80-97 | the first kubernetes version, else the last api version |
| BumpK8s.LineList.SetK8sVersion | hack/bump-k8s.py:132-146 | every matching line is replaced in place, every other kept |
| BumpK8s.LineList.UpdateGoMod | hack/bump-k8s.py:168-174 | the two edits of one list in order, the second left out when the first raises its exception |
| GoMod.SetThenGet | hack/bump-k8s.py:37-129 | with a go line, reading after setting gives exactly the pair set; setting succeeds exactly with a go line |
| GoMod.SetTwice | hack/bump-k8s.py:100-129 | setting the same pair again changes nothing |
| GoMod.SetGoFrame | hack/bump-k8s.py:100-129 | other lines and the order are kept; at most the toolchain line is added, right after the last go line |
| GoMod.BumpLineMeaning | hack/bump-k8s.py:132-146 | a matching line keeps indentation, component, major version and trailer and takes the version, spelled out; others are untouched; twice is once |
| GoMod.PseudoVersionUntouched | hack/bump-k8s.py:132-146 | a line whose version goes on with a hyphen is left alone |
| GoMod.SearchWritten | hack/bump-k8s.py:80-97 | in a matching line whose trailer names no module, a search finds the version at the component or nothing |
| GoMod.GetAfterSet | hack/bump-k8s.py:80-146 | reading after setting gives the version set, when a kubernetes or api line exists, the reader's lines are all rewritten and trailers name no module |
| GoModUpdates.UpdateThenRead | hack/bump-k8s.py:168-174 | after the whole update the go and toolchain versions read are those set whenever there is a go line, and so is the Kubernetes version under the agreement of reader and writer |
| GoModUpdates.FailedUpdateKeepsK8s | hack/bump-k8s.py:168-174 | the update fails only without a go line, and then no Kubernetes version was set |
| GoModUpdates.EditsCommute | hack/bump-k8s.py:100-146 | setting the go versions and setting the Kubernetes versions commute on every list |
| GoModUpdates.UpdateTwice | hack/bump-k8s.py:168-174 | updating again with the same versions changes nothing |

## Left out

- Helm rendering, YAML decoding, chart loading and chart values that do not depend on the mode: rendering is a function parameter.
- Field-level merging of server-side apply: an apply replaces the object with the operator's rendering, and a delete takes effect at once.
- Owner checks inside SetControllerReference: whether the call succeeds is part of the script; its effect is the added reference.
- Applies.OwnedReferences: a reference to the MetalLB resource under another uid is kept and the new one added after it, where the library would replace it in place; rendered objects carry no references.
- Error texts, except condition reasons; logging; clocks, which are arguments.
- SupportsFRRK8s and the version comparison behind it: its outcome is part of the script.
- API groups: objects are identified by kind, namespace and name.
- Early returns of Validate: its loops over tolerations and affinity weights are one predicate.
- Stale MetalLB objects: an object an earlier resource rendered and the current one does not is never deleted by the source, and no theorem says otherwise.
- Runs.ConvergesAfterAnyRun: assumes, for what earlier resources left, that the identities the FRR-K8s chart renders do not depend on the resource.
- ChartTheorems.ControllerSecurityContextReaches: says nothing of a rendered security context that the typed conversion alters, one with a null, empty or unknown field.
- Whether the shipped charts render identities distinct within each chart: read from the templates, not proved.
- The patterns of hack/bump-k8s.py take `\d` and `\w` over ASCII; `\s` is exact.
- Docker lines, file access and the command line of hack/bump-k8s.py.
- OptFor beyond the curve list, the cipher suite and version tables, pkg/platform, the environment readers, main.go.
- The second copy of getImageNameTag in pkg/helm/config.go is the same text and not modelled again.
- The three override functions share one modelled method for their common body.
- The SCC's rules, which are constants.
