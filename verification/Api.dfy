/**
 The MetalLB resource, the operator's environment, the two validations a resource passes, and the
 mode-dependent chart values (api/v1beta1, pkg/params, the value builders of pkg/helm).
 */
module Api {
  import opened AlwaysBlock
  import opened Cidr
  import opened JsonTrees
  import opened Text
  import opened Wrappers

  const FRRMode := "frr"
  const NativeMode := "native"
  const FRRK8sMode := "frr-k8s"
  const FRRK8sExternalMode := "frr-k8s-external"

  datatype Toleration = Toleration(seconds: Option<int>, effect: string)

  /** The weights of the preferred terms, where the affinity has them; `body` is the whole affinity. */
  datatype Affinity = Affinity(nodeWeights: seq<int>, podWeights: seq<int>, body: Json)

  datatype Config = Config(affinity: Option<Affinity>, resources: Option<Json>, other: Json)

  datatype FRRK8SConfig = FRRK8SConfig(alwaysBlock: seq<string>, namespace: string, secretPassthrough: bool)

  datatype Spec = Spec(
    bgpBackend: string,
    controllerTolerations: seq<Toleration>,
    speakerTolerations: seq<Toleration>,
    controllerConfig: Option<Config>,
    speakerConfig: Option<Config>,
    frrk8sConfig: Option<FRRK8SConfig>,
    other: Json)

  datatype Env = Env(
    namespace: string,
    frrk8sExternalNamespace: string,
    isOpenshift: bool,
    mustDeployFRRK8sFromCNO: bool,
    other: Json)

  /** The BGP mode in effect: the explicit one, or a default that depends on the platform. */
  function BGPType(spec: Spec, env: Env): string {
    if spec.bgpBackend != "" then spec.bgpBackend
    else if env.isOpenshift && env.mustDeployFRRK8sFromCNO then FRRK8sExternalMode
    else if env.isOpenshift then FRRK8sMode
    else FRRMode
  }

  /** FRR-K8s comes from the network operator: on OpenShift, when it must, for the backend named or by default. */
  predicate FromNetworkOperator(spec: Spec, env: Env) {
    env.isOpenshift && env.mustDeployFRRK8sFromCNO && spec.bgpBackend in {"", "frr-k8s-external"}
  }

  // ---- Validate ----

  predicate TolerationOk(t: Toleration) {
    t.seconds.Some? && t.seconds.value > 0 ==> t.effect == "NoExecute"
  }

  predicate WeightsOk(config: Option<Config>) {
    config.Some? && config.value.affinity.Some? ==>
      var a := config.value.affinity.value;
      forall w :: w in a.nodeWeights + a.podWeights ==> 1 <= w <= 100
  }

  /** `externalNamespace` is the package variable ExternalFRRK8sNamespace. */
  predicate ValidFRRK8sConfig(spec: Spec, externalNamespace: string) {
    && !(spec.bgpBackend == FRRK8sExternalMode && externalNamespace == ""
         && (spec.frrk8sConfig.None? || spec.frrk8sConfig.value.namespace == ""))
    && (spec.frrk8sConfig.Some? ==> AllCidrs(spec.frrk8sConfig.value.alwaysBlock))
  }

  predicate Validate(spec: Spec, externalNamespace: string) {
    && (forall t :: t in spec.controllerTolerations + spec.speakerTolerations ==> TolerationOk(t))
    && WeightsOk(spec.speakerConfig) && WeightsOk(spec.controllerConfig)
    && spec.bgpBackend in {"", NativeMode, FRRK8sMode, FRRK8sExternalMode, FRRMode}
    && ValidFRRK8sConfig(spec, externalNamespace)
  }

  predicate ValidBGPMode(spec: Spec, isOpenshift: bool) {
    || (spec.bgpBackend == FRRK8sExternalMode && isOpenshift)
    || (spec.bgpBackend in {"", NativeMode, FRRK8sMode, FRRMode}
        && !(isOpenshift && spec.bgpBackend == NativeMode))
  }

  // ---- Chart values that depend on the mode ----

  datatype MetalLBValues = MetalLBValues(
    frrEnabled: bool,
    frrk8sEnabled: bool,
    frrk8sExternal: bool,
    frrk8sNamespace: string,
    secretPassthrough: bool)

  function ChartValues(env: Env, spec: Spec): MetalLBValues {
    var config := spec.frrk8sConfig;
    MetalLBValues(
      BGPType(spec, env) == FRRMode,
      BGPType(spec, env) == FRRK8sMode,
      BGPType(spec, env) == FRRK8sExternalMode,
      if config.Some? && config.value.namespace != "" then config.value.namespace else env.frrk8sExternalNamespace,
      config.Some? && config.value.secretPassthrough)
  }

  /** frrk8sValues: the entry "alwaysBlock" is there only with an FRRK8SConfig, and may be refused. */
  function FRRK8sValues(spec: Spec): Result<Option<string>> {
    if spec.frrk8sConfig.None? then Ok(None)
    else
      var block :- BlockString(spec.frrk8sConfig.value.alwaysBlock);
      Ok(Some(block))
  }

  /** The mode is one of four, fits the platform, and switches on at most one backend. */
  lemma ModeAgreement(spec: Spec, env: Env, externalNamespace: string)
    requires Validate(spec, externalNamespace) && ValidBGPMode(spec, env.isOpenshift)
    ensures BGPType(spec, env) in {FRRMode, NativeMode, FRRK8sMode, FRRK8sExternalMode}
    ensures env.isOpenshift ==> BGPType(spec, env) != NativeMode
    ensures !env.isOpenshift ==> BGPType(spec, env) != FRRK8sExternalMode
    ensures
      var v := ChartValues(env, spec);
      && !(v.frrEnabled && v.frrk8sEnabled) && !(v.frrEnabled && v.frrk8sExternal)
      && !(v.frrk8sEnabled && v.frrk8sExternal)
      && (BGPType(spec, env) == NativeMode <==> !v.frrEnabled && !v.frrk8sEnabled && !v.frrk8sExternal)
  {
  }

  /**
   The values the charts switch on, from what the user and the platform say: a backend by its name, or the
   platform's default when none is named; the namespace the user gives, or else the operator's default.
   */
  lemma BackendSwitches(spec: Spec, env: Env)
    ensures
      var v, backend, config := ChartValues(env, spec), spec.bgpBackend, spec.frrk8sConfig;
      && (v.frrEnabled <==> backend == "frr" || (backend == "" && !env.isOpenshift))
      && (v.frrk8sEnabled <==>
            backend == "frr-k8s" || (backend == "" && env.isOpenshift && !env.mustDeployFRRK8sFromCNO))
      && (v.frrk8sExternal <==>
            backend == "frr-k8s-external" || (backend == "" && env.isOpenshift && env.mustDeployFRRK8sFromCNO))
      && (config.Some? && config.value.namespace != "" ==> v.frrk8sNamespace == config.value.namespace)
      && (config.None? || config.value.namespace == "" ==> v.frrk8sNamespace == env.frrk8sExternalNamespace)
      && (v.secretPassthrough <==> config.Some? && config.value.secretPassthrough)
    ensures FromNetworkOperator(spec, env) <==>
      env.isOpenshift && env.mustDeployFRRK8sFromCNO && ChartValues(env, spec).frrk8sExternal
  {
  }

  /** A toleration Validate objects to. */
  predicate BadToleration(t: Toleration) {
    t.seconds.Some? && t.seconds.value > 0 && t.effect != "NoExecute"
  }

  /** A weight of a preferred term Validate objects to. */
  predicate BadWeight(config: Option<Config>, w: int) {
    && config.Some? && config.value.affinity.Some?
    && (w in config.value.affinity.value.nodeWeights || w in config.value.affinity.value.podWeights)
    && (w < 1 || w > 100)
  }

  /** Everything Validate objects to, and nothing else. */
  lemma ValidateMeaning(spec: Spec, externalNamespace: string)
    ensures !Validate(spec, externalNamespace) <==>
      || (exists t :: t in spec.controllerTolerations && BadToleration(t))
      || (exists t :: t in spec.speakerTolerations && BadToleration(t))
      || (exists w :: BadWeight(spec.speakerConfig, w))
      || (exists w :: BadWeight(spec.controllerConfig, w))
      || spec.bgpBackend !in {"", "native", "frr", "frr-k8s", "frr-k8s-external"}
      || (spec.bgpBackend == "frr-k8s-external" && externalNamespace == ""
          && !(spec.frrk8sConfig.Some? && spec.frrk8sConfig.value.namespace != ""))
      || (spec.frrk8sConfig.Some?
          && exists c :: c in spec.frrk8sConfig.value.alwaysBlock && !IsCidr(TrimSpace(c)))
  {
    TolerationsMeaning(spec);
    WeightsMeaning(spec.speakerConfig);
    WeightsMeaning(spec.controllerConfig);
    hide BadToleration;
    hide BadWeight;
    hide TolerationOk;
    hide WeightsOk;
    hide IsCidr;
    hide TrimSpace;
  }

  lemma TolerationsMeaning(spec: Spec)
    ensures (forall t :: t in spec.controllerTolerations + spec.speakerTolerations ==> TolerationOk(t)) <==>
      && (forall t :: t in spec.controllerTolerations ==> !BadToleration(t))
      && (forall t :: t in spec.speakerTolerations ==> !BadToleration(t))
  {
    assert forall t :: TolerationOk(t) <==> !BadToleration(t);
    var all := spec.controllerTolerations + spec.speakerTolerations;
    assert forall t :: t in spec.controllerTolerations || t in spec.speakerTolerations <==> t in all;
  }

  lemma WeightsMeaning(config: Option<Config>)
    ensures WeightsOk(config) <==> forall w :: !BadWeight(config, w)
  {
    if config.Some? && config.value.affinity.Some? {
      var a := config.value.affinity.value;
      if w :| w in a.nodeWeights + a.podWeights && !(1 <= w <= 100) {
        assert BadWeight(config, w);
      }
      if w :| BadWeight(config, w) {
        assert w in a.nodeWeights + a.podWeights;
      }
    }
  }

  /** The backends each platform allows. */
  lemma BGPModeMeaning(spec: Spec, isOpenshift: bool)
    ensures ValidBGPMode(spec, isOpenshift) <==>
      spec.bgpBackend in
        if isOpenshift then {"", "frr", "frr-k8s", "frr-k8s-external"} else {"", "frr", "frr-k8s", "native"}
  {
  }

  /**
   The package variable is either still empty or already the environment's namespace. Then the
   external mode is rendered without a namespace exactly when it was chosen by default and nobody
   named one; an explicit external backend always gets a namespace.
   */
  lemma ExternalNamespace(spec: Spec, env: Env, externalNamespace: string)
    requires externalNamespace in {"", env.frrk8sExternalNamespace}
    requires Validate(spec, externalNamespace) && ValidBGPMode(spec, env.isOpenshift)
    ensures
      var v := ChartValues(env, spec);
      v.frrk8sExternal && v.frrk8sNamespace == "" <==>
        && spec.bgpBackend == "" && env.isOpenshift && env.mustDeployFRRK8sFromCNO
        && env.frrk8sExternalNamespace == ""
        && (spec.frrk8sConfig.None? || spec.frrk8sConfig.value.namespace == "")
  {
  }

  /**
   A resource that passes Validate never makes frrk8sValues fail; with an FRRK8SConfig the value is its
   prefixes, sorted and joined by commas.
   */
  lemma ValidSpecHasBlockString(spec: Spec, externalNamespace: string)
    requires Validate(spec, externalNamespace)
    ensures FRRK8sValues(spec).Ok?
    ensures FRRK8sValues(spec).value.Some? <==> spec.frrk8sConfig.Some?
    ensures spec.frrk8sConfig.Some? ==>
      var block := spec.frrk8sConfig.value.alwaysBlock;
      exists sorted :: IsSorted(sorted) && multiset(sorted) == multiset(block)
        && FRRK8sValues(spec).value == Some(Join(sorted, ','))
  {
    if spec.frrk8sConfig.Some? {
      SortedSorts(spec.frrk8sConfig.value.alwaysBlock);
    }
  }
}
