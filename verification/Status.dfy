/** Conditions and rollout checks (pkg/status). */
module Status {
  import opened Wrappers

  const Available := "Available"
  const Upgradeable := "Upgradeable"
  const Progressing := "Progressing"
  const Degraded := "Degraded"

  datatype Condition = Condition(kind: string, status: bool, reason: string, message: string, time: int)

  /** What a desired condition means for one condition type. */
  function ConditionFor(kind: string, desired: string, reason: string, message: string, now: int): Condition {
    var on := match kind
      case "Available" => desired == Available
      case "Upgradeable" => desired == Available
      case "Progressing" => desired == Progressing
      case "Degraded" => desired == Degraded
      case _ => false;
    if on && kind in {Progressing, Degraded} then Condition(kind, true, reason, message, now)
    else Condition(kind, on, kind, "", now)
  }

  function Conditions(desired: string, reason: string, message: string, now: int): (r: seq<Condition>)
    ensures |r| == 4
  {
    [ConditionFor(Available, desired, reason, message, now), ConditionFor(Upgradeable, desired, reason, message, now),
     ConditionFor(Progressing, desired, reason, message, now), ConditionFor(Degraded, desired, reason, message, now)]
  }

  method GetBaseConditions(now: int) returns (conditions: array<Condition>)
    ensures fresh(conditions) && conditions.Length == 4
    ensures conditions[..] == [
      Condition(Available, false, Available, "", now), Condition(Upgradeable, false, Upgradeable, "", now),
      Condition(Progressing, false, Progressing, "", now), Condition(Degraded, false, Degraded, "", now)]
  {
    conditions := new Condition[] [
      Condition(Available, false, Available, "", now), Condition(Upgradeable, false, Upgradeable, "", now),
      Condition(Progressing, false, Progressing, "", now), Condition(Degraded, false, Degraded, "", now)];
  }

  /** getConditions: starts from four false conditions and edits some of them in place. */
  method GetConditions(condition: string, reason: string, message: string, now: int) returns (r: seq<Condition>)
    ensures r == Conditions(condition, reason, message, now)
  {
    var conditions := GetBaseConditions(now);
    if condition == Available {
      conditions[0] := conditions[0].(status := true);
      conditions[1] := conditions[1].(status := true);
    } else if condition == Progressing {
      conditions[2] := conditions[2].(status := true);
      conditions[2] := conditions[2].(reason := reason);
      conditions[2] := conditions[2].(message := message);
    } else if condition == Degraded {
      conditions[3] := conditions[3].(status := true);
      conditions[3] := conditions[3].(reason := reason);
      conditions[3] := conditions[3].(message := message);
    }
    r := conditions[..];
  }

  // ---- The reason pattern of the CRD: ^[A-Za-z]([A-Za-z0-9_,:]*[A-Za-z0-9_])?$ ----

  predicate IsLetter(c: char) { 'A' <= c <= 'Z' || 'a' <= c <= 'z' }

  predicate IsWordChar(c: char) { IsLetter(c) || '0' <= c <= '9' || c == '_' }

  predicate ReasonOk(s: string) {
    && 1 <= |s| <= 1024
    && IsLetter(s[0]) && IsWordChar(s[|s| - 1])
    && forall i :: 1 <= i < |s| ==> IsWordChar(s[i]) || s[i] in {',', ':'}
  }

  predicate ReasonsOk(conditions: seq<Condition>) {
    forall c :: c in conditions ==> ReasonOk(c.reason)
  }

  /** The characters of the pattern, by code point. */
  lemma PatternCharacters(c: char)
    ensures IsLetter(c) <==> 65 <= c as int <= 90 || 97 <= c as int <= 122
    ensures IsWordChar(c) <==> 65 <= c as int <= 90 || 97 <= c as int <= 122 || 48 <= c as int <= 57 || c as int == 95
  {
  }

  /** The pattern as a form: one letter; or a letter, allowed characters, and a last one that is no comma or colon. */
  lemma PatternMeaning(s: string)
    ensures ReasonOk(s) <==>
      && |s| <= 1024
      && ((|s| == 1 && IsLetter(s[0]))
          || exists first, mid, last ::
               && s == [first] + mid + [last] && IsLetter(first) && IsWordChar(last)
               && forall c :: c in mid ==> IsWordChar(c) || c == ',' || c == ':')
  {
    if ReasonOk(s) && |s| > 1 {
      var mid := s[1..|s| - 1];
      assert s == [s[0]] + mid + [s[|s| - 1]];
    }
  }

  const InternalError := "internal error"
  const IncorrectName := "IncorrectMetalLBResourceName"

  lemma KnownReasons()
    ensures ReasonOk(Available) && ReasonOk(Upgradeable) && ReasonOk(Progressing) && ReasonOk(Degraded)
    ensures ReasonOk(IncorrectName)
    ensures !ReasonOk(InternalError)
  {
    assert InternalError[8] == ' ';
  }

  /**
   Every list of conditions has the four types in their order, at the time given; Upgradeable follows
   Available; exactly the desired one of the other three is true. Progressing and Degraded carry the
   caller's reason and message when desired; every other condition has its type as reason and no message.
   */
  lemma ConditionsMeaning(desired: string, reason: string, message: string, now: int)
    requires desired in {Available, Progressing, Degraded}
    ensures
      var c := Conditions(desired, reason, message, now);
      && [c[0].kind, c[1].kind, c[2].kind, c[3].kind] == [Available, Upgradeable, Progressing, Degraded]
      && c[1].status == c[0].status
      && (forall i :: i in {0, 2, 3} ==> (c[i].status <==> c[i].kind == desired))
      && (forall i :: 0 <= i < 4 ==> c[i].time == now)
      && (forall i :: 0 <= i < 4 ==>
            if i >= 2 && c[i].kind == desired then c[i].reason == reason && c[i].message == message
            else c[i].reason == c[i].kind && c[i].message == "")
      && (ReasonsOk(c) <==> desired == Available || ReasonOk(reason))
      && (desired != Available ==> exists i :: 0 <= i < 4 && c[i].status && c[i].reason == reason)
  {
    KnownReasons();
    var c := Conditions(desired, reason, message, now);
    assert forall d :: d in c <==> d == c[0] || d == c[1] || d == c[2] || d == c[3];
    if desired == Progressing {
      assert c[2].status && c[2].reason == reason;
    } else if desired == Degraded {
      assert c[3].status && c[3].reason == reason;
    }
  }

  // ---- Rollout ----

  datatype DaemonSet = DaemonSet(
    generation: int, observedGeneration: int,
    desired: int, current: int, ready: int, updated: int)

  datatype Deployment = Deployment(
    generation: int, observedGeneration: int,
    replicas: Option<int>, ready: int, updated: int)

  datatype Readiness = Ready | NotReady | ReadFailed

  function IsDaemonSetReady(ds: DaemonSet): Readiness {
    if ds.generation != ds.observedGeneration then NotReady
    else if ds.desired != ds.current || ds.desired != ds.ready then NotReady
    else if ds.desired != ds.updated then NotReady
    else Ready
  }

  function IsDeploymentReady(d: Deployment): Readiness {
    if d.generation != d.observedGeneration then NotReady
    else
      var replicas := d.replicas.GetOr(1);
      if d.ready != replicas || d.updated != replicas then NotReady else Ready
  }

  /** The latest generation is observed and every pod it asks for is there, ready and updated. */
  predicate DaemonSetDone(ds: DaemonSet) {
    ds.observedGeneration == ds.generation && ds.current == ds.ready == ds.updated == ds.desired
  }

  /** The same for a deployment, whose replicas default to one. */
  predicate DeploymentDone(d: Deployment) {
    && d.observedGeneration == d.generation
    && d.ready == d.updated == (match d.replicas case Some(n) => n case None => 1)
  }

  predicate RolledOut(ds: DaemonSet, d: Deployment) {
    DaemonSetDone(ds) && DeploymentDone(d)
  }
}
