/** Parsing the list of TLS curves (pkg/tlsconfig/tlsopt.go); code points as in section 4.2.7 of RFC 8446. */
module Curves {
  import opened Text
  import opened Wrappers

  /** The parsed list (None for Go's nil), or which check failed and on what. */
  datatype Outcome =
    | Accepted(ids: Option<seq<int>>)
    | NotNumeric(part: string)
    | OutOfRange(id: int)
    | Duplicate(id: int)
    | Unsupported(id: int)

  /** What `strconv.ParseUint(p, 10, 16)` accepts. */
  predicate IsUint16(p: string) {
    p != "" && AllDigits(p) && Value(p) <= 65535
  }

  predicate AllNumeric(parts: seq<string>) {
    forall i :: 0 <= i < |parts| ==> IsUint16(TrimSpace(parts[i]))
  }

  function Numbers(parts: seq<string>): (ids: seq<int>)
    requires AllNumeric(parts)
    ensures |ids| == |parts| && forall i :: 0 <= i < |ids| ==> ids[i] == Value(TrimSpace(parts[i]))
  {
    seq(|parts|, i requires 0 <= i < |parts| => Value(TrimSpace(parts[i])))
  }

  /** The first part that is not a number, if any. */
  function FirstBad(parts: seq<string>): (r: Option<string>)
    ensures r.None? <==> AllNumeric(parts)
  {
    if parts == [] then None
    else if !IsUint16(TrimSpace(parts[0])) then Some(TrimSpace(parts[0]))
    else
      assert parts == [parts[0]] + parts[1..];
      FirstBad(parts[1..])
  }

  /** The checks on one curve, in the order the code makes them. */
  function CheckOne(id: int, seen: set<int>, supported: set<int>): Option<Outcome> {
    if id <= 0 || id > 65535 then Some(OutOfRange(id))
    else if id in seen then Some(Duplicate(id))
    else if id !in supported then Some(Unsupported(id))
    else None
  }

  function Elements(ids: seq<int>): set<int> {
    set id | id in ids
  }

  /** The first complaint about the curves from position `n` on. */
  function Complaint(ids: seq<int>, n: nat, supported: set<int>): (r: Option<Outcome>)
    requires n <= |ids|
    ensures r.Some? ==> !r.value.Accepted?
    decreases |ids| - n
  {
    if n == |ids| then None
    else
      var c := CheckOne(ids[n], Elements(ids[..n]), supported);
      if c.Some? then c else Complaint(ids, n + 1, supported)
  }

  function Check(ids: seq<int>, supported: set<int>): Outcome {
    if |ids| == 0 then Accepted(None)
    else
      match Complaint(ids, 0, supported)
      case Some(c) => c
      case None => Accepted(Some(ids))
  }

  /** `supported` holds the code points the Go version at hand has a name for. */
  function Parse(curves: string, supported: set<int>): Outcome {
    if curves == "" then Accepted(None)
    else
      var parts := Split(curves, ',');
      match FirstBad(parts)
      case Some(p) => NotNumeric(p)
      case None => Check(Numbers(parts), supported)
  }

  method TlsCurvePreferences(curveIDs: seq<int>, supported: set<int>) returns (r: Outcome)
    ensures r == Check(curveIDs, supported)
  {
    if |curveIDs| == 0 {
      return Accepted(None);
    }
    var seen: set<int> := {};
    var result: seq<int> := [];
    for i := 0 to |curveIDs|
      invariant result == curveIDs[..i] && seen == Elements(curveIDs[..i])
      invariant Complaint(curveIDs, 0, supported) == Complaint(curveIDs, i, supported)
    {
      var id := curveIDs[i];
      if id <= 0 || id > 65535 {
        return OutOfRange(id);
      }
      if id in seen {
        return Duplicate(id);
      }
      seen := seen + {id};
      if id !in supported {
        return Unsupported(id);
      }
      result := result + [id];
      assert curveIDs[..i + 1] == curveIDs[..i] + [id];
    }
    assert curveIDs[..|curveIDs|] == curveIDs;
    return Accepted(Some(result));
  }

  method ParseCurvePreferences(curves: string, supported: set<int>) returns (r: Outcome)
    ensures r == Parse(curves, supported)
  {
    if curves == "" {
      return Accepted(None);
    }
    var parts := Split(curves, ',');
    var curveIDs: seq<int> := [];
    assert parts[0..] == parts;
    for i := 0 to |parts|
      invariant |curveIDs| == i
      invariant forall k :: 0 <= k < i ==> IsUint16(TrimSpace(parts[k])) && curveIDs[k] == Value(TrimSpace(parts[k]))
      invariant FirstBad(parts) == FirstBad(parts[i..])
    {
      assert parts[i..][1..] == parts[i + 1..];
      var p := TrimSpace(parts[i]);
      if !IsUint16(p) {
        return NotNumeric(p);
      }
      curveIDs := curveIDs + [Value(p)];
    }
    assert curveIDs == Numbers(parts);
    r := TlsCurvePreferences(curveIDs, supported);
  }

  // ---- What is accepted ----

  predicate Acceptable(ids: seq<int>, supported: set<int>) {
    && (forall i :: 0 <= i < |ids| ==> 1 <= ids[i] <= 65535 && ids[i] in supported)
    && (forall i, j :: 0 <= i < j < |ids| ==> ids[i] != ids[j])
  }

  lemma {:induction false} NoComplaint(ids: seq<int>, n: nat, supported: set<int>)
    requires n <= |ids| && Acceptable(ids[..n], supported)
    ensures Complaint(ids, n, supported).None? <==> Acceptable(ids, supported)
    decreases |ids| - n
  {
    assert ids[..|ids|] == ids;
    if n < |ids| {
      assert ids[..n + 1] == ids[..n] + [ids[n]];
      if CheckOne(ids[n], Elements(ids[..n]), supported).None? {
        assert forall i :: 0 <= i < n ==> ids[..n][i] in Elements(ids[..n]);
        NoComplaint(ids, n + 1, supported);
      } else {
        assert ids[n] in Elements(ids[..n]) ==> exists i :: 0 <= i < n && ids[i] == ids[n];
      }
    }
  }

  /** A decimal number between 1 and 65535, in digits only, that is supported. */
  predicate Good(p: string, supported: set<int>) {
    p != "" && AllDigits(p) && 1 <= Value(p) <= 65535 && Value(p) in supported
  }

  /**
   The empty string is accepted and gives no list. Any other is accepted exactly when every trimmed part is
   a decimal in 1..65535 that is supported and no two are the same number; the result is those numbers in
   their order.
   */
  lemma AcceptsExactly(curves: string, supported: set<int>)
    ensures Parse("", supported) == Accepted(None)
    ensures curves != "" ==>
      var parts, r := Split(curves, ','), Parse(curves, supported);
      && (r.Accepted? <==> AllGood(parts, supported) && Different(parts))
      && (r.Accepted? ==>
            && r.ids.Some? && |r.ids.value| == |parts|
            && forall i :: 0 <= i < |parts| ==> r.ids.value[i] == Value(TrimSpace(parts[i])))
  {
    if curves != "" {
      AcceptedNumbers(curves, supported);
      GoodIsAcceptable(Split(curves, ','), supported);
      hide TrimSpace;
      hide Value;
      hide Parse;
      hide Acceptable;
    }
  }

  predicate AllGood(parts: seq<string>, supported: set<int>) {
    forall i :: 0 <= i < |parts| ==> Good(TrimSpace(parts[i]), supported)
  }

  predicate Different(parts: seq<string>)
    requires AllNumeric(parts)
  {
    forall i, j :: 0 <= i < j < |parts| ==> Value(TrimSpace(parts[i])) != Value(TrimSpace(parts[j]))
  }

  lemma GoodIsAcceptable(parts: seq<string>, supported: set<int>)
    ensures AllGood(parts, supported) ==> AllNumeric(parts)
    ensures AllNumeric(parts) ==>
      (Acceptable(Numbers(parts), supported) <==> AllGood(parts, supported) && Different(parts))
  {
    hide TrimSpace;
    hide Value;
    if AllNumeric(parts) {
      var ids := Numbers(parts);
      hide Numbers;
      assert (forall i :: 0 <= i < |ids| ==> 1 <= ids[i] <= 65535 && ids[i] in supported)
        <==> AllGood(parts, supported);
      assert (forall i, j :: 0 <= i < j < |ids| ==> ids[i] != ids[j]) <==> Different(parts);
    }
  }

  lemma AcceptedNumbers(curves: string, supported: set<int>)
    requires curves != ""
    ensures
      var parts := Split(curves, ',');
      && (Parse(curves, supported).Accepted? <==>
            AllNumeric(parts) && Acceptable(Numbers(parts), supported))
      && (Parse(curves, supported).Accepted? ==> Parse(curves, supported).ids == Some(Numbers(parts)))
  {
    var parts := Split(curves, ',');
    if FirstBad(parts).None? {
      NoComplaint(Numbers(parts), 0, supported);
    }
  }

  // ---- What is refused ----

  /** The trimmed part is no decimal up to 65535, and every part before it is one. */
  predicate FirstBadAt(parts: seq<string>, i: int, p: string) {
    && 0 <= i < |parts| && p == TrimSpace(parts[i])
    && !(p != "" && AllDigits(p) && Value(p) <= 65535) && AllNumeric(parts[..i])
  }

  lemma {:induction false} FirstBadMeaning(parts: seq<string>)
    requires FirstBad(parts).Some?
    ensures exists i :: FirstBadAt(parts, i, FirstBad(parts).value)
  {
    hide TrimSpace;
    if !IsUint16(TrimSpace(parts[0])) {
      assert FirstBadAt(parts, 0, FirstBad(parts).value);
    } else {
      FirstBadMeaning(parts[1..]);
      var i :| FirstBadAt(parts[1..], i, FirstBad(parts).value);
      assert parts[..i + 1] == [parts[0]] + parts[1..][..i];
      assert FirstBadAt(parts, i + 1, FirstBad(parts).value);
    }
  }

  /** The checks on a curve after acceptable ones: range first, then repetition, then support. */
  predicate RefusedAt(ids: seq<int>, i: int, supported: set<int>, r: Outcome) {
    && 0 <= i < |ids| && Acceptable(ids[..i], supported)
    && if !(1 <= ids[i] <= 65535) then r == OutOfRange(ids[i])
       else if ids[i] in ids[..i] then r == Duplicate(ids[i])
       else ids[i] !in supported && r == Unsupported(ids[i])
  }

  lemma {:induction false} ComplaintMeaning(ids: seq<int>, n: nat, supported: set<int>)
    requires n <= |ids| && Acceptable(ids[..n], supported) && Complaint(ids, n, supported).Some?
    ensures exists i :: RefusedAt(ids, i, supported, Complaint(ids, n, supported).value)
    decreases |ids| - n
  {
    assert ids[..n + 1] == ids[..n] + [ids[n]];
    if CheckOne(ids[n], Elements(ids[..n]), supported).None? {
      assert forall i :: 0 <= i < n ==> ids[..n][i] in Elements(ids[..n]);
      ComplaintMeaning(ids, n + 1, supported);
    } else {
      assert RefusedAt(ids, n, supported, Complaint(ids, n, supported).value);
    }
  }

  /**
   A refusal names the first thing wrong: the first part that is no decimal up to 65535, trimmed; or, when
   all are, the first number that is zero, repeats an earlier one or is not supported, in this order.
   */
  lemma RefusesFirst(curves: string, parts: seq<string>, supported: set<int>)
    requires parts == Split(curves, ',') && !Parse(curves, supported).Accepted?
    ensures
      var r := Parse(curves, supported);
      if r.NotNumeric?
      then exists i :: FirstBadAt(parts, i, r.part)
      else AllNumeric(parts) && exists i :: RefusedAt(Numbers(parts), i, supported, r)
  {
    RefusesParts(parts, supported, Parse(curves, supported));
  }

  lemma RefusesParts(parts: seq<string>, supported: set<int>, r: Outcome)
    requires !r.Accepted?
    requires r == match FirstBad(parts)
                  case Some(p) => NotNumeric(p)
                  case None => Check(Numbers(parts), supported)
    ensures
      if r.NotNumeric?
      then exists i :: FirstBadAt(parts, i, r.part)
      else AllNumeric(parts) && exists i :: RefusedAt(Numbers(parts), i, supported, r)
  {
    if FirstBad(parts).Some? {
      FirstBadMeaning(parts);
    } else {
      assert Numbers(parts)[..0] == [];
      ComplaintMeaning(Numbers(parts), 0, supported);
      NotAboutParts(Numbers(parts), 0, supported);
    }
  }

  lemma {:induction false} NotAboutParts(ids: seq<int>, n: nat, supported: set<int>)
    requires n <= |ids|
    ensures Complaint(ids, n, supported).Some? ==> !Complaint(ids, n, supported).value.NotNumeric?
    decreases |ids| - n
  {
    if n < |ids| {
      NotAboutParts(ids, n + 1, supported);
    }
  }

  // ---- Printing ----

  predicate Natural(ids: seq<int>) {
    forall i :: 0 <= i < |ids| ==> ids[i] >= 0
  }

  function Decimals(ids: seq<int>): (r: seq<string>)
    requires Natural(ids)
    ensures |r| == |ids| && forall i :: 0 <= i < |ids| ==> r[i] == Decimal(ids[i])
  {
    seq(|ids|, i requires 0 <= i < |ids| => Decimal(ids[i]))
  }

  function Print(ids: Option<seq<int>>): string
    requires ids.Some? ==> Natural(ids.value)
  {
    if ids.None? then "" else Join(Decimals(ids.value), ',')
  }

  /** Printing what was accepted and parsing it again gives the same list. */
  lemma PrintThenParse(curves: string, supported: set<int>)
    requires Parse(curves, supported).Accepted?
    ensures
      var ids := Parse(curves, supported).ids;
      && (ids.Some? ==> Natural(ids.value))
      && Parse(Print(ids), supported) == Parse(curves, supported)
  {
    if curves != "" {
      AcceptedNumbers(curves, supported);
      var ids := Parse(curves, supported).ids.value;
      var printed := Decimals(ids);
      forall i | 0 <= i < |printed|
        ensures ',' !in printed[i] && IsUint16(TrimSpace(printed[i])) && Value(TrimSpace(printed[i])) == ids[i]
      {
        TrimOfDigits(printed[i]);
        ValueOfDecimal(ids[i]);
      }
      SplitOfJoin(printed, ',');
      assert Join(printed, ',') != "" by {
        assert printed[0] != "";
      }
      AcceptedNumbers(Join(printed, ','), supported);
      assert Numbers(printed) == ids;
    }
  }
}
