/** The texts accepted as prefixes, by how they are written. */
module CidrForms {
  import opened Cidr
  import opened Text
  import opened Wrappers

  // ---- IPv4 ----

  lemma {:induction false} LeadingDigitCounts(s: string)
    requires s != "" && AllDigits(s) && s[0] != '0'
    ensures Value(s) >= 1
  {
    if |s| > 1 {
      LeadingDigitCounts(s[..|s| - 1]);
    } else {
      assert Value(s[..0]) == 0;
    }
  }

  /** Decimal digits without a leading zero are the decimal printing of their value. */
  lemma {:induction false} DecimalOfValue(s: string)
    requires s != "" && AllDigits(s) && (|s| == 1 || s[0] != '0')
    ensures Decimal(Value(s)) == s
  {
    var d := s[|s| - 1] as int - '0' as int;
    if |s| == 1 {
      assert Value(s[..0]) == 0;
      assert Value(s) == d;
    } else {
      var front := s[..|s| - 1];
      LeadingDigitCounts(front);
      DecimalOfValue(front);
      assert Value(s) / 10 == Value(front) && Value(s) % 10 == d;
      assert s == front + [s[|s| - 1]];
    }
  }

  lemma {:induction false} NoLeadingZero(n: nat)
    ensures |Decimal(n)| == 1 || Decimal(n)[0] != '0'
    ensures n > 0 ==> Decimal(n)[0] != '0'
  {
    if n >= 10 {
      NoLeadingZero(n / 10);
    }
  }

  /** An octet is the decimal printing of a number up to 255. */
  lemma OctetMeaning(s: string)
    ensures IsOctet(s) <==> exists n: nat :: n <= 255 && s == Decimal(n)
  {
    if IsOctet(s) {
      DecimalOfValue(s);
    }
    if n: nat :| n <= 255 && s == Decimal(n) {
      ValueOfDecimal(n);
      NoLeadingZero(n);
    }
  }

  function Dotted(a: nat, b: nat, c: nat, d: nat): string {
    Decimal(a) + "." + Decimal(b) + "." + Decimal(c) + "." + Decimal(d)
  }

  lemma JoinFour(p: string, q: string, r: string, t: string)
    ensures Join([p, q, r, t], '.') == p + "." + q + "." + r + "." + t
  {
    assert [p, q, r, t][1..] == [q, r, t] && [q, r, t][1..] == [r, t] && [r, t][1..] == [t];
    assert Join([r, t], '.') == r + "." + t;
    assert Join([q, r, t], '.') == q + "." + (r + "." + t);
  }

  /** An IPv4 address is four numbers up to 255, printed in decimal with dots between them. */
  lemma IPv4Meaning(s: string)
    ensures IsIPv4(s) <==>
      exists a: nat, b: nat, c: nat, d: nat :: a <= 255 && b <= 255 && c <= 255 && d <= 255 && s == Dotted(a, b, c, d)
  {
    if IsIPv4(s) {
      var parts := Split(s, '.');
      JoinOfSplit(s, '.');
      JoinFour(parts[0], parts[1], parts[2], parts[3]);
      assert parts == [parts[0], parts[1], parts[2], parts[3]];
      forall i | 0 <= i < 4 ensures exists n: nat :: n <= 255 && parts[i] == Decimal(n) {
        assert parts[i] in parts;
        OctetMeaning(parts[i]);
      }
      hide IsIPv4;
      hide Split;
      hide Decimal;
      hide Join;
      var a: nat :| a <= 255 && parts[0] == Decimal(a);
      var b: nat :| b <= 255 && parts[1] == Decimal(b);
      var c: nat :| c <= 255 && parts[2] == Decimal(c);
      var d: nat :| d <= 255 && parts[3] == Decimal(d);
      assert s == Dotted(a, b, c, d);
    }
    if a: nat, b: nat, c: nat, d: nat :| a <= 255 && b <= 255 && c <= 255 && d <= 255 && s == Dotted(a, b, c, d) {
      DottedIsIPv4(a, b, c, d);
    }
  }

  lemma DecimalIsOctet(n: nat)
    requires n <= 255
    ensures IsOctet(Decimal(n)) && '.' !in Decimal(n)
  {
    OctetMeaning(Decimal(n));
  }

  lemma DottedIsIPv4(a: nat, b: nat, c: nat, d: nat)
    requires a <= 255 && b <= 255 && c <= 255 && d <= 255
    ensures IsIPv4(Dotted(a, b, c, d))
  {
    DecimalIsOctet(a);
    DecimalIsOctet(b);
    DecimalIsOctet(c);
    DecimalIsOctet(d);
    hide IsOctet;
    hide Decimal;
    hide Join;
    var parts := [Decimal(a), Decimal(b), Decimal(c), Decimal(d)];
    JoinFour(Decimal(a), Decimal(b), Decimal(c), Decimal(d));
    forall p | p in parts ensures '.' !in p && IsOctet(p) {
      assert p == Decimal(a) || p == Decimal(b) || p == Decimal(c) || p == Decimal(d);
    }
    SplitOfJoin(parts, '.');
  }

  // ---- IPv6 ----

  /** One to four hexadecimal digits. */
  predicate HexGroup(s: string) {
    && 1 <= |s| <= 4
    && forall i :: 0 <= i < |s| ==>
         48 <= s[i] as int <= 57 || 65 <= s[i] as int <= 70 || 97 <= s[i] as int <= 102
  }

  lemma GroupMeaning(s: string)
    ensures IsGroup(s) <==> HexGroup(s)
  {
  }

  predicate AllGroups(parts: seq<string>) {
    forall i :: 0 <= i < |parts| ==> HexGroup(parts[i])
  }

  /** The parts stand for `n` fields: groups, of which the last may be an IPv4 address for two of them. */
  predicate StandFor(parts: seq<string>, dotted: bool, n: nat) {
    || (AllGroups(parts) && n == |parts|)
    || (dotted && parts != [] && IsIPv4(parts[|parts| - 1]) && AllGroups(parts[..|parts| - 1]) && n == |parts| + 1)
  }

  lemma GroupIsNoIPv4(s: string)
    requires IsGroup(s)
    ensures !IsIPv4(s)
  {
    SplitWithoutSeparator(s, '.');
  }

  lemma {:induction false} UnitsMeaning(parts: seq<string>, dotted: bool, n: nat)
    ensures Units(parts, dotted) == Some(n) <==> StandFor(parts, dotted, n)
  {
    hide IsIPv4;
    if parts != [] {
      var rest := parts[1..];
      assert parts == [parts[0]] + rest;
      GroupMeaning(parts[0]);
      if IsGroup(parts[0]) {
        GroupIsNoIPv4(parts[0]);
        if n > 0 {
          UnitsMeaning(rest, dotted, n - 1);
          assert |rest| > 0 ==> parts[..|parts| - 1] == [parts[0]] + rest[..|rest| - 1];
        }
      } else {
        assert AllGroups(parts[..|parts| - 1]) ==> |parts| == 1;
      }
    }
  }

  /** The two colons come right here. */
  predicate EllipsisAt(s: string, k: int) {
    0 <= k && k + 2 <= |s| && s[k] == ':' && s[k + 1] == ':'
  }

  lemma {:induction false} EllipsisMeaning(s: string)
    ensures FindEllipsis(s).None? <==> forall k :: !EllipsisAt(s, k)
    ensures FindEllipsis(s).Some? ==>
      EllipsisAt(s, FindEllipsis(s).value) && forall k :: k < FindEllipsis(s).value ==> !EllipsisAt(s, k)
  {
    if |s| >= 2 {
      EllipsisMeaning(s[1..]);
      assert EllipsisAt(s, 0) <==> s[0] == ':' && s[1] == ':';
      forall k | k > 0 ensures EllipsisAt(s, k) <==> EllipsisAt(s[1..], k - 1) {
      }
      var r := FindEllipsis(s[1..]);
      if !EllipsisAt(s, 0) && r.Some? {
        assert EllipsisAt(s, r.value + 1);
      }
    }
  }

  lemma GroupText(s: string)
    requires IsGroup(s) || IsIPv4(s)
    ensures s != "" && ':' !in s
  {
    if IsIPv4(s) {
      if ':' in s {
        SplitKeeps(s, '.', ':');
      }
      assert Split("", '.') == [""];
    }
  }

  /** No colon is followed by another or comes last. */
  predicate Spaced(s: string) {
    forall i :: 0 <= i < |s| && s[i] == ':' ==> i + 1 < |s| && s[i + 1] != ':'
  }

  lemma {:induction false} JoinedIsSpaced(parts: seq<string>)
    requires forall p :: p in parts ==> p != "" && ':' !in p
    ensures Spaced(Join(parts, ':'))
    ensures parts != [] ==> Join(parts, ':') != "" && Join(parts, ':')[0] != ':'
  {
    if parts != [] {
      assert parts[0] in parts;
      if |parts| > 1 {
        forall p | p in parts[1..] ensures p in parts {
        }
        JoinedIsSpaced(parts[1..]);
        SpacedAfter(parts[0], Join(parts[1..], ':'));
      }
    }
  }

  lemma SpacedAfter(part: string, tail: string)
    requires part != "" && ':' !in part && Spaced(tail) && tail != "" && tail[0] != ':'
    ensures Spaced(part + [':'] + tail) && (part + [':'] + tail)[0] != ':'
  {
    var s := part + [':'] + tail;
    assert forall i :: 0 <= i < |part| ==> s[i] == part[i] != ':';
    forall i | 0 <= i < |s| && s[i] == ':' ensures i + 1 < |s| && s[i + 1] != ':' {
      if i > |part| {
        assert s[i] == tail[i - |part| - 1];
      }
    }
  }

  lemma PartsAreText(parts: seq<string>, dotted: bool, n: nat)
    requires StandFor(parts, dotted, n)
    ensures forall p :: p in parts ==> p != "" && ':' !in p
  {
    hide IsIPv4;
    forall p | p in parts ensures p != "" && ':' !in p {
      GroupMeaning(p);
      var i :| 0 <= i < |parts| && parts[i] == p;
      assert i < |parts| - 1 ==> parts[..|parts| - 1][i] == p;
      GroupText(p);
    }
  }

  lemma EllipsisAfter(left: string, right: string)
    requires Spaced(left)
    ensures FindEllipsis(left + "::" + right) == Some(|left|)
  {
    var s := left + "::" + right;
    EllipsisMeaning(s);
    assert EllipsisAt(s, |left|);
    forall k | 0 <= k < |left| ensures !EllipsisAt(s, k) {
      assert s[k] == left[k];
      assert k + 1 < |left| ==> s[k + 1] == left[k + 1];
    }
  }

  /** Eight fields written out, with colons between them. */
  ghost predicate FullForm(s: string, parts: seq<string>) {
    StandFor(parts, true, 8) && s == Join(parts, ':')
  }

  /** At most seven fields, on the two sides of two colons; an IPv4 address may only end the right side. */
  ghost predicate ShortForm(s: string, left: seq<string>, right: seq<string>, n: nat) {
    && AllGroups(left) && StandFor(right, true, n) && |left| + n <= 7
    && s == Join(left, ':') + "::" + Join(right, ':')
  }

  lemma SideMeaning(s: string, dotted: bool) returns (parts: seq<string>)
    requires SideUnits(s, dotted).Some?
    ensures s == Join(parts, ':') && StandFor(parts, dotted, SideUnits(s, dotted).value)
  {
    if s == "" {
      parts := [];
    } else {
      parts := Split(s, ':');
      JoinOfSplit(s, ':');
      UnitsMeaning(parts, dotted, SideUnits(s, dotted).value);
    }
    hide StandFor;
  }

  lemma JoinedSide(parts: seq<string>, dotted: bool, n: nat)
    requires StandFor(parts, dotted, n)
    ensures SideUnits(Join(parts, ':'), dotted) == Some(n)
    ensures parts != [] ==> Split(Join(parts, ':'), ':') == parts
    ensures Spaced(Join(parts, ':'))
  {
    PartsAreText(parts, dotted, n);
    JoinedIsSpaced(parts);
    UnitsMeaning(parts, dotted, n);
    if parts != [] {
      SplitOfJoin(parts, ':');
    }
    hide Units;
    hide Split;
    hide Spaced;
  }

  /** An IPv6 address is a text of one of the two forms. */
  lemma IPv6Meaning(s: string)
    ensures IsIPv6(s) <==>
      (exists parts :: FullForm(s, parts)) || (exists left, right, n :: ShortForm(s, left, right, n))
  {
    if IsIPv6(s) {
      IPv6Sound(s);
    }
    if parts :| FullForm(s, parts) {
      FullIsIPv6(s, parts);
    }
    if left, right, n :| ShortForm(s, left, right, n) {
      ShortIsIPv6(s, left, right, n);
    }
    hide IsIPv6;
    hide FullForm;
    hide ShortForm;
  }

  lemma IPv6Sound(s: string)
    requires IsIPv6(s)
    ensures (exists parts :: FullForm(s, parts)) || (exists left, right, n :: ShortForm(s, left, right, n))
  {
    hide Units;
    hide SideUnits;
    match FindEllipsis(s)
    case None =>
      var parts := Split(s, ':');
      JoinOfSplit(s, ':');
      UnitsMeaning(parts, true, 8);
      assert FullForm(s, parts);
    case Some(k) =>
      var left := SideMeaning(s[..k], false);
      var right := SideMeaning(s[k + 2..], true);
      assert s == s[..k] + [s[k], s[k + 1]] + s[k + 2..];
      assert [s[k], s[k + 1]] == "::";
      assert ShortForm(s, left, right, SideUnits(s[k + 2..], true).value);
  }

  lemma FullIsIPv6(s: string, parts: seq<string>)
    requires FullForm(s, parts)
    ensures IsIPv6(s)
  {
    JoinedSide(parts, true, 8);
    UnitsMeaning(parts, true, 8);
    EllipsisMeaning(s);
    assert forall k :: !EllipsisAt(s, k);
    hide FindEllipsis;
    hide Units;
    hide Split;
    hide Join;
  }

  lemma ShortIsIPv6(s: string, left: seq<string>, right: seq<string>, n: nat)
    requires ShortForm(s, left, right, n)
    ensures IsIPv6(s)
  {
    assert StandFor(left, false, |left|);
    JoinedSide(left, false, |left|);
    JoinedSide(right, true, n);
    var x, y := Join(left, ':'), Join(right, ':');
    EllipsisAfter(x, y);
    assert s[..|x|] == x && s[|x| + 2..] == y;
    hide FindEllipsis;
    hide SideUnits;
    hide Join;
    hide StandFor;
  }

  // ---- Prefixes ----

  /** A length in decimal digits, up to the most the address allows. */
  predicate IsLength(s: string, max: nat) {
    s != "" && AllDigits(s) && Value(s) <= max
  }

  /** An address, a slash and a length: up to 32 after an IPv4 address, up to 128 after an IPv6 address. */
  ghost predicate PrefixForm(s: string, address: string, length: string) {
    && s == address + "/" + length && '/' !in address && '/' !in length
    && ((IsIPv4(address) && IsLength(length, 32)) || (IsIPv6(address) && IsLength(length, 128)))
  }

  lemma CidrMeaning(s: string)
    ensures IsCidr(s) <==> exists address, length :: PrefixForm(s, address, length)
  {
    hide IsIPv4;
    hide IsIPv6;
    if IsCidr(s) {
      var parts := Split(s, '/');
      JoinOfSplit(s, '/');
      SplitPartsAvoidSeparator(s, '/');
      assert parts == [parts[0], parts[1]];
      assert Join(parts, '/') == parts[0] + "/" + parts[1];
      assert parts[0] in parts && parts[1] in parts;
      assert PrefixForm(s, parts[0], parts[1]);
    }
    if address, length :| PrefixForm(s, address, length) {
      var parts := [address, length];
      assert parts[1..] == [length];
      assert Join(parts, '/') == address + "/" + length;
      SplitOfJoin(parts, '/');
    }
  }
}
