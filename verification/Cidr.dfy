/**
 The texts `net.ParseCIDR` accepts: the notation of section 3.1 of RFC 4632 for IPv4 and of
 section 2.3 of RFC 4291 for IPv6, with addresses written as in section 2.2 of RFC 4291.
 */
module Cidr {
  import opened Text
  import opened Wrappers

  predicate IsHex(c: char) {
    IsDigit(c) || 'a' <= c <= 'f' || 'A' <= c <= 'F'
  }

  predicate IsOctet(s: string) {
    s != "" && AllDigits(s) && (|s| == 1 || s[0] != '0') && Value(s) <= 255
  }

  predicate IsIPv4(s: string) {
    var parts := Split(s, '.');
    |parts| == 4 && forall p :: p in parts ==> IsOctet(p)
  }

  predicate IsGroup(s: string) {
    1 <= |s| <= 4 && forall i :: 0 <= i < |s| ==> IsHex(s[i])
  }

  /** How many 16-bit fields the parts stand for; only the last may be a dotted IPv4 address. */
  function Units(parts: seq<string>, dotted: bool): Option<nat> {
    if parts == [] then Some(0)
    else if IsGroup(parts[0]) then
      match Units(parts[1..], dotted)
      case Some(n) => Some(n + 1)
      case None => None
    else if |parts| == 1 && dotted && IsIPv4(parts[0]) then Some(2)
    else None
  }

  /** The fields of one side of the "::"; an empty side has none. */
  function SideUnits(s: string, dotted: bool): Option<nat> {
    if s == "" then Some(0) else Units(Split(s, ':'), dotted)
  }

  function FindEllipsis(s: string): (r: Option<nat>)
    ensures r.Some? ==> r.value + 2 <= |s| && s[r.value] == ':' && s[r.value + 1] == ':'
  {
    if |s| < 2 then None
    else if s[0] == ':' && s[1] == ':' then Some(0)
    else
      match FindEllipsis(s[1..])
      case Some(k) => Some(k + 1)
      case None => None
  }

  /** Eight fields, or fewer than eight with one "::" standing for at least one field of zeros. */
  predicate IsIPv6(s: string) {
    match FindEllipsis(s)
    case None => Units(Split(s, ':'), true) == Some(8)
    case Some(k) =>
      var left := SideUnits(s[..k], false);
      var right := SideUnits(s[k + 2..], true);
      left.Some? && right.Some? && left.value + right.value <= 7
  }

  predicate IsPrefixLength(s: string, max: nat) {
    s != "" && AllDigits(s) && Value(s) <= max
  }

  predicate IsCidr(s: string) {
    var parts := Split(s, '/');
    && |parts| == 2
    && ((IsIPv4(parts[0]) && IsPrefixLength(parts[1], 32)) || (IsIPv6(parts[0]) && IsPrefixLength(parts[1], 128)))
  }

  lemma {:induction false} UnitsHaveNoComma(parts: seq<string>, dotted: bool)
    requires Units(parts, dotted).Some?
    ensures forall p :: p in parts ==> ',' !in p
  {
    if parts != [] {
      if IsGroup(parts[0]) {
        UnitsHaveNoComma(parts[1..], dotted);
        assert parts == [parts[0]] + parts[1..];
      } else {
        IPv4HasNoComma(parts[0]);
      }
    }
  }

  lemma IPv4HasNoComma(s: string)
    requires IsIPv4(s)
    ensures ',' !in s
  {
    if ',' in s {
      SplitKeeps(s, '.', ',');
    }
  }

  lemma SideHasNoComma(s: string, dotted: bool)
    requires SideUnits(s, dotted).Some?
    ensures ',' !in s
  {
    if ',' in s {
      UnitsHaveNoComma(Split(s, ':'), dotted);
      SplitKeeps(s, ':', ',');
    }
  }

  lemma IPv6HasNoComma(s: string)
    requires IsIPv6(s)
    ensures ',' !in s
  {
    match FindEllipsis(s)
    case None => SideHasNoComma(s, true);
    case Some(k) =>
      SideHasNoComma(s[..k], false);
      SideHasNoComma(s[k + 2..], true);
      assert s == s[..k] + [':', ':'] + s[k + 2..];
  }

  lemma CidrHasNoComma(s: string)
    requires IsCidr(s)
    ensures ',' !in s
  {
    var parts := Split(s, '/');
    if IsIPv4(parts[0]) {
      IPv4HasNoComma(parts[0]);
    } else {
      IPv6HasNoComma(parts[0]);
    }
    if ',' in s {
      SplitKeeps(s, '/', ',');
    }
  }
}
