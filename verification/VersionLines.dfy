/**
 The regular expressions of hack/bump-k8s.py as explicit matchers. Where a pattern can match in one
 way only, the matcher takes maximal runs of characters; the lemmas show that is the only way.
 */
module VersionLines {
  import opened Text
  import opened Wrappers

  /** Python's `\s`. */
  predicate IsBlank(c: char) {
    IsSpace(c) || '\U{1C}' <= c <= '\U{1F}'
  }

  /** `[\w-]`, over ASCII. */
  predicate IsNameChar(c: char) {
    IsDigit(c) || 'a' <= c <= 'z' || 'A' <= c <= 'Z' || c == '_' || c == '-'
  }

  /** The length of the longest prefix of characters satisfying `p`. */
  function Span(p: char -> bool, s: string): (n: nat)
    ensures n <= |s|
    ensures forall i :: 0 <= i < n ==> p(s[i])
    ensures n < |s| ==> !p(s[n])
  {
    if s == "" || !p(s[0]) then 0 else 1 + Span(p, s[1..])
  }

  predicate Consists(p: char -> bool, s: string) {
    s != "" && forall i :: 0 <= i < |s| ==> p(s[i])
  }

  predicate Stops(p: char -> bool, s: string) {
    s == "" || !p(s[0])
  }

  lemma {:induction false} SpanOf(p: char -> bool, a: string, b: string)
    requires forall i :: 0 <= i < |a| ==> p(a[i])
    requires Stops(p, b)
    ensures Span(p, a + b) == |a|
    ensures (a + b)[..|a|] == a && (a + b)[|a|..] == b
  {
  }

  predicate StartsWith(s: string, prefix: string) {
    prefix <= s
  }

  // ---- \d+\.\d+ and \d+\.\d+\.\d+ ----

  /** A run of digits and what follows it. */
  function Digits(s: string): Option<(string, string)> {
    var n := Span(IsDigit, s);
    if n == 0 then None else Some((s[..n], s[n..]))
  }

  /** `\d+\.\d+`: the text matched and the rest. */
  function TwoPart(s: string): Option<(string, string)> {
    match Digits(s)
    case None => None
    case Some((a, rest)) =>
      if rest == "" || rest[0] != '.' then None
      else match Digits(rest[1..])
        case None => None
        case Some((b, tail)) => Some((a + "." + b, tail))
  }

  /** `\d+\.\d+\.\d+`. */
  function ThreePart(s: string): Option<(string, string)> {
    match TwoPart(s)
    case None => None
    case Some((ab, rest)) =>
      if rest == "" || rest[0] != '.' then None
      else match Digits(rest[1..])
        case None => None
        case Some((c, tail)) => Some((ab + "." + c, tail))
  }

  /** A version that matches the pattern from end to end. */
  ghost predicate IsTwoPart(v: string) {
    exists a, b :: Consists(IsDigit, a) && Consists(IsDigit, b) && v == a + "." + b
  }

  ghost predicate IsThreePart(v: string) {
    exists ab, c :: IsTwoPart(ab) && Consists(IsDigit, c) && v == ab + "." + c
  }

  lemma DigitsOf(a: string, rest: string)
    requires Consists(IsDigit, a) && Stops(IsDigit, rest)
    ensures Digits(a + rest) == Some((a, rest))
  {
    SpanOf(IsDigit, a, rest);
  }

  lemma TwoPartOf(v: string, rest: string)
    requires IsTwoPart(v) && Stops(IsDigit, rest)
    ensures TwoPart(v + rest) == Some((v, rest))
    ensures v != "" && IsDigit(v[0]) && IsDigit(v[|v| - 1])
    ensures forall i :: 0 <= i < |v| ==> IsDigit(v[i]) || v[i] == '.'
  {
    var a, b :| Consists(IsDigit, a) && Consists(IsDigit, b) && v == a + "." + b;
    assert v + rest == a + ("." + (b + rest));
    DigitsOf(a, "." + (b + rest));
    DigitsOf(b, rest);
    assert ("." + (b + rest))[1..] == b + rest;
  }

  lemma ThreePartOf(v: string, rest: string)
    requires IsThreePart(v) && Stops(IsDigit, rest)
    ensures ThreePart(v + rest) == Some((v, rest))
    ensures v != ""
  {
    var ab, c :| IsTwoPart(ab) && Consists(IsDigit, c) && v == ab + "." + c;
    assert v + rest == ab + ("." + (c + rest));
    TwoPartOf(ab, "." + (c + rest));
    DigitsOf(c, rest);
    assert ("." + (c + rest))[1..] == c + rest;
  }

  lemma DigitsSound(s: string)
    requires Digits(s).Some?
    ensures Consists(IsDigit, Digits(s).value.0) && Stops(IsDigit, Digits(s).value.1)
    ensures s == Digits(s).value.0 + Digits(s).value.1
  {
  }

  lemma TwoPartSound(s: string)
    requires TwoPart(s).Some?
    ensures IsTwoPart(TwoPart(s).value.0) && s == TwoPart(s).value.0 + TwoPart(s).value.1
    ensures Stops(IsDigit, TwoPart(s).value.1)
  {
    hide Digits;
    var (a, rest) := Digits(s).value;
    var (b, tail) := Digits(rest[1..]).value;
    DigitsSound(s);
    DigitsSound(rest[1..]);
    TwoPartText(s, a, rest, b, tail);
  }

  lemma TwoPartText(s: string, a: string, rest: string, b: string, tail: string)
    requires s == a + rest && rest != "" && rest[0] == '.' && rest[1..] == b + tail
    ensures s == (a + "." + b) + tail
  {
  }

  // ---- go and toolchain lines ----

  /** `^go\s+(\d+\.\d+(?:\.\d+)?)`: the version captured. */
  function GoVersion(line: string): Option<string> {
    if !StartsWith(line, "go") then None
    else
      var n := Span(IsBlank, line[2..]);
      if n == 0 then None
      else
        var s := line[2..][n..];
        match ThreePart(s)
        case Some((v, _)) => Some(v)
        case None =>
          match TwoPart(s)
          case Some((v, _)) => Some(v)
          case None => None
  }

  /** `^toolchain\sgo(\d+\.\d+\.\d+)`. */
  function ToolchainVersion(line: string): Option<string> {
    if |line| < 12 || !StartsWith(line, "toolchain") || !IsBlank(line[9])
      || line[10] != 'g' || line[11] != 'o' then None
    else
      match ThreePart(line[12..])
      case Some((v, _)) => Some(v)
      case None => None
  }

  function GoLine(v: string): string { "go " + v + "\n" }

  function ToolchainLine(v: string): string { "toolchain go" + v + "\n" }

  /** The lines the script writes, and that they are read back as the versions they were written for. */
  lemma WrittenLines(v: string)
    requires IsThreePart(v)
    ensures GoVersion(GoLine(v)) == Some(v) && ToolchainVersion(GoLine(v)) == None
    ensures ToolchainVersion(ToolchainLine(v)) == Some(v) && GoVersion(ToolchainLine(v)) == None
    ensures GoLine(v) == "go " + v + "\n" && ToolchainLine(v) == "toolchain go" + v + "\n"
  {
    GoLineRead(v);
    ToolchainLineRead(v);
    assert GoLine(v)[0] == 'g' && ToolchainLine(v)[0] == 't';
    hide ThreePart;
    hide TwoPart;
  }

  lemma GoLineRead(v: string)
    requires IsThreePart(v)
    ensures GoVersion(GoLine(v)) == Some(v)
  {
    var line := GoLine(v);
    assert line[..2] == "go" && line[2..] == " " + (v + "\n");
    assert Span(IsBlank, line[2..]) == 1 && line[2..][1..] == v + "\n" by {
      FirstDigit(v);
      SpanOf(IsBlank, " ", v + "\n");
    }
    assert ThreePart(v + "\n") == Some((v, "\n")) by {
      ThreePartOf(v, "\n");
    }
    hide ThreePart;
    hide TwoPart;
    hide Span;
  }

  lemma ToolchainLineRead(v: string)
    requires IsThreePart(v)
    ensures ToolchainVersion(ToolchainLine(v)) == Some(v)
  {
    hide ThreePart;
    hide IsThreePart;
    ThreePartOf(v, "\n");
    ToolchainLineText(v);
    hide ToolchainLine;
  }

  lemma ToolchainLineText(v: string)
    ensures
      var line := ToolchainLine(v);
      |line| >= 12 && "toolchain" <= line && line[9] == ' ' && line[10] == 'g' && line[11] == 'o'
      && line[12..] == v + "\n"
  {
  }

  lemma FirstDigit(v: string)
    requires IsThreePart(v)
    ensures v != "" && IsDigit(v[0])
  {
  }

  // ---- k8s.io component lines ----

  /**
   The parts of a line matching `^(\s+)k8s.io/([\w-]+) v(\d+)\.(\d+\.\d+)($| .+$)`. The unescaped dot
   after "k8s" stands for any character, `sep`; `newline` says whether the line ends in one.
   */
  datatype K8sLine = K8sLine(
    indent: string, sep: char, component: string, major: string, version: string, trailer: string, newline: bool)

  predicate TrailerOk(t: string) {
    t == "" || (|t| >= 2 && t[0] == ' ' && '\n' !in t)
  }

  ghost predicate WellFormed(l: K8sLine) {
    && Consists(IsBlank, l.indent) && l.sep != '\n' && Consists(IsNameChar, l.component)
    && Consists(IsDigit, l.major) && IsTwoPart(l.version) && TrailerOk(l.trailer)
  }

  function Ending(l: K8sLine): string {
    l.trailer + (if l.newline then "\n" else "")
  }

  /** Everything from the component on. */
  function AfterSlash(l: K8sLine): string {
    l.component + (" v" + (l.major + ("." + (l.version + Ending(l)))))
  }

  function Render(l: K8sLine): string {
    l.indent + ("k8s" + [l.sep] + "io/" + AfterSlash(l))
  }

  /** `($| .+$)`, where `$` also matches before a final newline. */
  function MatchEnding(s: string): Option<(string, bool)> {
    var newline := s != "" && s[|s| - 1] == '\n';
    var trailer := if newline then s[..|s| - 1] else s;
    if TrailerOk(trailer) then Some((trailer, newline)) else None
  }

  /** ` v(\d+)\.(\d+\.\d+)($| .+$)`: major, version, trailer and newline. */
  function MatchVersion(t: string): Option<(string, string, string, bool)> {
    if !StartsWith(t, " v") then None
    else match Digits(t[2..])
      case None => None
      case Some((major, u)) =>
        if u == "" || u[0] != '.' then None
        else match TwoPart(u[1..])
          case None => None
          case Some((version, e)) =>
            match MatchEnding(e)
            case None => None
            case Some((trailer, newline)) => Some((major, version, trailer, newline))
  }

  /** The component name and what follows, after "k8s.io/". */
  function MatchName(indent: string, sep: char, tail: string): Option<K8sLine> {
    var m := Span(IsNameChar, tail);
    if m == 0 then None
    else match MatchVersion(tail[m..])
      case None => None
      case Some((major, version, trailer, newline)) =>
        Some(K8sLine(indent, sep, tail[..m], major, version, trailer, newline))
  }

  /** The pattern after the indentation. */
  function MatchComponent(indent: string, s: string): Option<K8sLine> {
    if |s| < 7 || s[..3] != "k8s" || s[3] == '\n' || s[4..7] != "io/" then None
    else MatchName(indent, s[3], s[7..])
  }

  function MatchK8s(line: string): Option<K8sLine> {
    var n := Span(IsBlank, line);
    if n == 0 then None else MatchComponent(line[..n], line[n..])
  }

  lemma MatchEndingOf(l: K8sLine)
    requires TrailerOk(l.trailer)
    ensures MatchEnding(Ending(l)) == Some((l.trailer, l.newline))
    ensures Stops(IsDigit, Ending(l))
  {
    if l.newline {
      assert Ending(l)[..|Ending(l)| - 1] == l.trailer;
    } else {
      assert Ending(l) == l.trailer;
      if l.trailer != "" {
        assert l.trailer[|l.trailer| - 1] in l.trailer;
      }
    }
  }

  function VersionText(l: K8sLine): string {
    " v" + (l.major + ("." + (l.version + Ending(l))))
  }

  /** The version text read piece by piece, whatever comes after the version. */
  lemma VersionPieces(l: K8sLine)
    requires Consists(IsDigit, l.major) && IsTwoPart(l.version) && Stops(IsDigit, Ending(l))
    ensures
      var u := "." + (l.version + Ending(l));
      && Digits(VersionText(l)[2..]) == Some((l.major, u))
      && TwoPart(u[1..]) == Some((l.version, Ending(l)))
    ensures StartsWith(VersionText(l), " v")
  {
    hide Ending;
    hide TwoPart;
    hide Digits;
    var u := "." + (l.version + Ending(l));
    TwoPartOf(l.version, Ending(l));
    DigitsOf(l.major, u);
    hide IsTwoPart;
    assert u[1..] == l.version + Ending(l);
    assert VersionText(l)[..2] == " v" && VersionText(l)[2..] == l.major + u;
  }

  lemma MatchVersionOf(l: K8sLine)
    requires WellFormed(l)
    ensures MatchVersion(VersionText(l)) == Some((l.major, l.version, l.trailer, l.newline))
  {
    hide VersionText;
    hide TwoPart;
    hide Digits;
    hide IsTwoPart;
    MatchEndingOf(l);
    VersionPieces(l);
    hide Ending;
    hide MatchEnding;
  }

  lemma MatchVersionSound(t: string, l: K8sLine)
    requires MatchVersion(t) == Some((l.major, l.version, l.trailer, l.newline))
    ensures Consists(IsDigit, l.major) && IsTwoPart(l.version) && TrailerOk(l.trailer) && t == VersionText(l)
  {
    var u := Digits(t[2..]).value.1;
    var e := TwoPart(u[1..]).value.1;
    DigitsSound(t[2..]);
    TwoPartSound(u[1..]);
    MatchEndingSound(e, l);
    hide Digits;
    hide TwoPart;
    hide IsTwoPart;
    hide MatchEnding;
    hide Ending;
    Prefixed(u, ".");
    Prefixed(t, " v");
  }

  lemma MatchEndingSound(e: string, l: K8sLine)
    requires MatchEnding(e) == Some((l.trailer, l.newline))
    ensures TrailerOk(l.trailer) && e == Ending(l)
  {
  }

  lemma Prefixed(s: string, p: string)
    requires p <= s
    ensures s == p + s[|p|..]
  {
  }

  function ComponentText(l: K8sLine): string {
    "k8s" + [l.sep] + "io/" + AfterSlash(l)
  }

  lemma RenderIs(l: K8sLine)
    ensures Render(l) == l.indent + ComponentText(l)
    ensures AfterSlash(l) == l.component + VersionText(l)
  {
  }

  lemma MatchNameOf(l: K8sLine)
    requires WellFormed(l)
    ensures MatchName(l.indent, l.sep, AfterSlash(l)) == Some(l)
  {
    var t := VersionText(l);
    RenderIs(l);
    assert Stops(IsNameChar, t);
    MatchVersionOf(l);
    hide VersionText;
    hide AfterSlash;
    hide MatchVersion;
    hide IsTwoPart;
    SpanOf(IsNameChar, l.component, t);
  }

  lemma MatchNameSound(indent: string, sep: char, tail: string)
    requires MatchName(indent, sep, tail).Some?
    requires Consists(IsBlank, indent) && sep != '\n'
    ensures
      var l := MatchName(indent, sep, tail).value;
      WellFormed(l) && l.indent == indent && l.sep == sep && tail == AfterSlash(l)
  {
    hide VersionText;
    hide AfterSlash;
    hide IsTwoPart;
    hide MatchVersion;
    hide Span;
    hide TrailerOk;
    var l := MatchName(indent, sep, tail).value;
    var m := Span(IsNameChar, tail);
    MatchVersionSound(tail[m..], l);
    RenderIs(l);
    hide Render;
    assert l.component == tail[..m];
    Halves(tail, m);
  }

  lemma Halves(s: string, m: nat)
    requires m <= |s|
    ensures s == s[..m] + s[m..]
  {
  }

  /** A line made of well-formed parts is matched, with those parts and no others. */
  lemma MatchK8sOf(l: K8sLine)
    requires WellFormed(l)
    ensures MatchK8s(Render(l)) == Some(l)
  {
    hide IsTwoPart;
    hide AfterSlash;
    hide MatchName;
    var s := ComponentText(l);
    assert s[..3] == "k8s" && s[3] == l.sep && s[4..7] == "io/" && s[7..] == AfterSlash(l);
    MatchNameOf(l);
    assert MatchComponent(l.indent, s) == Some(l) && Stops(IsBlank, s);
    RenderIs(l);
    hide ComponentText;
    hide MatchComponent;
    hide Render;
    SpanOf(IsBlank, l.indent, s);
  }

  /** And a line that is matched is made of the parts reported. */
  lemma MatchK8sSound(line: string)
    requires MatchK8s(line).Some?
    ensures WellFormed(MatchK8s(line).value) && Render(MatchK8s(line).value) == line
  {
    hide MatchName;
    hide WellFormed;
    hide AfterSlash;
    var n := Span(IsBlank, line);
    var s := line[n..];
    var l := MatchK8s(line).value;
    MatchNameSound(line[..n], s[3], s[7..]);
    SevenAndRest(s);
    RenderIs(l);
    hide Render;
    assert line == line[..n] + s;
  }

  lemma SevenAndRest(s: string)
    requires |s| >= 7 && s[..3] == "k8s" && s[4..7] == "io/"
    ensures s == "k8s" + [s[3]] + "io/" + s[7..]
  {
  }
}
