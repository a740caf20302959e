/** What the readers of hack/bump-k8s.py find, by the form of the lines. */
module Readers {
  import opened GoMod
  import opened Text
  import opened VersionLines
  import opened Wrappers

  /** The classes of characters the patterns use, in ASCII, by code point. */
  lemma PatternClasses(c: char)
    ensures IsDigit(c) <==> 48 <= c as int <= 57
    ensures IsNameChar(c) <==>
      IsDigit(c) || 65 <= c as int <= 90 || 97 <= c as int <= 122 || c as int == 95 || c as int == 45
    ensures c as int < 128 ==> (IsBlank(c) <==> c as int == 32 || 9 <= c as int <= 13 || 28 <= c as int <= 31)
  {
  }

  // ---- One line ----

  /** A version and what follows it: three numbers, or two not followed by a dot and a digit. */
  ghost predicate VersionEnds(v: string, rest: string) {
    && Stops(IsDigit, rest)
    && (IsThreePart(v) || (IsTwoPart(v) && !(|rest| >= 2 && rest[0] == '.' && IsDigit(rest[1]))))
  }

  /** `^go\s+(\d+\.\d+(?:\.\d+)?)`. */
  ghost predicate GoParts(line: string, blanks: string, v: string, rest: string) {
    line == "go" + (blanks + (v + rest)) && Consists(IsBlank, blanks) && VersionEnds(v, rest)
  }

  /** `^toolchain\sgo(\d+\.\d+\.\d+)`. */
  ghost predicate ToolchainParts(line: string, blank: char, v: string, rest: string) {
    line == "toolchain" + ([blank] + ("go" + (v + rest))) && IsBlank(blank) && IsThreePart(v) && Stops(IsDigit, rest)
  }

  lemma ThreePartSound(s: string)
    requires ThreePart(s).Some?
    ensures IsThreePart(ThreePart(s).value.0) && s == ThreePart(s).value.0 + ThreePart(s).value.1
    ensures Stops(IsDigit, ThreePart(s).value.1)
  {
    TwoPartSound(s);
    hide TwoPart;
    var (ab, rest) := TwoPart(s).value;
    DigitsSound(rest[1..]);
    hide Digits;
    hide IsTwoPart;
    var (c, tail) := Digits(rest[1..]).value;
    TwoPartText(s, ab, rest, c, tail);
  }

  lemma OnlyTwoParts(v: string, rest: string)
    requires IsTwoPart(v) && Stops(IsDigit, rest) && !(|rest| >= 2 && rest[0] == '.' && IsDigit(rest[1]))
    ensures ThreePart(v + rest).None? && TwoPart(v + rest) == Some((v, rest))
  {
    TwoPartOf(v, rest);
    hide TwoPart;
    if rest != "" && rest[0] == '.' {
      assert Span(IsDigit, rest[1..]) == 0;
    }
  }

  /** The version at the start of a text and what follows it, three numbers before two. */
  function EitherPart(s: string): Option<(string, string)> {
    if ThreePart(s).Some? then ThreePart(s) else TwoPart(s)
  }

  lemma EitherPartMeaning(s: string, v: string, rest: string)
    ensures EitherPart(s) == Some((v, rest)) <==> s == v + rest && VersionEnds(v, rest)
  {
    if EitherPart(s) == Some((v, rest)) {
      EitherPartSound(s, v, rest);
    }
    if s == v + rest && VersionEnds(v, rest) {
      if IsThreePart(v) {
        ThreePartOf(v, rest);
      } else {
        OnlyTwoParts(v, rest);
      }
    }
    hide EitherPart;
  }

  lemma EitherPartSound(s: string, v: string, rest: string)
    requires EitherPart(s) == Some((v, rest))
    ensures s == v + rest && VersionEnds(v, rest)
  {
    if ThreePart(s).Some? {
      ThreePartSound(s);
    } else {
      TwoPartSound(s);
      assert |rest| >= 2 && IsDigit(rest[1]) ==> Span(IsDigit, rest[1..]) > 0;
    }
    hide IsThreePart;
    hide IsTwoPart;
  }

  lemma VersionStarts(v: string, rest: string)
    requires VersionEnds(v, rest)
    ensures v != "" && IsDigit(v[0])
  {
    if IsThreePart(v) {
      FirstDigit(v);
    } else {
      TwoPartOf(v, "");
    }
  }

  lemma GoVersionIs(line: string, blanks: string, s: string)
    requires line == "go" + (blanks + s) && Consists(IsBlank, blanks) && Stops(IsBlank, s)
    ensures GoVersion(line) == match EitherPart(s) case Some((v, _)) => Some(v) case None => None
  {
    assert line[..2] == "go" && line[2..] == blanks + s;
    SpanOf(IsBlank, blanks, s);
    hide ThreePart;
    hide TwoPart;
    hide Span;
  }

  lemma GoLineParts(line: string) returns (blanks: string, s: string)
    requires GoVersion(line).Some?
    ensures line == "go" + (blanks + s) && Consists(IsBlank, blanks) && Stops(IsBlank, s)
  {
    hide ThreePart;
    hide TwoPart;
    var n := Span(IsBlank, line[2..]);
    blanks, s := line[2..][..n], line[2..][n..];
    assert line == line[..2] + line[2..];
    assert line[2..] == blanks + s;
  }

  /** A go line is read as the version it has, whole, and no other line as any. */
  lemma GoVersionMeaning(line: string, v: string)
    ensures GoVersion(line) == Some(v) <==> exists blanks, rest :: GoParts(line, blanks, v, rest)
  {
    if GoVersion(line) == Some(v) {
      GoVersionSound(line, v);
    }
    if blanks, rest :| GoParts(line, blanks, v, rest) {
      GoVersionComplete(line, blanks, v, rest);
    }
    hide GoVersion;
    hide VersionEnds;
  }

  lemma GoVersionComplete(line: string, blanks: string, v: string, rest: string)
    requires GoParts(line, blanks, v, rest)
    ensures GoVersion(line) == Some(v)
  {
    hide EitherPart;
    hide VersionEnds;
    hide GoVersion;
    EitherPartMeaning(v + rest, v, rest);
    VersionStarts(v, rest);
    GoVersionIs(line, blanks, v + rest);
  }

  lemma GoVersionSound(line: string, v: string)
    requires GoVersion(line) == Some(v)
    ensures exists blanks, rest :: GoParts(line, blanks, v, rest)
  {
    var blanks, s := GoLineParts(line);
    hide EitherPart;
    hide GoVersion;
    hide VersionEnds;
    GoVersionIs(line, blanks, s);
    var rest := EitherPart(s).value.1;
    EitherPartMeaning(s, v, rest);
    assert GoParts(line, blanks, v, rest);
  }

  lemma ToolchainVersionIs(line: string, blank: char, s: string)
    requires line == "toolchain" + ([blank] + ("go" + s)) && IsBlank(blank) && s != ""
    ensures ToolchainVersion(line) == match ThreePart(s) case Some((v, _)) => Some(v) case None => None
  {
    hide ThreePart;
    hide IsBlank;
    assert line[..9] == "toolchain" && line[9] == blank && line[10] == 'g' && line[11] == 'o' && line[12..] == s;
  }

  lemma ToolchainLineParts(line: string) returns (blank: char, s: string)
    requires ToolchainVersion(line).Some?
    ensures line == "toolchain" + ([blank] + ("go" + s)) && IsBlank(blank) && ThreePart(s).Some?
  {
    hide ThreePart;
    hide IsBlank;
    blank, s := line[9], line[12..];
    assert line == line[..9] + ([line[9]] + ([line[10], line[11]] + line[12..]));
    assert line[..9] == "toolchain" && [line[10], line[11]] == "go";
  }

  /** The same of a toolchain line. */
  lemma ToolchainVersionMeaning(line: string, v: string)
    ensures ToolchainVersion(line) == Some(v) <==> exists blank, rest :: ToolchainParts(line, blank, v, rest)
  {
    if ToolchainVersion(line) == Some(v) {
      var blank, s := ToolchainLineParts(line);
      ThreePartSound(s);
      assert s != "" by {
        assert ThreePart("").None?;
      }
      ToolchainVersionIs(line, blank, s);
      hide ToolchainVersion;
      hide IsThreePart;
      assert ToolchainParts(line, blank, v, ThreePart(s).value.1);
    }
    if blank, rest :| ToolchainParts(line, blank, v, rest) {
      ThreePartOf(v, rest);
      hide IsThreePart;
      ToolchainVersionIs(line, blank, v + rest);
      hide ToolchainVersion;
    }
  }

  /** `k8s.io/<name> v(\d+)\.(\d+\.\d+)` at the start of the text, the first dot standing for any character. */
  ghost predicate NamesAt(name: string, s: string, c: char, major: string, v: string, rest: string) {
    && s == "k8s" + [c] + "io/" + (name + " v" + (major + ("." + (v + rest))))
    && c != '\n' && Consists(IsDigit, major) && IsTwoPart(v) && Stops(IsDigit, rest)
  }

  lemma VersionAfterNameSound(name: string, t: string, v: string) returns (major: string, rest: string)
    requires VersionAfterName(name, t) == Some(v)
    ensures t == name + " v" + (major + ("." + (v + rest)))
    ensures Consists(IsDigit, major) && IsTwoPart(v) && Stops(IsDigit, rest)
  {
    hide Digits;
    hide TwoPart;
    hide IsTwoPart;
    var n := |name| + 2;
    major := Digits(t[n..]).value.0;
    var u := Digits(t[n..]).value.1;
    rest := TwoPart(u[1..]).value.1;
    DigitsSound(t[n..]);
    TwoPartSound(u[1..]);
    Prefixed(t, name + " v");
    Prefixed(u, ".");
  }

  lemma VersionAfterNameComplete(name: string, major: string, v: string, rest: string)
    requires Consists(IsDigit, major) && IsTwoPart(v) && Stops(IsDigit, rest)
    ensures VersionAfterName(name, name + " v" + (major + ("." + (v + rest)))) == Some(v)
  {
    var u := "." + (v + rest);
    var t := name + " v" + (major + u);
    DigitsOf(major, u);
    TwoPartOf(v, rest);
    hide Digits;
    hide TwoPart;
    hide IsTwoPart;
    assert t[|name| + 2..] == major + u && u[1..] == v + rest;
    assert name + " v" <= t;
  }

  lemma VersionAtMeaning(name: string, s: string, v: string)
    ensures VersionAt(name, s) == Some(v) <==> exists c, major, rest :: NamesAt(name, s, c, major, v, rest)
  {
    hide VersionAfterName;
    hide IsTwoPart;
    if VersionAt(name, s) == Some(v) {
      var major, rest := VersionAfterNameSound(name, s[7..], v);
      SevenAndRest(s);
      assert NamesAt(name, s, s[3], major, v, rest);
    }
    if c, major, rest :| NamesAt(name, s, c, major, v, rest) {
      var t := name + " v" + (major + ("." + (v + rest)));
      VersionAfterNameComplete(name, major, v, rest);
      assert s[..3] == "k8s" && s[3] == c && s[4..7] == "io/" && s[7..] == t;
    }
  }

  /** The leftmost place where the pattern matches. */
  predicate FirstAt(name: string, line: string, i: int) {
    && 0 <= i <= |line| && VersionAt(name, line[i..]).Some?
    && forall j :: 0 <= j < i ==> VersionAt(name, line[j..]).None?
  }

  /** A search finds the leftmost place where the pattern matches, or none when there is none. */
  lemma {:induction false} SearchMeaning(name: string, line: string)
    ensures Search(name, line).None? <==> forall i :: 0 <= i <= |line| ==> VersionAt(name, line[i..]).None?
    ensures Search(name, line).Some? ==>
      exists i :: FirstAt(name, line, i) && VersionAt(name, line[i..]) == Search(name, line)
  {
    hide VersionAt;
    assert line[0..] == line;
    if VersionAt(name, line).Some? {
      assert FirstAt(name, line, 0);
    } else if line != "" {
      var tail := line[1..];
      SearchMeaning(name, tail);
      assert forall i :: 0 <= i <= |tail| ==> tail[i..] == line[i + 1..];
      if Search(name, tail).Some? {
        var i :| FirstAt(name, tail, i) && VersionAt(name, tail[i..]) == Search(name, tail);
        forall j | 0 <= j < i + 1 ensures VersionAt(name, line[j..]).None? {
          if j > 0 {
            assert line[j..] == tail[j - 1..];
          }
        }
        assert FirstAt(name, line, i + 1);
      } else {
        forall i | 0 <= i <= |line| ensures VersionAt(name, line[i..]).None? {
          if i > 0 {
            assert line[i..] == tail[i - 1..];
          }
        }
      }
    }
  }

  /** `($| .+$)`: nothing, or a blank and at least one more character, all on the line. */
  lemma TrailerMeaning(t: string)
    ensures TrailerOk(t) <==> t == "" || exists c, rest :: t == " " + [c] + rest && c != '\n' && '\n' !in rest
  {
    if TrailerOk(t) && t != "" {
      assert t == " " + [t[1]] + t[2..];
    }
  }

  // ---- The list ----

  predicate NamesModule(name: string, line: string) {
    Search(name, line).Some?
  }

  /** The first line that names the module. */
  predicate FirstNaming(name: string, lines: seq<string>, i: int) {
    0 <= i < |lines| && NamesModule(name, lines[i]) && forall j :: 0 <= j < i ==> !NamesModule(name, lines[j])
  }

  /** The last line that does. */
  predicate LastNaming(name: string, lines: seq<string>, i: int) {
    0 <= i < |lines| && NamesModule(name, lines[i]) && forall j :: i < j < |lines| ==> !NamesModule(name, lines[j])
  }

  predicate NoneNaming(name: string, lines: seq<string>) {
    forall i :: 0 <= i < |lines| ==> !NamesModule(name, lines[i])
  }

  /** One turn of the loop; `k` and `a` stand for the two names. */
  lemma GetK8sOne(lines: seq<string>, api: string, k: string, a: string)
    requires lines != [] && k == Kubernetes && a == K8sApi
    ensures NamesModule(k, lines[0]) ==> Some(GetK8sVersion(lines, api)) == Search(k, lines[0])
    ensures !NamesModule(k, lines[0]) ==>
      GetK8sVersion(lines, api)
      == GetK8sVersion(lines[1..], if NamesModule(a, lines[0]) then Search(a, lines[0]).value else api)
  {
    hide Search;
  }

  /** The kubernetes line wins, the first of them; failing any, the last api line; failing that, what was there. */
  lemma GetK8sMeaning(lines: seq<string>, api: string, i: int)
    ensures FirstNaming("kubernetes", lines, i) ==> Some(GetK8sVersion(lines, api)) == Search("kubernetes", lines[i])
    ensures NoneNaming("kubernetes", lines) && LastNaming("api", lines, i) ==>
      Some(GetK8sVersion(lines, api)) == Search("api", lines[i])
    ensures NoneNaming("kubernetes", lines) && NoneNaming("api", lines) ==> GetK8sVersion(lines, api) == api
  {
    GetK8sFrom(lines, api, i, "kubernetes", "api");
  }

  lemma {:induction false} GetK8sFrom(lines: seq<string>, api: string, i: int, k: string, a: string)
    requires k == Kubernetes && a == K8sApi
    ensures FirstNaming(k, lines, i) ==> Some(GetK8sVersion(lines, api)) == Search(k, lines[i])
    ensures NoneNaming(k, lines) && LastNaming(a, lines, i) ==> Some(GetK8sVersion(lines, api)) == Search(a, lines[i])
    ensures NoneNaming(k, lines) && NoneNaming(a, lines) ==> GetK8sVersion(lines, api) == api
    decreases |lines|
  {
    hide Search;
    if lines != [] {
      var first, tail := lines[0], lines[1..];
      GetK8sOne(lines, api, k, a);
      NamingTail(k, lines, i);
      NamingTail(a, lines, i);
      hide GetK8sVersion;
      hide NamesModule;
      hide FirstNaming;
      hide LastNaming;
      hide NoneNaming;
      if !NamesModule(k, first) {
        GetK8sFrom(tail, if NamesModule(a, first) then Search(a, first).value else api, i - 1, k, a);
      }
    }
  }

  lemma NamingTail(name: string, lines: seq<string>, i: int)
    requires lines != []
    ensures FirstNaming(name, lines, i) ==>
      0 <= i < |lines| && if i == 0 then NamesModule(name, lines[0]) else
        !NamesModule(name, lines[0]) && FirstNaming(name, lines[1..], i - 1) && lines[1..][i - 1] == lines[i]
    ensures LastNaming(name, lines, i) ==>
      0 <= i < |lines| && if i == 0 then NamesModule(name, lines[0]) && NoneNaming(name, lines[1..]) else
        LastNaming(name, lines[1..], i - 1) && lines[1..][i - 1] == lines[i]
    ensures NoneNaming(name, lines) ==> !NamesModule(name, lines[0]) && NoneNaming(name, lines[1..])
  {
    hide NamesModule;
    assert forall j :: 0 <= j < |lines| - 1 ==> lines[1..][j] == lines[j + 1];
  }

  /** The version of the last go line; empty without one. */
  function LastGo(lines: seq<string>): string {
    if lines == [] then ""
    else if IsGo(lines[|lines| - 1]) then GoVersion(lines[|lines| - 1]).value
    else LastGo(lines[..|lines| - 1])
  }

  /** The version of the last toolchain line; empty without one. */
  function LastToolchain(lines: seq<string>): string {
    if lines == [] then ""
    else if IsToolchain(lines[|lines| - 1]) then ToolchainVersion(lines[|lines| - 1]).value
    else LastToolchain(lines[..|lines| - 1])
  }

  lemma VersionsNotEmpty(line: string)
    ensures GoVersion(line) != Some("") && ToolchainVersion(line) != Some("")
  {
    GoVersionMeaning(line, "");
    ToolchainVersionMeaning(line, "");
    if blanks, rest :| GoParts(line, blanks, "", rest) {
      VersionStarts("", rest);
    }
    if blank, rest :| ToolchainParts(line, blank, "", rest) {
      FirstDigit("");
    }
  }

  lemma {:induction false} LastOfKinds(lines: seq<string>)
    ensures HasGo(lines) <==> LastGo(lines) != ""
    ensures HasToolchain(lines) <==> LastToolchain(lines) != ""
  {
    NothingSeen();
    hide HasGo;
    hide HasToolchain;
    hide GoVersion;
    hide ToolchainVersion;
    if lines != [] {
      var front, last := lines[..|lines| - 1], lines[|lines| - 1];
      VersionsNotEmpty(last);
      HasSnoc(front, last);
      assert lines == front + [last];
      LastOfKinds(front);
    }
  }

  lemma NothingSeen()
    ensures !HasGo([]) && !HasToolchain([])
  {
    hide IsGo;
    hide IsToolchain;
  }

  lemma HasSnoc(front: seq<string>, last: string)
    ensures HasGo(front + [last]) <==> HasGo(front) || IsGo(last)
    ensures HasToolchain(front + [last]) <==> HasToolchain(front) || IsToolchain(last)
  {
    hide IsGo;
    hide IsToolchain;
    var all := front + [last];
    assert all[|front|] == last;
    assert forall i :: 0 <= i < |front| ==> all[i] == front[i];
  }

  /** Both kinds were seen. */
  predicate BothSeen(lines: seq<string>) {
    HasGo(lines) && HasToolchain(lines)
  }

  lemma OneMoreRead(lines: seq<string>, n: nat)
    requires n < |lines| && !BothSeen(lines[..n])
    ensures GetGoVersion(lines[n..], LastGo(lines[..n]), LastToolchain(lines[..n]))
      == GetGoVersion(lines[n + 1..], LastGo(lines[..n + 1]), LastToolchain(lines[..n + 1]))
  {
    LastOfKinds(lines[..n]);
    hide HasGo;
    hide HasToolchain;
    hide GoVersion;
    hide ToolchainVersion;
    assert lines[n..][0] == lines[n] && lines[n..][1..] == lines[n + 1..];
    LastSnoc(lines, n);
    hide LastGo;
    hide LastToolchain;
  }

  lemma LastSnoc(lines: seq<string>, n: nat)
    requires n < |lines|
    ensures LastGo(lines[..n + 1]) == if IsGo(lines[n]) then GoVersion(lines[n]).value else LastGo(lines[..n])
    ensures LastToolchain(lines[..n + 1])
      == if IsToolchain(lines[n]) then ToolchainVersion(lines[n]).value else LastToolchain(lines[..n])
  {
    var more := lines[..n + 1];
    assert more[..n] == lines[..n] && more[n] == lines[n];
    hide GoVersion;
    hide ToolchainVersion;
  }

  lemma ReadStops(lines: seq<string>, n: nat)
    requires n <= |lines| && (n == |lines| || BothSeen(lines[..n]))
    ensures GetGoVersion(lines[n..], LastGo(lines[..n]), LastToolchain(lines[..n]))
      == (LastGo(lines[..n]), LastToolchain(lines[..n]))
  {
    LastOfKinds(lines[..n]);
    hide HasGo;
    hide HasToolchain;
    hide LastGo;
    hide LastToolchain;
    hide GoVersion;
    hide ToolchainVersion;
  }

  /**
   Of the first lines, as many as it takes to see both a go and a toolchain line, or all of them, the
   last line of each kind is the one read.
   */
  lemma GetGoMeaning(lines: seq<string>) returns (n: nat)
    ensures n <= |lines| && (n == |lines| || BothSeen(lines[..n]))
    ensures forall k :: 0 <= k < n ==> !BothSeen(lines[..k])
    ensures GetGoVersion(lines, "", "") == (LastGo(lines[..n]), LastToolchain(lines[..n]))
  {
    hide GetGoVersion;
    hide BothSeen;
    assert lines[0..] == lines && lines[..0] == [];
    n := ReadFrom(lines, 0);
  }

  lemma {:induction false} ReadFrom(lines: seq<string>, n: nat) returns (m: nat)
    requires n <= |lines|
    ensures n <= m <= |lines| && (m == |lines| || BothSeen(lines[..m]))
    ensures forall k :: n <= k < m ==> !BothSeen(lines[..k])
    ensures GetGoVersion(lines[n..], LastGo(lines[..n]), LastToolchain(lines[..n]))
      == (LastGo(lines[..m]), LastToolchain(lines[..m]))
    decreases |lines| - n
  {
    hide GetGoVersion;
    hide LastGo;
    hide LastToolchain;
    hide BothSeen;
    if n == |lines| || BothSeen(lines[..n]) {
      m := n;
      ReadStops(lines, n);
    } else {
      OneMoreRead(lines, n);
      m := ReadFrom(lines, n + 1);
    }
  }
}
