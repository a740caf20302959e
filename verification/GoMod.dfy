/** The go.mod editor of hack/bump-k8s.py: it rewrites a list of lines in place. */
module GoMod {
  import opened Text
  import opened VersionLines
  import opened Wrappers

  // ---- set_go_version ----

  predicate IsGo(line: string) { GoVersion(line).Some? }

  predicate IsToolchain(line: string) { GoVersion(line).None? && ToolchainVersion(line).Some? }

  predicate HasGo(lines: seq<string>) { exists i :: 0 <= i < |lines| && IsGo(lines[i]) }

  predicate HasToolchain(lines: seq<string>) { exists i :: 0 <= i < |lines| && IsToolchain(lines[i]) }

  /** The lines as the loop leaves them; it stops once both a go and a toolchain line were seen. */
  function Rewritten(lines: seq<string>, go: string, toolchain: string, goSet: bool,
                     toolchainSet: bool): (r: seq<string>)
    ensures |r| == |lines|
  {
    if lines == [] || (goSet && toolchainSet) then lines
    else if IsGo(lines[0]) then [GoLine(go)] + Rewritten(lines[1..], go, toolchain, true, toolchainSet)
    else if IsToolchain(lines[0]) then [ToolchainLine(toolchain)] + Rewritten(lines[1..], go, toolchain, goSet, true)
    else [lines[0]] + Rewritten(lines[1..], go, toolchain, goSet, toolchainSet)
  }

  /** One past the last go line; 0 when there is none. */
  function AfterLastGo(lines: seq<string>): (n: nat)
    ensures n <= |lines|
  {
    if lines == [] then 0
    else if IsGo(lines[|lines| - 1]) then |lines|
    else AfterLastGo(lines[..|lines| - 1])
  }

  lemma {:induction false} AfterLastGoIs(lines: seq<string>)
    ensures
      var n := AfterLastGo(lines);
      && (n == 0 <==> !HasGo(lines)) && (n > 0 ==> IsGo(lines[n - 1]))
      && forall i :: n <= i < |lines| ==> !IsGo(lines[i])
  {
    hide IsGo;
    if lines != [] && !IsGo(lines[|lines| - 1]) {
      var front := lines[..|lines| - 1];
      AfterLastGoIs(front);
      assert forall i :: 0 <= i < |front| ==> front[i] == lines[i];
    }
  }

  /** The list afterwards, and whether the script goes on (no go line raises an exception). */
  function SetGoVersion(lines: seq<string>, go: string, toolchain: string): (seq<string>, bool) {
    var r := Rewritten(lines, go, toolchain, false, false);
    if !HasGo(lines) then (r, false)
    else if HasToolchain(lines) then (r, true)
    else
      var n := AfterLastGo(lines);
      (r[..n] + [ToolchainLine(toolchain)] + r[n..], true)
  }

  // ---- get_go_version ----

  function GetGoVersion(lines: seq<string>, go: string, toolchain: string): (string, string) {
    if lines == [] || (go != "" && toolchain != "") then (go, toolchain)
    else if IsGo(lines[0]) then GetGoVersion(lines[1..], GoVersion(lines[0]).value, toolchain)
    else if IsToolchain(lines[0]) then GetGoVersion(lines[1..], go, ToolchainVersion(lines[0]).value)
    else GetGoVersion(lines[1..], go, toolchain)
  }

  // ---- set_k8s_version and get_k8s_version ----

  /** What the line becomes when it matches. */
  function Bumped(l: K8sLine, version: string): K8sLine {
    l.(sep := '.', version := version, newline := true)
  }

  function BumpLine(line: string, version: string): string {
    match MatchK8s(line)
    case Some(l) => Render(Bumped(l, version))
    case None => line
  }

  function SetK8sVersion(lines: seq<string>, version: string): seq<string> {
    seq(|lines|, i requires 0 <= i < |lines| => BumpLine(lines[i], version))
  }

  /** `k8s.io/<name> v(\d+)\.(\d+\.\d+)` at the start of `s`: the second group. */
  function VersionAt(name: string, s: string): Option<string> {
    if |s| < 7 || s[..3] != "k8s" || s[3] == '\n' || s[4..7] != "io/" then None
    else VersionAfterName(name, s[7..])
  }

  function VersionAfterName(name: string, s: string): Option<string> {
    if !StartsWith(s, name + " v") then None
    else match Digits(s[|name| + 2..])
      case None => None
      case Some((_, u)) =>
        if u == "" || u[0] != '.' then None
        else match TwoPart(u[1..])
          case None => None
          case Some((version, _)) => Some(version)
  }

  /** `re.search`: the leftmost place in the line where the pattern matches. */
  function Search(name: string, line: string): Option<string> {
    if VersionAt(name, line).Some? then VersionAt(name, line)
    else if line == "" then None
    else Search(name, line[1..])
  }

  const Kubernetes := "kubernetes"
  const K8sApi := "api"

  function GetK8sVersion(lines: seq<string>, api: string): string {
    if lines == [] then api
    else if Search(Kubernetes, lines[0]).Some? then Search(Kubernetes, lines[0]).value
    else if Search(K8sApi, lines[0]).Some? then GetK8sVersion(lines[1..], Search(K8sApi, lines[0]).value)
    else GetK8sVersion(lines[1..], api)
  }

  // ---- The go and toolchain versions ----

  lemma HasCons(x: string, rest: seq<string>)
    ensures HasGo([x] + rest) <==> IsGo(x) || HasGo(rest)
    ensures HasToolchain([x] + rest) <==> IsToolchain(x) || HasToolchain(rest)
  {
    hide IsGo;
    hide IsToolchain;
    var all := [x] + rest;
    assert all[0] == x;
    assert forall i :: 0 <= i < |rest| ==> all[i + 1] == rest[i];
    assert forall i :: 1 <= i < |all| ==> all[i] == rest[i - 1];
  }

  /** One turn of the loop that has not stopped yet. */
  lemma RewrittenCons(line: string, rest: seq<string>, go: string, toolchain: string, goSet: bool, toolchainSet: bool)
    requires !(goSet && toolchainSet)
    ensures
      var g, t := IsGo(line), IsToolchain(line);
      Rewritten([line] + rest, go, toolchain, goSet, toolchainSet)
      == [if g then GoLine(go) else if t then ToolchainLine(toolchain) else line]
         + Rewritten(rest, go, toolchain, goSet || g, toolchainSet || t)
  {
  }

  lemma Associative<T>(x: seq<T>, y: seq<T>, z: seq<T>)
    ensures (x + y) + z == x + (y + z)
  {
  }

  lemma {:induction false} RewrittenAppend(a: seq<string>, b: seq<string>, go: string, toolchain: string, goSet: bool,
                                           toolchainSet: bool)
    ensures Rewritten(a + b, go, toolchain, goSet, toolchainSet)
      == Rewritten(a, go, toolchain, goSet, toolchainSet)
         + Rewritten(b, go, toolchain, goSet || HasGo(a), toolchainSet || HasToolchain(a))
  {
    if a == [] {
      assert a + b == b;
    } else if !(goSet && toolchainSet) {
      var line, rest := a[0], a[1..];
      assert a == [line] + rest;
      Associative([line], rest, b);
      HasCons(line, rest);
      RewrittenCons(line, rest, go, toolchain, goSet, toolchainSet);
      RewrittenCons(line, rest + b, go, toolchain, goSet, toolchainSet);
      hide Rewritten;
      hide HasGo;
      hide HasToolchain;
      hide IsGo;
      hide IsToolchain;
      hide GoLine;
      hide ToolchainLine;
      var g, t := goSet || IsGo(line), toolchainSet || IsToolchain(line);
      RewrittenAppend(rest, b, go, toolchain, g, t);
      Associative([if IsGo(line) then GoLine(go) else if IsToolchain(line) then ToolchainLine(toolchain) else line],
                  Rewritten(rest, go, toolchain, g, t),
                  Rewritten(b, go, toolchain, g || HasGo(rest), t || HasToolchain(rest)));
    }
  }

  lemma KindsExclude(line: string)
    ensures !(IsGo(line) && IsToolchain(line))
  {
  }

  lemma WrittenKinds(v: string)
    requires IsThreePart(v)
    ensures v != ""
    ensures IsGo(GoLine(v)) && GoVersion(GoLine(v)) == Some(v)
    ensures IsToolchain(ToolchainLine(v)) && !IsGo(ToolchainLine(v)) && ToolchainVersion(ToolchainLine(v)) == Some(v)
  {
    WrittenLines(v);
    FirstDigit(v);
  }

  /** Which kind of line a line is survives the rewriting, and rewriting again changes nothing. */
  lemma {:induction false} RewrittenKinds(lines: seq<string>, go: string, toolchain: string, goSet: bool,
                                          toolchainSet: bool)
    requires IsThreePart(go) && IsThreePart(toolchain)
    ensures
      var r := Rewritten(lines, go, toolchain, goSet, toolchainSet);
      && (HasGo(r) <==> HasGo(lines)) && (HasToolchain(r) <==> HasToolchain(lines))
      && Rewritten(r, go, toolchain, goSet, toolchainSet) == r
  {
    hide IsGo;
    hide IsToolchain;
    hide IsThreePart;
    if lines != [] && !(goSet && toolchainSet) {
      var r := Rewritten(lines, go, toolchain, goSet, toolchainSet);
      var rest := r[1..];
      assert r == [r[0]] + rest && lines == [lines[0]] + lines[1..];
      HasCons(r[0], rest);
      HasCons(lines[0], lines[1..]);
      hide HasGo;
      hide HasToolchain;
      WrittenKinds(go);
      WrittenKinds(toolchain);
      KindsExclude(lines[0]);
      KindsExclude(r[0]);
      hide GoLine;
      hide ToolchainLine;
      RewrittenKinds(lines[1..], go, toolchain, goSet || IsGo(lines[0]), toolchainSet || IsToolchain(lines[0]));
    }
  }

  lemma {:induction false} RewrittenRead(lines: seq<string>, go: string, toolchain: string, goSet: bool,
                                         toolchainSet: bool)
    requires IsThreePart(go) && IsThreePart(toolchain)
    ensures GetGoVersion(Rewritten(lines, go, toolchain, goSet, toolchainSet),
                         if goSet then go else "", if toolchainSet then toolchain else "")
      == (if goSet || HasGo(lines) then go else "", if toolchainSet || HasToolchain(lines) then toolchain else "")
  {
    hide IsGo;
    hide IsToolchain;
    hide GoVersion;
    hide ToolchainVersion;
    hide IsThreePart;
    WrittenKinds(go);
    WrittenKinds(toolchain);
    hide GoLine;
    hide ToolchainLine;
    if lines != [] && !(goSet && toolchainSet) {
      assert lines == [lines[0]] + lines[1..];
      HasCons(lines[0], lines[1..]);
      KindsExclude(lines[0]);
      hide HasGo;
      hide HasToolchain;
      RewrittenRead(lines[1..], go, toolchain, goSet || IsGo(lines[0]), toolchainSet || IsToolchain(lines[0]));
    }
  }

  lemma {:induction false} GetAppend(a: seq<string>, b: seq<string>, go: string, toolchain: string)
    ensures
      var (g, t) := GetGoVersion(a, go, toolchain);
      GetGoVersion(a + b, go, toolchain) == GetGoVersion(b, g, t)
  {
    hide GoVersion;
    hide ToolchainVersion;
    if a == [] {
      assert a + b == b;
    } else if go == "" || toolchain == "" {
      assert (a + b)[1..] == a[1..] + b && (a + b)[0] == a[0];
      GetAppend(a[1..], b,
                if IsGo(a[0]) then GoVersion(a[0]).value else go,
                if IsToolchain(a[0]) then ToolchainVersion(a[0]).value else toolchain);
    }
  }

  /** Where the toolchain line is inserted, everything before is rewritten and everything after untouched. */
  lemma InsertedShape(lines: seq<string>, go: string, toolchain: string)
    requires HasGo(lines) && !HasToolchain(lines)
    ensures
      var n := AfterLastGo(lines);
      && !HasToolchain(lines[..n]) && HasGo(lines[..n])
      && SetGoVersion(lines, go, toolchain)
         == (Rewritten(lines[..n], go, toolchain, false, false) + [ToolchainLine(toolchain)] + lines[n..], true)
  {
    hide IsGo;
    hide IsToolchain;
    hide GoLine;
    hide ToolchainLine;
    var n := AfterLastGo(lines);
    var pre, post := lines[..n], lines[n..];
    AfterLastGoIs(lines);
    assert pre[n - 1] == lines[n - 1];
    assert forall i :: 0 <= i < n ==> pre[i] == lines[i];
    assert forall i :: 0 <= i < |post| ==> post[i] == lines[n + i];
    assert HasGo(pre) && !HasToolchain(pre) && !HasGo(post) && !HasToolchain(post);
    hide HasGo;
    hide HasToolchain;
    RewrittenAppend(pre, post, go, toolchain, false, false);
    assert lines == pre + post;
    NothingToRewrite(post, go, toolchain, true, false);
    var r := Rewritten(lines, go, toolchain, false, false);
    assert r[..n] == Rewritten(pre, go, toolchain, false, false) && r[n..] == post;
  }

  lemma {:induction false} NothingToRewrite(lines: seq<string>, go: string, toolchain: string, goSet: bool,
                                            toolchainSet: bool)
    requires !HasGo(lines) && !HasToolchain(lines)
    ensures Rewritten(lines, go, toolchain, goSet, toolchainSet) == lines
  {
    hide IsGo;
    hide IsToolchain;
    if lines != [] {
      assert lines == [lines[0]] + lines[1..];
      HasCons(lines[0], lines[1..]);
      NothingToRewrite(lines[1..], go, toolchain, goSet, toolchainSet);
    }
  }

  /** What was set is what is read, whatever the list held before, as long as it has a go line. */
  lemma SetThenGet(lines: seq<string>, go: string, toolchain: string)
    requires IsThreePart(go) && IsThreePart(toolchain)
    ensures SetGoVersion(lines, go, toolchain).1 <==> HasGo(lines)
    ensures HasGo(lines) ==> GetGoVersion(SetGoVersion(lines, go, toolchain).0, "", "") == (go, toolchain)
  {
    hide IsThreePart;
    hide IsGo;
    hide IsToolchain;
    hide GoVersion;
    hide ToolchainVersion;
    hide GoLine;
    hide ToolchainLine;
    if HasGo(lines) && HasToolchain(lines) {
      RewrittenRead(lines, go, toolchain, false, false);
    } else if HasGo(lines) {
      var n := AfterLastGo(lines);
      var pre, post := Rewritten(lines[..n], go, toolchain, false, false), lines[n..];
      InsertedShape(lines, go, toolchain);
      RewrittenRead(lines[..n], go, toolchain, false, false);
      WrittenKinds(go);
      WrittenKinds(toolchain);
      var inserted := [ToolchainLine(toolchain)];
      assert (inserted + post)[1..] == post && (inserted + post)[0] == ToolchainLine(toolchain);
      GetAppend(pre, inserted + post, "", "");
      assert pre + inserted + post == pre + (inserted + post);
    }
  }

  /** Setting the same versions again changes nothing. */
  lemma SetTwice(lines: seq<string>, go: string, toolchain: string)
    requires IsThreePart(go) && IsThreePart(toolchain)
    ensures
      var once := SetGoVersion(lines, go, toolchain);
      SetGoVersion(once.0, go, toolchain) == once
  {
    hide IsThreePart;
    hide IsGo;
    hide IsToolchain;
    hide GoLine;
    hide ToolchainLine;
    RewrittenKinds(lines, go, toolchain, false, false);
    if HasGo(lines) && !HasToolchain(lines) {
      var n := AfterLastGo(lines);
      var pre, post := Rewritten(lines[..n], go, toolchain, false, false), lines[n..];
      var inserted := [ToolchainLine(toolchain)];
      InsertedShape(lines, go, toolchain);
      RewrittenKinds(lines[..n], go, toolchain, false, false);
      WrittenKinds(toolchain);
      var once := pre + inserted + post;
      assert once == pre + (inserted + post);
      RewrittenAppend(pre, inserted + post, go, toolchain, false, false);
      assert (inserted + post)[1..] == post && (inserted + post)[0] == ToolchainLine(toolchain);
      HasEither(pre, inserted + post);
    }
  }

  lemma HasEither(a: seq<string>, b: seq<string>)
    ensures HasGo(a) || HasGo(b) ==> HasGo(a + b)
    ensures HasToolchain(a) || HasToolchain(b) ==> HasToolchain(a + b)
  {
    hide IsGo;
    hide IsToolchain;
    var c := a + b;
    assert forall i :: 0 <= i < |a| ==> c[i] == a[i];
    assert forall i :: 0 <= i < |b| ==> c[|a| + i] == b[i];
  }

  /** One line after the edit: as it was, or a version line of its own kind rewritten. */
  predicate Edited(was: string, now: string, go: string, toolchain: string) {
    now == was || (IsGo(was) && now == GoLine(go)) || (IsToolchain(was) && now == ToolchainLine(toolchain))
  }

  lemma {:induction false} RewrittenEdits(lines: seq<string>, go: string, toolchain: string, goSet: bool,
                                          toolchainSet: bool, i: nat)
    requires i < |lines|
    ensures Edited(lines[i], Rewritten(lines, go, toolchain, goSet, toolchainSet)[i], go, toolchain)
  {
    hide IsGo;
    hide IsToolchain;
    hide GoLine;
    hide ToolchainLine;
    if !(goSet && toolchainSet) && i > 0 {
      RewrittenEdits(lines[1..], go, toolchain, goSet || IsGo(lines[0]),
                     toolchainSet || (!IsGo(lines[0]) && IsToolchain(lines[0])), i - 1);
    }
  }

  /**
   The edit keeps every line that is not a version line, and the order of all lines. At most one line is
   added: the toolchain line, right after the last go line, and only when there was none.
   */
  lemma SetGoFrame(lines: seq<string>, go: string, toolchain: string, i: nat)
    requires i < |lines|
    ensures
      var after := SetGoVersion(lines, go, toolchain).0;
      var n := AfterLastGo(lines);
      var adds := HasGo(lines) && !HasToolchain(lines);
      && |after| == |lines| + (if adds then 1 else 0)
      && (adds ==> after[n] == ToolchainLine(toolchain))
      && Edited(lines[i], after[if adds && i >= n then i + 1 else i], go, toolchain)
  {
    hide IsGo;
    hide IsToolchain;
    hide GoLine;
    hide ToolchainLine;
    AfterLastGoIs(lines);
    RewrittenEdits(lines, go, toolchain, false, false, i);
  }

  // ---- The Kubernetes versions ----

  /**
   A matching line keeps its indentation, component, major version and trailer, takes the version and ends
   in a newline; any other line is kept whole; twice is once.
   */
  lemma BumpLineMeaning(line: string, version: string)
    requires IsTwoPart(version)
    ensures MatchK8s(line).None? ==> BumpLine(line, version) == line
    ensures MatchK8s(line).Some? ==>
      var l := MatchK8s(line).value;
      && MatchK8s(BumpLine(line, version))
         == Some(K8sLine(l.indent, '.', l.component, l.major, version, l.trailer, true))
      && BumpLine(line, version)
         == l.indent + "k8s.io/" + l.component + " v" + l.major + "." + version + l.trailer + "\n"
    ensures BumpLine(BumpLine(line, version), version) == BumpLine(line, version)
  {
    if MatchK8s(line).Some? {
      MatchK8sSound(line);
      MatchK8sOf(Bumped(MatchK8s(line).value, version));
      BumpedText(MatchK8s(line).value, version);
    }
    hide MatchK8s;
    hide Render;
  }

  lemma BumpedText(l: K8sLine, version: string)
    ensures Render(Bumped(l, version))
      == l.indent + "k8s.io/" + l.component + " v" + l.major + "." + version + l.trailer + "\n"
  {
    assert "k8s" + ['.'] + "io/" == "k8s.io/";
  }

  /** A line whose version goes on with a hyphen, as pseudo-versions do, is left alone. */
  lemma PseudoVersionUntouched(l: K8sLine, version: string)
    requires WellFormed(l.(trailer := "")) && l.trailer != "" && l.trailer[0] == '-'
    ensures MatchK8s(Render(l)).None? && BumpLine(Render(l), version) == Render(l)
  {
    hide IsTwoPart;
    hide AfterSlash;
    var s := ComponentText(l);
    assert s[3] == l.sep && s[7..] == AfterSlash(l);
    PseudoName(l);
    hide MatchName;
    assert MatchComponent(l.indent, s).None? && Stops(IsBlank, s);
    hide MatchComponent;
    RenderIs(l);
    hide ComponentText;
    hide Render;
    SpanOf(IsBlank, l.indent, s);
  }

  lemma PseudoName(l: K8sLine)
    requires WellFormed(l.(trailer := "")) && l.trailer != "" && l.trailer[0] == '-'
    ensures MatchName(l.indent, l.sep, AfterSlash(l)).None?
  {
    hide AfterSlash;
    PseudoVersionText(l);
    RenderIs(l);
    hide VersionText;
    hide MatchVersion;
    hide IsTwoPart;
    SpanOf(IsNameChar, l.component, VersionText(l));
  }

  lemma PseudoVersionText(l: K8sLine)
    requires WellFormed(l.(trailer := "")) && l.trailer != "" && l.trailer[0] == '-'
    ensures MatchVersion(VersionText(l)).None? && Stops(IsNameChar, VersionText(l))
  {
    hide TwoPart;
    hide Digits;
    hide IsTwoPart;
    assert Ending(l)[0] == '-';
    assert MatchEnding(Ending(l)).None? && Stops(IsDigit, Ending(l));
    hide Ending;
    hide MatchEnding;
    assert VersionText(l)[0] == ' ';
    hide VersionText;
    VersionPieces(l);
  }

  /** Searching a text no match can start in before position `n` is searching it from there. */
  lemma {:induction false} SearchSkips(name: string, line: string, n: nat)
    requires n <= |line|
    requires forall i :: 0 <= i < n ==> VersionAt(name, line[i..]).None?
    ensures Search(name, line) == Search(name, line[n..])
  {
    if n > 0 {
      assert line[0..] == line;
      forall i | 0 <= i < n - 1 ensures VersionAt(name, line[1..][i..]).None? {
        assert line[1..][i..] == line[i + 1..];
      }
      hide VersionAt;
      SearchSkips(name, line[1..], n - 1);
      assert line[1..][n - 1..] == line[n..];
    }
  }

  // A newline at the end of a text changes nothing about where the search pattern matches.

  lemma {:induction false} SpanNewline(s: string)
    ensures Span(IsDigit, s + "\n") == Span(IsDigit, s)
  {
    if s != "" {
      assert (s + "\n")[1..] == s[1..] + "\n";
      SpanNewline(s[1..]);
    }
  }

  lemma DigitsNewline(s: string)
    ensures Digits(s + "\n") == match Digits(s) case None => None case Some((a, u)) => Some((a, u + "\n"))
  {
    var n := Span(IsDigit, s);
    SpanNewline(s);
    assert (s + "\n")[..n] == s[..n] && (s + "\n")[n..] == s[n..] + "\n";
  }

  lemma DotNewline(u: string)
    ensures u + "\n" != "" && (u + "\n")[0] == '.' <==> u != "" && u[0] == '.'
    ensures u != "" ==> (u + "\n")[1..] == u[1..] + "\n"
  {
  }

  lemma TwoPartNewline(s: string)
    ensures TwoPart(s + "\n").Some? <==> TwoPart(s).Some?
  {
    DigitsNewline(s);
    if Digits(s).Some? {
      var u := Digits(s).value.1;
      DotNewline(u);
      if u != "" {
        DigitsNewline(u[1..]);
      }
    }
    hide Digits;
  }

  lemma VersionAfterNameNewline(name: string, s: string)
    requires '\n' !in name
    ensures VersionAfterName(name, s + "\n").Some? ==> VersionAfterName(name, s).Some?
  {
    var prefix := name + " v";
    var line := s + "\n";
    if prefix <= line {
      assert |prefix| <= |s| by {
        assert line[|s|] == '\n' && forall i :: 0 <= i < |prefix| ==> line[i] == prefix[i] && prefix[i] != '\n';
      }
      assert s == line[..|s|] && line[|prefix|..] == s[|prefix|..] + "\n";
      DigitsNewline(s[|prefix|..]);
      if Digits(s[|prefix|..]).Some? {
        var u := Digits(s[|prefix|..]).value.1;
        DotNewline(u);
        if u != "" {
          TwoPartNewline(u[1..]);
        }
      }
      hide Digits;
      hide TwoPart;
    }
  }

  lemma VersionAtNewline(name: string, s: string)
    requires '\n' !in name
    ensures VersionAt(name, s + "\n").Some? ==> VersionAt(name, s).Some?
  {
    var line := s + "\n";
    hide VersionAfterName;
    if |line| >= 7 && line[..3] == "k8s" && line[4..7] == "io/" {
      assert line[6] == line[4..7][2] == '/';
      assert |s| >= 7;
      assert line[..3] == s[..3] && line[4..7] == s[4..7] && line[7..] == s[7..] + "\n" && line[3] == s[3];
      VersionAfterNameNewline(name, s[7..]);
    }
  }

  lemma {:induction false} SearchNewline(name: string, s: string)
    requires '\n' !in name && Search(name, s).None?
    ensures Search(name, s + "\n").None?
  {
    VersionAtNewline(name, s);
    if s == "" {
      assert (s + "\n")[1..] == "";
    } else {
      assert (s + "\n")[1..] == s[1..] + "\n";
      SearchNewline(name, s[1..]);
    }
    hide VersionAt;
  }

  // Where the search pattern can match in a line set_k8s_version has written.

  /** The part of the line between "k8s.io/" and the trailer. */
  function Core(l: K8sLine): string {
    l.component + " v" + l.major + "." + l.version
  }

  lemma CoreChars(l: K8sLine)
    requires WellFormed(l)
    ensures AfterSlash(l) == Core(l) + Ending(l)
    ensures Core(l) != "" && IsDigit(Core(l)[|Core(l)| - 1])
    ensures forall i :: 0 <= i < |Core(l)| ==> Core(l)[i] != '/'
  {
  }

  lemma NoMatchInside(name: string, l: K8sLine, i: nat)
    requires WellFormed(l) && 1 <= i < 7 + |Core(l)|
    ensures VersionAt(name, ComponentText(l)[i..]).None?
  {
    var line := ComponentText(l);
    var end := 7 + |Core(l)|;
    CoreChars(l);
    hide IsTwoPart;
    hide VersionAt;
    assert forall j :: 7 <= j < end ==> line[j] == Core(l)[j - 7];
    assert end < |line| ==> line[end] == Ending(l)[0] && line[end] in {' ', '\n'};
    NoPlaceInside(line, end, i);
    hide ComponentText;
    hide Core;
    var s := line[i..];
    if VersionAt(name, s).Some? {
      VersionAtBegins(name, s);
    }
  }

  /** Between "k8s.io/" and the trailer there is no slash, and a version, not an "s", stands before the trailer. */
  lemma NoPlaceInside(line: string, end: nat, i: nat)
    requires 7 < end <= |line| && 1 <= i < end
    requires forall j :: 7 <= j < end ==> line[j] != '/'
    requires IsDigit(line[end - 1]) && (end < |line| ==> line[end] in {' ', '\n'})
    ensures var s := line[i..];
      !(|s| >= 7 && s[0] == 'k' && s[1] == '8' && s[2] == 's' && s[4] == 'i' && s[5] == 'o' && s[6] == '/')
  {
  }

  lemma VersionAtBegins(name: string, s: string)
    requires VersionAt(name, s).Some?
    ensures |s| >= 7 && s[0] == 'k' && s[1] == '8' && s[2] == 's'
    ensures s[3] != '\n' && s[4] == 'i' && s[5] == 'o' && s[6] == '/'
  {
    hide VersionAfterName;
    assert s[..3][0] == s[0] && s[..3][1] == s[1] && s[..3][2] == s[2];
    assert s[4..7][0] == s[4] && s[4..7][1] == s[5] && s[4..7][2] == s[6];
  }

  lemma VersionAtStart(name: string, l: K8sLine)
    requires WellFormed(l) && Consists(IsNameChar, name)
    ensures VersionAt(name, ComponentText(l)) == if l.component == name then Some(l.version) else None
  {
    var s := ComponentText(l);
    var a := AfterSlash(l);
    VersionAfterNameIs(name, l);
    hide AfterSlash;
    hide VersionAfterName;
    assert s[..3] == "k8s" && s[3] == l.sep && s[4..7] == "io/" && s[7..] == a;
  }

  lemma VersionAfterNameIs(name: string, l: K8sLine)
    requires WellFormed(l) && Consists(IsNameChar, name)
    ensures VersionAfterName(name, AfterSlash(l)) == if l.component == name then Some(l.version) else None
  {
    hide AfterSlash;
    hide IsTwoPart;
    RenderIs(l);
    var t := VersionText(l);
    if l.component == name {
      VersionAfterOwnName(name, l);
    } else {
      NamesEnd(name, l.component, t);
    }
    hide VersionText;
  }

  lemma VersionAfterOwnName(name: string, l: K8sLine)
    requires WellFormed(l)
    ensures VersionAfterName(name, name + VersionText(l)) == Some(l.version)
  {
    hide TwoPart;
    hide Digits;
    hide IsTwoPart;
    var s := name + VersionText(l);
    MatchEndingOf(l);
    VersionPieces(l);
    hide Ending;
    assert s[|name| + 2..] == VersionText(l)[2..];
    assert name + " v" <= s by {
      assert VersionText(l)[..2] == " v";
      assert s[..|name| + 2] == name + VersionText(l)[..2];
    }
    hide VersionText;
  }

  /** A name followed by a space is read as that name only. */
  lemma NamesEnd(name: string, component: string, t: string)
    requires Consists(IsNameChar, name) && Consists(IsNameChar, component) && name != component
    requires t != "" && t[0] == ' '
    ensures !(name + " v" <= component + t)
  {
    var s := component + t;
    var prefix := name + " v";
    assert s[|component|] == ' ' && prefix[|name|] == ' ';
    if |name| < |component| {
      assert s[|name|] == component[|name|];
    } else if |name| > |component| {
      assert prefix[|component|] == name[|component|];
    } else {
      assert exists i :: 0 <= i < |name| && name[i] != component[i];
      var i :| 0 <= i < |name| && name[i] != component[i];
      assert s[i] == component[i] && prefix[i] == name[i];
    }
  }

  /** In a matching line whose trailer names no module, the pattern matches at the component or not at all. */
  lemma SearchWritten(name: string, l: K8sLine)
    requires WellFormed(l) && Consists(IsNameChar, name)
    requires Search(name, l.trailer).None?
    ensures Search(name, Render(l)) == if l.component == name then Some(l.version) else None
  {
    hide VersionAt;
    hide IsTwoPart;
    hide AfterSlash;
    var line, s := Render(l), ComponentText(l);
    RenderIs(l);
    hide Render;
    SpanOf(IsBlank, l.indent, s);
    forall i | 0 <= i < |l.indent| ensures VersionAt(name, line[i..]).None? {
      assert line[i..][0] == l.indent[i];
      if VersionAt(name, line[i..]).Some? {
        VersionAtBegins(name, line[i..]);
      }
    }
    SearchSkips(name, line, |l.indent|);
    VersionAtStart(name, l);
    if l.component != name {
      SearchComponent(name, l);
    }
    hide ComponentText;
  }

  lemma SearchComponent(name: string, l: K8sLine)
    requires WellFormed(l) && Consists(IsNameChar, name)
    requires Search(name, l.trailer).None? && l.component != name
    ensures Search(name, ComponentText(l)).None?
  {
    hide VersionAt;
    hide IsTwoPart;
    var s := ComponentText(l);
    var end := 7 + |Core(l)|;
    CoreChars(l);
    assert s[end..] == Ending(l);
    hide Core;
    VersionAtStart(name, l);
    forall i | 0 <= i < end ensures VersionAt(name, s[i..]).None? {
      if i == 0 {
        assert s[0..] == s;
      } else {
        NoMatchInside(name, l, i);
      }
    }
    SearchSkips(name, s, end);
    if l.newline {
      SearchNewline(name, l.trailer);
    } else {
      assert Ending(l) == l.trailer;
    }
  }

  predicate MentionsK8s(line: string) {
    Search(Kubernetes, line).Some? || Search(K8sApi, line).Some?
  }

  /** Every line the reader would look at is one the writer rewrites, and no trailer names a module. */
  predicate ReadersAgree(lines: seq<string>) {
    forall i :: 0 <= i < |lines| ==>
      match MatchK8s(lines[i])
      case None => !MentionsK8s(lines[i])
      case Some(l) => !MentionsK8s(l.trailer)
  }

  /** After the rewriting the reader finds the version set in every line it looks at. */
  lemma BumpedMention(line: string, version: string)
    requires IsTwoPart(version) && ReadersAgree([line])
    ensures
      var after := BumpLine(line, version);
      && (Search(Kubernetes, after).Some? ==> Search(Kubernetes, after).value == version)
      && (Search(K8sApi, after).Some? ==> Search(K8sApi, after).value == version)
      && (MentionsK8s(line) ==> MentionsK8s(after))
  {
    assert [line][0] == line;
    hide Search;
    hide Render;
    hide IsTwoPart;
    NamesAreNames();
    if MatchK8s(line).Some? {
      var l := MatchK8s(line).value;
      MatchK8sSound(line);
      hide MatchK8s;
      SearchWritten(Kubernetes, l);
      SearchWritten(K8sApi, l);
      SearchWritten(Kubernetes, Bumped(l, version));
      SearchWritten(K8sApi, Bumped(l, version));
    }
  }

  lemma NamesAreNames()
    ensures Consists(IsNameChar, Kubernetes) && Consists(IsNameChar, K8sApi)
  {
  }

  /**
   The reader finds the version just set, provided some line names kubernetes or the api (or the reader
   starts out with that version).
   */
  lemma {:induction false} GetAfterSet(lines: seq<string>, version: string, api: string)
    requires IsTwoPart(version) && ReadersAgree(lines)
    requires api == version || exists i :: 0 <= i < |lines| && MentionsK8s(lines[i])
    ensures GetK8sVersion(SetK8sVersion(lines, version), api) == version
  {
    hide Search;
    hide MatchK8s;
    hide BumpLine;
    hide IsTwoPart;
    if lines != [] {
      var first, rest := lines[0], lines[1..];
      assert ReadersAgree([first]) && ReadersAgree(rest);
      BumpedMention(first, version);
      assert SetK8sVersion(lines, version)[1..] == SetK8sVersion(rest, version);
      var after := BumpLine(first, version);
      if Search(Kubernetes, after).None? {
        assert lines == [first] + rest;
        GetAfterSet(rest, version, if Search(K8sApi, after).Some? then version else api);
      }
    }
  }
}
