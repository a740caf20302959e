/** update_go_mod of hack/bump-k8s.py: the go and toolchain versions, then the Kubernetes versions, of one list. */
module GoModUpdates {
  import opened GoMod
  import opened Text
  import opened VersionLines

  /** The list afterwards; false stands for the exception, which comes before any Kubernetes version is set. */
  function UpdateGoMod(lines: seq<string>, go: string, toolchain: string, k8s: string): (seq<string>, bool) {
    var (r, ok) := SetGoVersion(lines, go, toolchain);
    if ok then (SetK8sVersion(r, k8s), true) else (r, false)
  }

  // ---- The two edits do not meet ----

  lemma RenderStarts(l: K8sLine)
    requires Consists(IsBlank, l.indent)
    ensures Render(l) != "" && IsBlank(Render(l)[0])
  {
  }

  /** Setting a Kubernetes version leaves a line of the kind it was, and never touches a version line. */
  lemma BumpKeepsKind(line: string, k8s: string)
    ensures
      var after := BumpLine(line, k8s);
      GoVersion(after) == GoVersion(line) && ToolchainVersion(after) == ToolchainVersion(line)
    ensures IsGo(line) || IsToolchain(line) ==> BumpLine(line, k8s) == line
  {
    if MatchK8s(line).Some? {
      var l := MatchK8s(line).value;
      MatchK8sSound(line);
      RenderStarts(l);
      RenderStarts(Bumped(l, k8s));
      hide MatchK8s;
      hide Render;
      BlankIsNoVersion(line);
      BlankIsNoVersion(Render(Bumped(l, k8s)));
    }
  }

  lemma BlankIsNoVersion(line: string)
    requires line != "" && IsBlank(line[0])
    ensures GoVersion(line).None? && ToolchainVersion(line).None?
  {
  }

  lemma NotIndentedNotBumped(line: string, k8s: string)
    requires line != "" && !IsBlank(line[0])
    ensures MatchK8s(line).None? && BumpLine(line, k8s) == line
  {
    assert Span(IsBlank, line) == 0;
  }

  lemma WrittenNotBumped(v: string, k8s: string)
    ensures BumpLine(GoLine(v), k8s) == GoLine(v) && BumpLine(ToolchainLine(v), k8s) == ToolchainLine(v)
  {
    assert GoLine(v)[0] == 'g' && ToolchainLine(v)[0] == 't';
    hide GoLine;
    hide ToolchainLine;
    hide BumpLine;
    NotIndentedNotBumped(GoLine(v), k8s);
    NotIndentedNotBumped(ToolchainLine(v), k8s);
  }

  lemma BumpKeepsKinds(lines: seq<string>, k8s: string)
    ensures HasGo(SetK8sVersion(lines, k8s)) <==> HasGo(lines)
    ensures HasToolchain(SetK8sVersion(lines, k8s)) <==> HasToolchain(lines)
    ensures AfterLastGo(SetK8sVersion(lines, k8s)) == AfterLastGo(lines)
  {
    var bumped := SetK8sVersion(lines, k8s);
    forall i | 0 <= i < |lines|
      ensures IsGo(bumped[i]) <==> IsGo(lines[i])
      ensures IsToolchain(bumped[i]) <==> IsToolchain(lines[i])
    {
      BumpKeepsKind(lines[i], k8s);
    }
    hide IsGo;
    hide IsToolchain;
    hide BumpLine;
    hide AfterLastGo;
    AfterLastGoIs(lines);
    AfterLastGoIs(bumped);
  }

  lemma SetK8sAppend(a: seq<string>, b: seq<string>, k8s: string)
    ensures SetK8sVersion(a + b, k8s) == SetK8sVersion(a, k8s) + SetK8sVersion(b, k8s)
  {
    hide BumpLine;
  }

  lemma SetK8sOne(line: string, k8s: string)
    ensures SetK8sVersion([line], k8s) == [BumpLine(line, k8s)]
  {
  }

  lemma SetK8sParts(lines: seq<string>, k8s: string)
    requires lines != []
    ensures
      var bumped := SetK8sVersion(lines, k8s);
      bumped != [] && bumped[0] == BumpLine(lines[0], k8s) && bumped[1..] == SetK8sVersion(lines[1..], k8s)
  {
    hide BumpLine;
  }

  /** One turn of the reading loop. */
  lemma ReadOne(lines: seq<string>, go: string, toolchain: string)
    requires lines != [] && (go == "" || toolchain == "")
    ensures
      var g := if IsGo(lines[0]) then GoVersion(lines[0]).value else go;
      var t := if IsToolchain(lines[0]) then ToolchainVersion(lines[0]).value else toolchain;
      GetGoVersion(lines, go, toolchain) == GetGoVersion(lines[1..], g, t)
  {
    hide GoVersion;
    hide ToolchainVersion;
  }

  /** The Kubernetes versions do not matter to the reader of the go versions. */
  lemma {:induction false} ReadUnderBump(lines: seq<string>, k8s: string, go: string, toolchain: string)
    ensures GetGoVersion(SetK8sVersion(lines, k8s), go, toolchain) == GetGoVersion(lines, go, toolchain)
  {
    if lines != [] && (go == "" || toolchain == "") {
      BumpKeepsKind(lines[0], k8s);
      SetK8sParts(lines, k8s);
      hide GoVersion;
      hide ToolchainVersion;
      hide BumpLine;
      hide SetK8sVersion;
      hide GetGoVersion;
      ReadOne(lines, go, toolchain);
      ReadOne(SetK8sVersion(lines, k8s), go, toolchain);
      ReadUnderBump(lines[1..], k8s, if IsGo(lines[0]) then GoVersion(lines[0]).value else go,
                    if IsToolchain(lines[0]) then ToolchainVersion(lines[0]).value else toolchain);
    } else {
      hide BumpLine;
    }
  }

  /** Nor to the loop that rewrites them, which in turn writes no line the other edit touches. */
  lemma {:induction false} RewriteUnderBump(lines: seq<string>, go: string, toolchain: string, k8s: string,
                                            goSet: bool, toolchainSet: bool)
    ensures Rewritten(SetK8sVersion(lines, k8s), go, toolchain, goSet, toolchainSet)
      == SetK8sVersion(Rewritten(lines, go, toolchain, goSet, toolchainSet), k8s)
  {
    if lines != [] && !(goSet && toolchainSet) {
      var line, rest := lines[0], lines[1..];
      assert lines == [line] + rest;
      var g, t := goSet || IsGo(line), toolchainSet || IsToolchain(line);
      var x := if IsGo(line) then GoLine(go) else if IsToolchain(line) then ToolchainLine(toolchain) else line;
      BumpKeepsKind(line, k8s);
      WrittenNotBumped(go, k8s);
      WrittenNotBumped(toolchain, k8s);
      SetK8sOne(line, k8s);
      SetK8sOne(x, k8s);
      hide IsGo;
      hide IsToolchain;
      hide GoLine;
      hide ToolchainLine;
      hide BumpLine;
      hide SetK8sVersion;
      hide Rewritten;
      SetK8sAppend([line], rest, k8s);
      SetK8sAppend([x], Rewritten(rest, go, toolchain, g, t), k8s);
      RewrittenCons(line, rest, go, toolchain, goSet, toolchainSet);
      RewrittenCons(BumpLine(line, k8s), SetK8sVersion(rest, k8s), go, toolchain, goSet, toolchainSet);
      RewriteUnderBump(rest, go, toolchain, k8s, g, t);
    }
  }

  lemma InsertUnderBump(lines: seq<string>, n: nat, x: string, k8s: string)
    requires n <= |lines| && BumpLine(x, k8s) == x
    ensures
      var bumped := SetK8sVersion(lines, k8s);
      SetK8sVersion(lines[..n] + [x] + lines[n..], k8s) == bumped[..n] + [x] + bumped[n..]
  {
    hide BumpLine;
  }

  /** The two edits commute. */
  lemma EditsCommute(lines: seq<string>, go: string, toolchain: string, k8s: string)
    ensures SetGoVersion(SetK8sVersion(lines, k8s), go, toolchain)
      == (SetK8sVersion(SetGoVersion(lines, go, toolchain).0, k8s), SetGoVersion(lines, go, toolchain).1)
  {
    BumpKeepsKinds(lines, k8s);
    RewriteUnderBump(lines, go, toolchain, k8s, false, false);
    WrittenNotBumped(toolchain, k8s);
    InsertUnderBump(Rewritten(lines, go, toolchain, false, false), AfterLastGo(lines), ToolchainLine(toolchain), k8s);
    hide HasGo;
    hide HasToolchain;
    hide AfterLastGo;
    hide Rewritten;
    hide SetK8sVersion;
    hide BumpLine;
    hide ToolchainLine;
  }

  // ---- The whole update ----

  /** Updating again with the same versions changes nothing. */
  lemma UpdateTwice(lines: seq<string>, go: string, toolchain: string, k8s: string)
    requires IsThreePart(go) && IsThreePart(toolchain) && IsTwoPart(k8s)
    ensures
      var once := UpdateGoMod(lines, go, toolchain, k8s);
      UpdateGoMod(once.0, go, toolchain, k8s) == once
  {
    hide IsThreePart;
    hide IsTwoPart;
    SetTwice(lines, go, toolchain);
    var g := SetGoVersion(lines, go, toolchain).0;
    EditsCommute(g, go, toolchain, k8s);
    SetK8sTwice(g, k8s);
    hide SetGoVersion;
    hide SetK8sVersion;
  }

  lemma SetK8sTwice(lines: seq<string>, k8s: string)
    requires IsTwoPart(k8s)
    ensures SetK8sVersion(SetK8sVersion(lines, k8s), k8s) == SetK8sVersion(lines, k8s)
  {
    hide IsTwoPart;
    forall i | 0 <= i < |lines| ensures BumpLine(BumpLine(lines[i], k8s), k8s) == BumpLine(lines[i], k8s) {
      BumpLineMeaning(lines[i], k8s);
    }
    hide BumpLine;
  }

  // ---- Reading the Kubernetes version back ----

  lemma {:induction false} NothingToFind(name: string, line: string)
    requires 'k' !in line
    ensures Search(name, line).None?
  {
    assert |line| >= 3 ==> line[0] in line && line[..3][0] == line[0];
    if line != "" {
      NothingToFind(name, line[1..]);
    }
  }

  /** A version line names no module, so the reader agrees with the writer about it. */
  lemma WrittenAgrees(v: string)
    requires IsThreePart(v)
    ensures ReadersAgree([GoLine(v), ToolchainLine(v)])
  {
    ThreePartText(v);
    hide IsThreePart;
    NothingToFind(Kubernetes, GoLine(v));
    NothingToFind(K8sApi, GoLine(v));
    NothingToFind(Kubernetes, ToolchainLine(v));
    NothingToFind(K8sApi, ToolchainLine(v));
    hide Search;
    assert GoLine(v)[0] == 'g' && ToolchainLine(v)[0] == 't';
    assert Span(IsBlank, GoLine(v)) == 0 && Span(IsBlank, ToolchainLine(v)) == 0;
    hide GoLine;
    hide ToolchainLine;
  }

  lemma ThreePartText(v: string)
    requires IsThreePart(v)
    ensures forall c :: c in v ==> IsDigit(c) || c == '.'
  {
    var ab, c :| IsTwoPart(ab) && Consists(IsDigit, c) && v == ab + "." + c;
    TwoPartOf(ab, "");
  }

  /** Every line of the result is an old one or one of the two written. */
  lemma {:induction false} RewrittenFrom(lines: seq<string>, go: string, toolchain: string, goSet: bool,
                                         toolchainSet: bool)
    ensures forall x :: x in Rewritten(lines, go, toolchain, goSet, toolchainSet) ==>
      x in lines || x == GoLine(go) || x == ToolchainLine(toolchain)
  {
    if lines != [] && !(goSet && toolchainSet) {
      hide IsGo;
      hide IsToolchain;
      hide GoLine;
      hide ToolchainLine;
      assert lines == [lines[0]] + lines[1..];
      RewrittenFrom(lines[1..], go, toolchain, goSet || IsGo(lines[0]),
                    toolchainSet || (!IsGo(lines[0]) && IsToolchain(lines[0])));
    }
  }

  lemma InsertedFrom<T>(r: seq<T>, n: nat, x: T)
    requires n <= |r|
    ensures forall y :: y in r[..n] + [x] + r[n..] ==> y in r || y == x
  {
  }

  lemma SetFrom(lines: seq<string>, go: string, toolchain: string)
    ensures forall x :: x in SetGoVersion(lines, go, toolchain).0 ==>
      x in lines || x == GoLine(go) || x == ToolchainLine(toolchain)
  {
    RewrittenFrom(lines, go, toolchain, false, false);
    var r, n := Rewritten(lines, go, toolchain, false, false), AfterLastGo(lines);
    InsertedFrom(r, n, ToolchainLine(toolchain));
    hide GoLine;
    hide ToolchainLine;
    hide Rewritten;
    hide HasGo;
    hide HasToolchain;
  }

  predicate Agrees(line: string) {
    match MatchK8s(line)
    case None => !MentionsK8s(line)
    case Some(l) => !MentionsK8s(l.trailer)
  }

  lemma AgreementByLine(lines: seq<string>)
    ensures ReadersAgree(lines) <==> forall x :: x in lines ==> Agrees(x)
  {
    hide MentionsK8s;
    hide MatchK8s;
    if ReadersAgree(lines) {
      forall x | x in lines ensures Agrees(x) {
        var i :| 0 <= i < |lines| && lines[i] == x;
      }
    } else {
      var i :| 0 <= i < |lines| && !Agrees(lines[i]);
      assert lines[i] in lines;
    }
  }

  /** Setting the go versions keeps the readers' agreement. */
  lemma AgreementKept(lines: seq<string>, go: string, toolchain: string)
    requires IsThreePart(go) && IsThreePart(toolchain) && ReadersAgree(lines)
    ensures ReadersAgree(SetGoVersion(lines, go, toolchain).0)
  {
    hide IsThreePart;
    SetFrom(lines, go, toolchain);
    AgreementByLine(lines);
    AgreementByLine(SetGoVersion(lines, go, toolchain).0);
    WrittenLinesAgree(go);
    WrittenLinesAgree(toolchain);
    hide SetGoVersion;
    hide ReadersAgree;
    hide Agrees;
    hide GoLine;
    hide ToolchainLine;
  }

  lemma WrittenLinesAgree(v: string)
    requires IsThreePart(v)
    ensures Agrees(GoLine(v)) && Agrees(ToolchainLine(v))
  {
    hide IsThreePart;
    WrittenAgrees(v);
    var both := [GoLine(v), ToolchainLine(v)];
    AgreementByLine(both);
    hide ReadersAgree;
    hide Agrees;
    hide GoLine;
    hide ToolchainLine;
    assert both[0] in both && both[1] in both;
  }

  /** And it keeps every line that names a module. */
  lemma MentioningKept(lines: seq<string>, go: string, toolchain: string, i: nat)
    requires ReadersAgree(lines) && i < |lines| && MentionsK8s(lines[i])
    ensures lines[i] in SetGoVersion(lines, go, toolchain).0
  {
    hide MentionsK8s;
    SetGoFrame(lines, go, toolchain, i);
    AgreementByLine(lines);
    MentioningIsNoVersion(lines[i]);
    hide SetGoVersion;
    hide ReadersAgree;
    hide Agrees;
    hide HasGo;
    hide HasToolchain;
    hide IsGo;
    hide IsToolchain;
  }

  /** Without a go line the exception is raised before any Kubernetes version is set. */
  lemma FailedUpdateKeepsK8s(lines: seq<string>, go: string, toolchain: string, k8s: string, i: nat)
    requires i < |lines| && !UpdateGoMod(lines, go, toolchain, k8s).1
    ensures
      var after := UpdateGoMod(lines, go, toolchain, k8s).0;
      && !HasGo(lines) && |after| == |lines|
      && (MatchK8s(lines[i]).Some? ==> after[i] == lines[i])
  {
    SetGoFrame(lines, go, toolchain, i);
    if IsGo(lines[i]) || IsToolchain(lines[i]) {
      VersionLineStarts(lines[i]);
      NotIndentedNotBumped(lines[i], k8s);
    }
    hide IsGo;
    hide IsToolchain;
    hide MatchK8s;
    hide Rewritten;
  }

  lemma VersionLineStarts(line: string)
    requires IsGo(line) || IsToolchain(line)
    ensures line != "" && !IsBlank(line[0])
  {
    hide ThreePart;
    hide TwoPart;
    hide Span;
    if IsGo(line) {
      assert line[..2] == "go";
    } else {
      assert line[..9] == "toolchain";
    }
  }

  lemma MentioningIsNoVersion(line: string)
    requires Agrees(line) && MentionsK8s(line)
    ensures !IsGo(line) && !IsToolchain(line)
  {
    hide MentionsK8s;
    hide IsGo;
    hide IsToolchain;
    hide MatchK8s;
    if IsGo(line) || IsToolchain(line) {
      VersionLineStarts(line);
      NotIndentedNotBumped(line, "");
    }
  }

  /**
   What update_go_mod set is what the script reads afterwards: the go and toolchain versions whenever
   there is a go line, and the Kubernetes version too if some line names kubernetes or the api and every
   line its reader looks at is one its writer rewrites.
   */
  lemma UpdateThenRead(lines: seq<string>, go: string, toolchain: string, k8s: string)
    requires IsThreePart(go) && IsThreePart(toolchain) && IsTwoPart(k8s)
    ensures
      var (after, ok) := UpdateGoMod(lines, go, toolchain, k8s);
      && (ok <==> HasGo(lines))
      && (ok ==> GetGoVersion(after, "", "") == (go, toolchain))
      && (ok && ReadersAgree(lines) && (exists i :: 0 <= i < |lines| && MentionsK8s(lines[i])) ==>
            GetK8sVersion(after, "") == k8s)
  {
    hide IsThreePart;
    hide IsTwoPart;
    SetThenGet(lines, go, toolchain);
    ReadUnderBump(SetGoVersion(lines, go, toolchain).0, k8s, "", "");
    hide SetGoVersion;
    hide SetK8sVersion;
    hide GetGoVersion;
    hide GetK8sVersion;
    hide ReadersAgree;
    hide HasGo;
    hide MentionsK8s;
    if ReadersAgree(lines) {
      if i :| 0 <= i < |lines| && MentionsK8s(lines[i]) {
        K8sReadBack(lines, go, toolchain, k8s, i);
      }
    }
  }

  lemma K8sReadBack(lines: seq<string>, go: string, toolchain: string, k8s: string, i: nat)
    requires IsThreePart(go) && IsThreePart(toolchain) && IsTwoPart(k8s) && ReadersAgree(lines)
    requires i < |lines| && MentionsK8s(lines[i])
    ensures GetK8sVersion(SetK8sVersion(SetGoVersion(lines, go, toolchain).0, k8s), "") == k8s
  {
    AgreementKept(lines, go, toolchain);
    MentioningKept(lines, go, toolchain, i);
    hide IsThreePart;
    hide IsTwoPart;
    hide SetGoVersion;
    hide SetK8sVersion;
    hide GetK8sVersion;
    hide ReadersAgree;
    hide MentionsK8s;
    var edited := SetGoVersion(lines, go, toolchain).0;
    var j :| 0 <= j < |edited| && edited[j] == lines[i];
    GetAfterSet(edited, k8s, "");
  }
}
