/** hack/bump-k8s.py as it runs: loops over a list of lines, editing it in place. */
module BumpK8s {
  import opened GoMod
  import opened VersionLines
  import GoModUpdates

  class LineList {
    var lines: seq<string>

    constructor (lines: seq<string>)
      ensures this.lines == lines
    {
      this.lines := lines;
    }

    method GetGoVersion() returns (goVersion: string, goToolchain: string)
      ensures (goVersion, goToolchain) == GoMod.GetGoVersion(lines, "", "")
    {
      goVersion, goToolchain := "", "";
      assert lines[0..] == lines;
      for i := 0 to |lines|
        invariant GoMod.GetGoVersion(lines, "", "") == GoMod.GetGoVersion(lines[i..], goVersion, goToolchain)
      {
        hide GoVersion;
        hide ToolchainVersion;
        assert lines[i..][1..] == lines[i + 1..] && lines[i..][0] == lines[i];
        if goVersion != "" && goToolchain != "" {
          break;
        }
        var go := GoVersion(lines[i]);
        if go.Some? {
          goVersion := go.value;
        } else {
          var toolchain := ToolchainVersion(lines[i]);
          if toolchain.Some? {
            goToolchain := toolchain.value;
          }
        }
      }
    }

    /** The loop of set_go_version, with its flags and the index of the last go line seen. */
    method RewriteVersionLines(goVersion: string, goToolchain: string)
      returns (goVersionSet: bool, goToolchainSet: bool, goLineIdx: int)
      modifies this
      ensures lines == Rewritten(old(lines), goVersion, goToolchain, false, false)
      ensures goVersionSet <==> HasGo(old(lines))
      ensures goToolchainSet <==> HasToolchain(old(lines))
      ensures !(goVersionSet && goToolchainSet) ==> goLineIdx + 1 == AfterLastGo(old(lines))
    {
      hide IsGo;
      hide IsToolchain;
      hide GoLine;
      hide ToolchainLine;
      goVersionSet, goToolchainSet, goLineIdx := false, false, -1;
      ghost var was := lines;
      assert was[0..] == was && was[..0] == [] && was[..|was|] == was && was[|was|..] == [];
      assert !HasGo(was[..0]) && !HasToolchain(was[..0]) && AfterLastGo(was[..0]) == 0;
      hide HasGo;
      hide HasToolchain;
      hide AfterLastGo;
      var idx := 0;
      while idx < |lines|
        invariant 0 <= idx <= |lines| == |was| && lines[idx..] == was[idx..]
        invariant Rewritten(was, goVersion, goToolchain, false, false)
          == lines[..idx] + Rewritten(was[idx..], goVersion, goToolchain, goVersionSet, goToolchainSet)
        invariant goVersionSet <==> HasGo(was[..idx])
        invariant goToolchainSet <==> HasToolchain(was[..idx])
        invariant goLineIdx + 1 == AfterLastGo(was[..idx])
      {
        if goVersionSet && goToolchainSet {
          assert lines == lines[..idx] + lines[idx..];
          HasPrefix(was, idx);
          return;
        }
        SeenOneMore(was, idx);
        KindsExclude(was[idx]);
        RewriteOneMore(was, lines, idx, goVersion, goToolchain, goVersionSet, goToolchainSet);
        assert lines[idx] == lines[idx..][0] == was[idx];
        if IsGo(lines[idx]) {
          lines := lines[idx := GoLine(goVersion)];
          goVersionSet := true;
          goLineIdx := idx;
        } else if IsToolchain(lines[idx]) {
          lines := lines[idx := ToolchainLine(goToolchain)];
          goToolchainSet := true;
        }
        idx := idx + 1;
      }
      assert lines == lines[..|was|] + [];
    }

    /** False stands for the exception raised when no go line is found; the edits made so far stay. */
    method SetGoVersion(goVersion: string, goToolchain: string) returns (ok: bool)
      modifies this
      ensures (lines, ok) == GoMod.SetGoVersion(old(lines), goVersion, goToolchain)
    {
      hide HasGo;
      hide HasToolchain;
      hide ToolchainLine;
      var goVersionSet, goToolchainSet, goLineIdx := RewriteVersionLines(goVersion, goToolchain);
      if !goVersionSet {
        return false;
      }
      if !goToolchainSet {
        lines := lines[..goLineIdx + 1] + [ToolchainLine(goToolchain)] + lines[goLineIdx + 1..];
      }
      return true;
    }

    method SetK8sVersion(k8sVersion: string)
      modifies this
      ensures lines == GoMod.SetK8sVersion(old(lines), k8sVersion)
    {
      hide MatchK8s;
      for idx := 0 to |lines|
        invariant |lines| == |old(lines)|
        invariant forall k :: 0 <= k < idx ==> lines[k] == BumpLine(old(lines)[k], k8sVersion)
        invariant forall k :: idx <= k < |lines| ==> lines[k] == old(lines)[k]
      {
        var m := MatchK8s(lines[idx]);
        if m.Some? {
          lines := lines[idx := Render(Bumped(m.value, k8sVersion))];
        }
      }
    }

    /** update_go_mod between reading the file and writing it; it writes nothing when the exception is raised. */
    method UpdateGoMod(goVersion: string, goToolchain: string, k8sVersion: string) returns (ok: bool)
      modifies this
      ensures (lines, ok) == GoModUpdates.UpdateGoMod(old(lines), goVersion, goToolchain, k8sVersion)
    {
      ok := SetGoVersion(goVersion, goToolchain);
      if ok {
        SetK8sVersion(k8sVersion);
      }
    }

    method GetK8sVersion() returns (version: string)
      ensures version == GoMod.GetK8sVersion(lines, "")
    {
      hide Search;
      version := "";
      assert lines[0..] == lines;
      for i := 0 to |lines|
        invariant GoMod.GetK8sVersion(lines, "") == GoMod.GetK8sVersion(lines[i..], version)
      {
        assert lines[i..][1..] == lines[i + 1..] && lines[i..][0] == lines[i];
        var m := Search(Kubernetes, lines[i]);
        if m.Some? {
          return m.value;
        }
        m := Search(K8sApi, lines[i]);
        if m.Some? {
          version := m.value;
        }
      }
    }
  }

  /** What the loop's next turn does to the lines. */
  lemma RewriteOneMore(was: seq<string>, lines: seq<string>, n: nat, go: string, toolchain: string, goSet: bool,
                       toolchainSet: bool)
    requires n < |was| == |lines| && lines[n..] == was[n..] && !(goSet && toolchainSet)
    ensures
      var g, t := IsGo(was[n]), !IsGo(was[n]) && IsToolchain(was[n]);
      var x := if g then GoLine(go) else if t then ToolchainLine(toolchain) else was[n];
      && lines[n := x][n + 1..] == was[n + 1..]
      && lines[n := was[n]] == lines
      && lines[..n] + Rewritten(was[n..], go, toolchain, goSet, toolchainSet)
         == lines[n := x][..n + 1] + Rewritten(was[n + 1..], go, toolchain, goSet || g, toolchainSet || t)
  {
    hide IsGo;
    hide IsToolchain;
    hide GoLine;
    hide ToolchainLine;
    var g, t := IsGo(was[n]), !IsGo(was[n]) && IsToolchain(was[n]);
    var x := if g then GoLine(go) else if t then ToolchainLine(toolchain) else was[n];
    assert was[n..][0] == was[n] && was[n..][1..] == was[n + 1..];
    assert lines[n..][0] == lines[n] && lines[n..][1..] == lines[n + 1..];
    assert lines[n := x][..n + 1] == lines[..n] + [x];
  }

  lemma HasPrefix(lines: seq<string>, n: nat)
    requires n <= |lines|
    ensures HasGo(lines[..n]) ==> HasGo(lines)
    ensures HasToolchain(lines[..n]) ==> HasToolchain(lines)
  {
  }

  lemma SeenOneMore(lines: seq<string>, n: nat)
    requires n < |lines|
    ensures HasGo(lines[..n + 1]) <==> HasGo(lines[..n]) || IsGo(lines[n])
    ensures HasToolchain(lines[..n + 1]) <==> HasToolchain(lines[..n]) || IsToolchain(lines[n])
    ensures AfterLastGo(lines[..n + 1]) == if IsGo(lines[n]) then n + 1 else AfterLastGo(lines[..n])
  {
    hide IsGo;
    hide IsToolchain;
    var a, b := lines[..n], lines[..n + 1];
    assert b[..n] == a && b[n] == lines[n];
    assert forall i :: 0 <= i < n ==> b[i] == a[i];
  }
}
