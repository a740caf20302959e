/** Splitting an image reference into repository and tag (the same code in pkg/params and pkg/helm). */
module Images {
  import opened Text

  /** `strings.LastIndex(s, c) + 1`: where the part after the last `c` starts. */
  function AfterLast(s: string, c: char): (pos: nat)
    ensures pos <= |s|
    ensures c !in s[pos..]
    ensures pos > 0 ==> s[pos - 1] == c
  {
    if s == "" then 0
    else if s[|s| - 1] == c then |s|
    else
      var pos := AfterLast(s[..|s| - 1], c);
      assert s[pos..] == s[..|s| - 1][pos..] + [s[|s| - 1]];
      pos
  }

  function ImageNameTag(ref: string): (string, string) {
    var pos := AfterLast(ref, '/');
    var img := Split(ref[pos..], ':');
    if |img| == 1 then (ref[..pos] + img[0], "") else (ref[..pos] + img[0], img[1])
  }

  function Count(s: string, c: char): nat {
    if s == "" then 0 else (if s[0] == c then 1 else 0) + Count(s[1..], c)
  }

  lemma {:induction false} SplitCounts(s: string, c: char)
    ensures |Split(s, c)| == Count(s, c) + 1
  {
    if s != "" {
      SplitCounts(s[1..], c);
    }
  }

  /** The first two pieces of a name, put back together. */
  lemma {:induction false} NamePieces(name: string)
    ensures |Split(name, ':')| == Count(name, ':') + 1
    ensures forall p :: p in Split(name, ':') ==> ':' !in p
    ensures
      var img := Split(name, ':');
      && (|img| == 1 ==> img[0] == name)
      && (|img| == 2 ==> img[0] + ":" + img[1] == name)
      && (|img| >= 3 ==> img[0] + ":" + img[1] + ":" <= name)
  {
    var img := Split(name, ':');
    SplitCounts(name, ':');
    SplitPartsAvoidSeparator(name, ':');
    JoinOfSplit(name, ':');
    if |img| >= 2 {
      var tail := Join(img[1..], ':');
      assert name == img[0] + ":" + tail;
      if |img| >= 3 {
        assert tail == img[1] + ":" + Join(img[1..][1..], ':');
        assert name == (img[0] + ":" + img[1] + ":") + Join(img[1..][1..], ':');
      }
    }
  }

  lemma PieceAvoids(a: string, b: string, whole: string, c: char)
    requires a + ":" + b <= whole && c !in whole
    ensures c !in b
  {
    forall i | 0 <= i < |b| ensures b[i] != c {
      assert b[i] == (a + ":" + b)[|a| + 1 + i];
    }
  }

  lemma Reassociate(base: string, a: string, b: string, tail: string)
    ensures (base + a) + ":" + b + tail == base + (a + ":" + b + tail)
  {
  }

  lemma PrefixUnder(base: string, p: string, s: string)
    requires p <= s
    ensures base + p <= base + s
  {
  }

  /**
   With no colon in the name the reference is all repository; with one, repository, colon and tag
   give it back; with more, the tag is only the piece up to the second colon. The tag never holds a
   slash or a colon.
   */
  lemma ImageNameTagMeaning(ref: string)
    ensures
      var (repo, tag) := ImageNameTag(ref);
      var colons := Count(ref[AfterLast(ref, '/')..], ':');
      && ':' !in tag && '/' !in tag
      && (colons == 0 ==> repo == ref && tag == "")
      && (colons == 1 ==> repo + ":" + tag == ref)
      && (colons >= 2 ==> repo + ":" + tag + ":" <= ref)
  {
    var pos := AfterLast(ref, '/');
    var name := ref[pos..];
    var img := Split(name, ':');
    NamePieces(name);
    hide Split;
    hide Count;
    if |img| == 1 {
      assert ref == ref[..pos] + name;
    } else {
      TwoPieces(ref, pos, img[0], img[1], |img| == 2);
    }
  }

  lemma TwoPieces(ref: string, pos: nat, a: string, b: string, all: bool)
    requires pos <= |ref| && '/' !in ref[pos..]
    requires if all then a + ":" + b == ref[pos..] else a + ":" + b + ":" <= ref[pos..]
    ensures '/' !in b
    ensures if all then (ref[..pos] + a) + ":" + b == ref else (ref[..pos] + a) + ":" + b + ":" <= ref
  {
    assert ref == ref[..pos] + ref[pos..];
    Reassociate(ref[..pos], a, b, "");
    Reassociate(ref[..pos], a, b, ":");
    PieceAvoids(a, b, ref[pos..], '/');
    if !all {
      PrefixUnder(ref[..pos], a + ":" + b + ":", ref[pos..]);
    }
  }
}
