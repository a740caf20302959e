/** The canonical form pkg/helm/frrk8s.go gives to the list of blocked prefixes. */
module AlwaysBlock {
  import opened Cidr
  import opened Text
  import opened Wrappers

  /** Go's `<=` on strings; comparing code points and comparing UTF-8 bytes give the same order. */
  predicate AtMost(a: string, b: string) {
    a == "" || (b != "" && (a[0] < b[0] || (a[0] == b[0] && AtMost(a[1..], b[1..]))))
  }

  /** The order of texts: a prefix comes first, and otherwise the first character that differs decides. */
  lemma {:induction false} AtMostMeaning(a: string, b: string)
    ensures AtMost(a, b) <==> a <= b || exists i :: DiffersFirst(a, b, i) && a[i] < b[i]
  {
    if a != "" && b != "" {
      if a[0] == b[0] {
        AtMostMeaning(a[1..], b[1..]);
        assert a == [a[0]] + a[1..] && b == [b[0]] + b[1..];
        if i :| DiffersFirst(a[1..], b[1..], i) && a[1..][i] < b[1..][i] {
          assert a[..i + 1] == [a[0]] + a[1..][..i] && b[..i + 1] == [b[0]] + b[1..][..i];
          assert DiffersFirst(a, b, i + 1);
        }
        if i :| DiffersFirst(a, b, i) && a[i] < b[i] {
          assert i > 0 && a[1..][..i - 1] == a[..i][1..] && b[1..][..i - 1] == b[..i][1..];
          assert DiffersFirst(a[1..], b[1..], i - 1);
        }
      } else {
        assert a[..0] == b[..0];
        assert DiffersFirst(a, b, 0);
        if i :| DiffersFirst(a, b, i) && a[i] < b[i] {
          assert i > 0 ==> a[..i][0] == b[..i][0];
        }
      }
    }
  }

  predicate DiffersFirst(a: string, b: string, i: int) {
    0 <= i < |a| && i < |b| && a[..i] == b[..i] && a[i] != b[i]
  }

  lemma {:induction false} AtMostTotal(a: string, b: string)
    ensures AtMost(a, b) || AtMost(b, a)
  {
    if a != "" && b != "" {
      AtMostTotal(a[1..], b[1..]);
    }
  }

  lemma {:induction false} AtMostTransitive(a: string, b: string, c: string)
    requires AtMost(a, b) && AtMost(b, c)
    ensures AtMost(a, c)
  {
    if a != "" && a[0] == b[0] == c[0] {
      AtMostTransitive(a[1..], b[1..], c[1..]);
    }
  }

  lemma {:induction false} AtMostAntisymmetric(a: string, b: string)
    requires AtMost(a, b) && AtMost(b, a)
    ensures a == b
  {
    if a != "" {
      AtMostAntisymmetric(a[1..], b[1..]);
      assert a == [a[0]] + a[1..] && b == [b[0]] + b[1..];
    }
  }

  predicate IsSorted(xs: seq<string>) {
    forall i, j :: 0 <= i < j < |xs| ==> AtMost(xs[i], xs[j])
  }

  function Insert(x: string, xs: seq<string>): seq<string> {
    if xs == [] || AtMost(x, xs[0]) then [x] + xs else [xs[0]] + Insert(x, xs[1..])
  }

  /** What `slices.Sort` leaves behind; SortedIsUnique shows there is only one such list. */
  function Sorted(xs: seq<string>): seq<string> {
    if xs == [] then [] else Insert(xs[0], Sorted(xs[1..]))
  }

  lemma {:induction false} InsertSorts(x: string, xs: seq<string>)
    requires IsSorted(xs)
    ensures IsSorted(Insert(x, xs))
    ensures multiset(Insert(x, xs)) == multiset{x} + multiset(xs)
  {
    if xs == [] {
    } else if AtMost(x, xs[0]) {
      forall j | 0 <= j < |xs| ensures AtMost(x, xs[j]) {
        if j > 0 { AtMostTransitive(x, xs[0], xs[j]); }
      }
    } else {
      AtMostTotal(x, xs[0]);
      InsertSorts(x, xs[1..]);
      assert xs == [xs[0]] + xs[1..];
      var rest := Insert(x, xs[1..]);
      forall j | 0 <= j < |rest| ensures AtMost(xs[0], rest[j]) {
        assert rest[j] in multiset(rest);
        assert rest[j] == x || rest[j] in xs[1..];
      }
    }
  }

  lemma {:induction false} SortedSorts(xs: seq<string>)
    ensures IsSorted(Sorted(xs)) && multiset(Sorted(xs)) == multiset(xs)
  {
    if xs != [] {
      SortedSorts(xs[1..]);
      InsertSorts(xs[0], Sorted(xs[1..]));
      assert xs == [xs[0]] + xs[1..];
    }
  }

  lemma {:induction false} SortedIsUnique(xs: seq<string>, ys: seq<string>)
    requires IsSorted(xs) && IsSorted(ys) && multiset(xs) == multiset(ys)
    ensures xs == ys
  {
    if xs == [] {
      EmptyMultiset(ys);
    } else if ys == [] {
      EmptyMultiset(xs);
    } else {
      assert ys[0] in multiset(ys) && xs[0] in multiset(xs);
      LeastOf(xs, ys[0]);
      LeastOf(ys, xs[0]);
      AtMostAntisymmetric(xs[0], ys[0]);
      TailMultiset(xs, ys);
      SortedIsUnique(xs[1..], ys[1..]);
      assert xs == [xs[0]] + xs[1..] && ys == [ys[0]] + ys[1..];
    }
  }

  lemma LeastOf(xs: seq<string>, y: string)
    requires xs != [] && IsSorted(xs) && y in multiset(xs)
    ensures AtMost(xs[0], y)
  {
    AtMostReflexive(xs[0]);
    if xs[0] != y {
      var i :| 0 <= i < |xs| && xs[i] == y;
    }
  }

  lemma EmptyMultiset<T>(xs: seq<T>)
    requires multiset(xs) == multiset{}
    ensures xs == []
  {
    assert |multiset(xs)| == |xs|;
  }

  lemma TailMultiset<T>(xs: seq<T>, ys: seq<T>)
    requires xs != [] && ys != [] && xs[0] == ys[0] && multiset(xs) == multiset(ys)
    ensures multiset(xs[1..]) == multiset(ys[1..])
  {
    assert xs == [xs[0]] + xs[1..] && ys == [ys[0]] + ys[1..];
    assert multiset(xs[1..]) == multiset(xs) - multiset{xs[0]};
    assert multiset(ys[1..]) == multiset(ys) - multiset{ys[0]};
  }

  lemma {:induction false} AtMostReflexive(a: string)
    ensures AtMost(a, a)
  {
    AtMostTotal(a, a);
  }

  // ---- alwaysBlockToString ----

  predicate AllCidrs(block: seq<string>) {
    forall c :: c in block ==> IsCidr(TrimSpace(c))
  }

  /** The value frrk8sValues puts under "alwaysBlock". */
  function BlockString(block: seq<string>): Result<string> {
    if AllCidrs(block) then Ok(Join(Sorted(block), ',')) else Err
  }

  /** Stand-in for `slices.Sort`. */
  method SortStrings(a: array<string>)
    modifies a
    ensures a[..] == Sorted(old(a[..]))
  {
    ghost var was := a[..];
    var s := Sorted(a[..]);
    SortedSorts(was);
    assert |multiset(s)| == |s| && |multiset(was)| == |was|;
    for i := 0 to a.Length
      invariant a[..i] == s[..i]
    {
      a[i] := s[i];
    }
    assert a[..a.Length] == a[..];
  }

  /** There is no `modifies` clause, so the caller's list is left as it was. */
  method AlwaysBlockToString(alwaysBlock: array<string>) returns (r: Result<string>)
    ensures r == BlockString(alwaysBlock[..])
  {
    var toSort := new string[alwaysBlock.Length];
    for i := 0 to alwaysBlock.Length
      invariant toSort[..i] == alwaysBlock[..i]
    {
      toSort[i] := alwaysBlock[i];
    }
    assert toSort[..] == alwaysBlock[..];
    for i := 0 to alwaysBlock.Length
      invariant AllCidrs(alwaysBlock[..i])
      invariant toSort[..] == alwaysBlock[..]
    {
      if !IsCidr(TrimSpace(alwaysBlock[i])) {
        assert alwaysBlock[i] in alwaysBlock[..];
        return Err;
      }
    }
    assert alwaysBlock[..alwaysBlock.Length] == alwaysBlock[..];
    SortStrings(toSort);
    return Ok(Join(toSort[..], ','));
  }

  /** The order the prefixes are listed in does not show in the result. */
  lemma CanonicalUnderPermutation(xs: seq<string>, ys: seq<string>)
    requires multiset(xs) == multiset(ys)
    ensures BlockString(xs) == BlockString(ys)
  {
    assert forall c :: c in xs <==> c in multiset(xs);
    assert forall c :: c in ys <==> c in multiset(ys);
    SortedSorts(xs);
    SortedSorts(ys);
    SortedIsUnique(Sorted(xs), Sorted(ys));
  }

  /** Splitting the string on commas gives back the sorted prefixes, each of them untouched. */
  lemma CanonicalSplits(block: seq<string>)
    requires BlockString(block).Ok?
    ensures BlockString(block).value != "" ==> Split(BlockString(block).value, ',') == Sorted(block)
    ensures IsSorted(Sorted(block)) && multiset(Sorted(block)) == multiset(block)
    ensures BlockString(block).value == "" <==> block == []
  {
    SortedSorts(block);
    forall c | c in Sorted(block) ensures ',' !in c && c != "" {
      assert c in multiset(Sorted(block));
      CidrHasNoComma(TrimSpace(c));
      if ',' in c {
        TrimKeeps(c, ',');
      }
    }
    assert |multiset(Sorted(block))| == |Sorted(block)| && |multiset(block)| == |block|;
    if block != [] {
      assert Sorted(block)[0] in Sorted(block);
      SplitOfJoin(Sorted(block), ',');
    }
  }

  /** Equal strings come only from permutations of one another. */
  lemma CanonicalIsInjective(xs: seq<string>, ys: seq<string>)
    requires BlockString(xs).Ok? && BlockString(xs) == BlockString(ys)
    ensures multiset(xs) == multiset(ys)
  {
    CanonicalSplits(xs);
    CanonicalSplits(ys);
  }
}
