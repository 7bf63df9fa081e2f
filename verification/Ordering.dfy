/** Sorting and merging under a strict order, as the controller's slices are kept. */
module Ordering {

  /** A strict weak order: what `sort.Slice` needs of its less function. */
  ghost predicate StrictWeak<T(!new)>(lt: (T, T) -> bool) {
    && (forall a :: !lt(a, a))
    && (forall a, b, c :: lt(a, b) && lt(b, c) ==> lt(a, c))
    && (forall a, b, c :: !lt(a, b) && !lt(b, c) ==> !lt(a, c))
  }

  ghost predicate StrictTotal<T(!new)>(lt: (T, T) -> bool) {
    && StrictWeak(lt)
    && (forall a, b :: lt(a, b) || a == b || lt(b, a))
  }

  ghost predicate Asymmetric<T(!new)>(lt: (T, T) -> bool) {
    forall a, b :: lt(a, b) ==> !lt(b, a)
  }

  /** All that a merge of adjacent-sorted slices needs. */
  ghost predicate Linear<T(!new)>(lt: (T, T) -> bool) {
    Asymmetric(lt) && forall a, b :: lt(a, b) || a == b || lt(b, a)
  }

  lemma TotalIsLinear<T(!new)>(lt: (T, T) -> bool)
    requires StrictWeak(lt)
    ensures Asymmetric(lt)
    ensures StrictTotal(lt) ==> Linear(lt)
  {
  }

  ghost predicate Sorted<T>(s: seq<T>, lt: (T, T) -> bool) {
    forall i, j :: 0 <= i && j == i + 1 < |s| ==> !lt(s[j], s[i])
  }

  ghost predicate StrictlySorted<T>(s: seq<T>, lt: (T, T) -> bool) {
    forall i, j :: 0 <= i && j == i + 1 < |s| ==> lt(s[i], s[j])
  }

  function Elements<T>(s: seq<T>): set<T> {
    set x | x in s
  }

  lemma SameMembers<T>(s: seq<T>, r: seq<T>)
    requires multiset(s) == multiset(r)
    ensures Elements(s) == Elements(r) && |s| == |r|
  {
    assert forall x :: x in s <==> x in multiset(s);
    assert forall x :: x in r <==> x in multiset(r);
    assert |multiset(s)| == |s| && |multiset(r)| == |r|;
  }

  lemma StrictlySortedIsSorted<T(!new)>(s: seq<T>, lt: (T, T) -> bool)
    requires StrictWeak(lt) && StrictlySorted(s, lt)
    ensures Sorted(s, lt)
  {
  }

  /** The head of a sorted sequence is a least element. */
  lemma {:induction false} HeadLeast<T(!new)>(s: seq<T>, lt: (T, T) -> bool, k: nat)
    requires StrictWeak(lt) && Sorted(s, lt) && k < |s|
    ensures !lt(s[k], s[0])
  {
    if k > 0 {
      HeadLeast(s, lt, k - 1);
      assert !lt(s[k], s[k-1]);
    }
  }

  lemma {:induction false} HeadStrictlyLeast<T(!new)>(s: seq<T>, lt: (T, T) -> bool, k: nat)
    requires StrictWeak(lt) && StrictlySorted(s, lt) && 0 < k < |s|
    ensures lt(s[0], s[k])
  {
    if k > 1 {
      HeadStrictlyLeast(s, lt, k - 1);
      assert lt(s[k-1], s[k]);
    }
  }

  /** Insert `x` behind every element that is not greater. */
  method Insert<T(!new)>(s: seq<T>, x: T, lt: (T, T) -> bool) returns (r: seq<T>)
    requires Asymmetric(lt) && Sorted(s, lt)
    ensures Sorted(r, lt) && multiset(r) == multiset(s) + multiset{x}
  {
    var k := |s|;
    while k > 0 && lt(x, s[k-1])
      invariant 0 <= k <= |s|
      invariant k < |s| ==> !lt(s[k], x)
    {
      k := k - 1;
    }
    r := s[..k] + [x] + s[k..];
    SplicedSorted(s, x, k, lt);
    assert s == s[..k] + s[k..];
  }

  lemma SplicedSorted<T>(s: seq<T>, x: T, k: nat, lt: (T, T) -> bool)
    requires Sorted(s, lt) && k <= |s| && (k > 0 ==> !lt(x, s[k-1])) && (k < |s| ==> !lt(s[k], x))
    ensures Sorted(s[..k] + [x] + s[k..], lt)
  {
    var r := s[..k] + [x] + s[k..];
    forall i, j | 0 <= i && j == i + 1 < |r|
      ensures !lt(r[j], r[i])
    {
      if j < k {
        assert !lt(s[j], s[i]);
      } else if i > k {
        assert !lt(s[j-1], s[i-1]);
      }
    }
  }

  method Sort<T(!new)>(s: seq<T>, lt: (T, T) -> bool) returns (r: seq<T>)
    requires StrictWeak(lt)
    ensures Sorted(r, lt) && multiset(r) == multiset(s)
  {
    TotalIsLinear(lt);
    r := [];
    for i := 0 to |s|
      invariant Sorted(r, lt) && multiset(r) == multiset(s[..i])
    {
      r := Insert(r, s[i], lt);
      assert s[..i+1] == s[..i] + [s[i]];
    }
    assert s[..|s|] == s;
  }

  lemma ElementsOfTail<T(!new)>(s: seq<T>, lt: (T, T) -> bool)
    requires StrictWeak(lt) && StrictlySorted(s, lt) && s != []
    ensures Elements(s[1..]) == Elements(s) - {s[0]}
  {
    assert s == [s[0]] + s[1..];
    forall k | 0 < k < |s|
      ensures s[k] != s[0]
    {
      HeadStrictlyLeast(s, lt, k);
    }
  }

  lemma LeastHead<T(!new)>(s: seq<T>, r: seq<T>, lt: (T, T) -> bool)
    requires StrictWeak(lt) && StrictlySorted(s, lt) && StrictlySorted(r, lt) && s != [] && r != []
    requires s[0] in r && r[0] in s
    ensures s[0] == r[0]
  {
    var i :| 0 <= i < |r| && r[i] == s[0];
    var j :| 0 <= j < |s| && s[j] == r[0];
    if i > 0 && j > 0 {
      HeadStrictlyLeast(r, lt, i);
      HeadStrictlyLeast(s, lt, j);
    }
  }

  lemma NonEmptyElements<T>(s: seq<T>)
    ensures Elements(s) == {} <==> s == []
  {
    if s != [] {
      assert s[0] in Elements(s);
    }
  }

  /** A strictly sorted sequence is determined by its elements. */
  lemma {:induction false} StrictlySortedUnique<T(!new)>(s: seq<T>, r: seq<T>, lt: (T, T) -> bool)
    requires StrictWeak(lt) && StrictlySorted(s, lt) && StrictlySorted(r, lt) && Elements(s) == Elements(r)
    ensures s == r
  {
    NonEmptyElements(s);
    NonEmptyElements(r);
    if s != [] {
      assert s[0] in Elements(r) && r[0] in Elements(s);
      LeastHead(s, r, lt);
      ElementsOfTail(s, lt);
      ElementsOfTail(r, lt);
      StrictlySortedUnique(s[1..], r[1..], lt);
      assert s == [s[0]] + s[1..] && r == [r[0]] + r[1..];
    }
  }

  /** `v` may follow `out` in a sorted slice. */
  ghost predicate Follows<T>(out: seq<T>, v: T, lt: (T, T) -> bool) {
    out != [] ==> !lt(v, out[|out|-1])
  }

  method AppendUnique<T(!new, ==)>(out: seq<T>, v: T, lt: (T, T) -> bool) returns (r: seq<T>)
    requires Linear(lt) && StrictlySorted(out, lt) && Follows(out, v, lt)
    ensures StrictlySorted(r, lt) && Elements(r) == Elements(out) + {v} && r != [] && r[|r|-1] == v
  {
    if |out| == 0 || out[|out|-1] != v {
      r := out + [v];
    } else {
      r := out;
    }
  }

  lemma ElementsUpTo<T>(s: seq<T>, i: nat)
    requires i < |s|
    ensures Elements(s[..i+1]) == Elements(s[..i]) + {s[i]}
  {
    assert s[..i+1] == s[..i] + [s[i]];
  }

  lemma ElementsSplit<T>(s: seq<T>, i: nat)
    requires i <= |s|
    ensures Elements(s) == Elements(s[..i]) + Elements(s[i..])
    ensures i == |s| ==> Elements(s[i..]) == {}
  {
    assert s == s[..i] + s[i..];
  }

  /** The tail loop of the merge: what is left of `s` from `i` on. */
  method AppendRest<T(!new, ==)>(start: seq<T>, s: seq<T>, i: nat, lt: (T, T) -> bool) returns (out: seq<T>)
    requires Linear(lt) && StrictlySorted(start, lt) && Sorted(s, lt) && i <= |s|
    requires i < |s| ==> Follows(start, s[i], lt)
    ensures StrictlySorted(out, lt) && Elements(out) == Elements(start) + Elements(s[i..])
  {
    out := start;
    for k := i to |s|
      invariant StrictlySorted(out, lt) && Elements(out) == Elements(start) + Elements(s[i..k])
      invariant k < |s| ==> Follows(out, s[k], lt)
    {
      assert s[i..k+1] == s[i..k] + [s[k]];
      out := AppendUnique(out, s[k], lt);
    }
  }

  /** The merge until one slice is used up. */
  method MergeCommon<T(!new, ==)>(a: seq<T>, b: seq<T>, lt: (T, T) -> bool) returns (out: seq<T>, i: nat, j: nat)
    requires Linear(lt) && Sorted(a, lt) && Sorted(b, lt)
    ensures i <= |a| && j <= |b| && (i == |a| || j == |b|)
    ensures StrictlySorted(out, lt) && Elements(out) == Elements(a[..i]) + Elements(b[..j])
    ensures (i < |a| ==> Follows(out, a[i], lt)) && (j < |b| ==> Follows(out, b[j], lt))
  {
    out, i, j := [], 0, 0;
    while i < |a| && j < |b|
      invariant i <= |a| && j <= |b|
      invariant StrictlySorted(out, lt) && Elements(out) == Elements(a[..i]) + Elements(b[..j])
      invariant (i < |a| ==> Follows(out, a[i], lt)) && (j < |b| ==> Follows(out, b[j], lt))
      decreases |a| - i + |b| - j
    {
      if lt(a[i], b[j]) {
        ElementsUpTo(a, i);
        out := AppendUnique(out, a[i], lt);
        i := i + 1;
      } else if lt(b[j], a[i]) {
        ElementsUpTo(b, j);
        out := AppendUnique(out, b[j], lt);
        j := j + 1;
      } else {
        ElementsUpTo(a, i);
        ElementsUpTo(b, j);
        out := AppendUnique(out, a[i], lt);
        i, j := i + 1, j + 1;
      }
    }
  }

  /** Two sorted slices in, the sorted duplicate-free union out. */
  method MergeSortedUnique<T(!new, ==)>(a: seq<T>, b: seq<T>, lt: (T, T) -> bool) returns (out: seq<T>)
    requires Linear(lt) && Sorted(a, lt) && Sorted(b, lt)
    ensures StrictlySorted(out, lt) && Elements(out) == Elements(a) + Elements(b)
  {
    var common, i, j := MergeCommon(a, b, lt);
    ElementsSplit(a, i);
    ElementsSplit(b, j);
    if i < |a| {
      out := AppendRest(common, a, i, lt);
    } else {
      out := AppendRest(common, b, j, lt);
    }
  }
}
