/** Pod names and addresses: the string order, and the comma-joined event keys. */
module Names {
  import opened Ordering

  /** The order of `<` on strings. */
  predicate Less(a: string, b: string) {
    b != [] && (a == [] || a[0] < b[0] || (a[0] == b[0] && Less(a[1..], b[1..])))
  }

  lemma {:induction false} LessTotal(a: string, b: string)
    ensures Less(a, b) || a == b || Less(b, a)
    ensures !(Less(a, b) && Less(b, a))
  {
    if a != [] && b != [] {
      LessTotal(a[1..], b[1..]);
      assert a == [a[0]] + a[1..] && b == [b[0]] + b[1..];
    }
  }

  lemma {:induction false} LessTransitive(a: string, b: string, c: string)
    requires Less(a, b) && Less(b, c)
    ensures Less(a, c)
  {
    if a != [] && a[0] == b[0] == c[0] {
      LessTransitive(a[1..], b[1..], c[1..]);
    }
  }

  lemma LessIsOrder()
    ensures StrictTotal(Less)
  {
    forall a, b
      ensures Less(a, b) || a == b || Less(b, a)
      ensures !(Less(a, b) && Less(b, a))
    {
      LessTotal(a, b);
    }
    forall a, b, c | Less(a, b) && Less(b, c)
      ensures Less(a, c)
    {
      LessTransitive(a, b, c);
    }
    forall a, b, c | !Less(a, b) && !Less(b, c)
      ensures !Less(a, c)
    {
      LessTotal(a, b);
      LessTotal(b, c);
      if Less(a, c) && Less(c, b) {
        LessTransitive(a, c, b);
      }
    }
  }

  /** The order is the lexicographic one: the first differing character decides, and a prefix comes first. */
  lemma {:induction false} LessIsLexicographic(a: string, b: string, k: nat)
    requires k <= |a| && k < |b| && (forall i :: 0 <= i < k ==> a[i] == b[i]) && (k == |a| || a[k] < b[k])
    ensures Less(a, b)
    decreases k
  {
    if k > 0 {
      LessIsLexicographic(a[1..], b[1..], k - 1);
    }
  }

  method SortNames(names: seq<string>) returns (r: seq<string>)
    ensures Sorted(r, Less) && multiset(r) == multiset(names)
    ensures Elements(r) == Elements(names) && |r| == |names|
  {
    LessIsOrder();
    r := Sort(names, Less);
    SameMembers(r, names);
  }

  method MergeNames(a: seq<string>, b: seq<string>) returns (r: seq<string>)
    requires StrictlySorted(a, Less) && Sorted(b, Less)
    ensures StrictlySorted(r, Less) && Elements(r) == Elements(a) + Elements(b)
  {
    LessIsOrder();
    StrictlySortedIsSorted(a, Less);
    TotalIsLinear(Less);
    r := MergeSortedUnique(a, b, Less);
  }

  /** A name that can be part of a comma-joined key; every DNS label is one. */
  predicate Key(n: string) {
    n != "" && ',' !in n
  }

  function Join(names: seq<string>): string {
    if names == [] then ""
    else if |names| == 1 then names[0]
    else names[0] + "," + Join(names[1..])
  }

  lemma CommaSplit(a: string, x: string, b: string, y: string)
    requires ',' !in a && ',' !in b && a + "," + x == b + "," + y
    ensures a == b && x == y
  {
    var s := a + "," + x;
    assert s[|a|] == ',' && s[|b|] == ',';
    assert forall k :: 0 <= k < |a| ==> s[k] == a[k];
    assert forall k :: 0 <= k < |b| ==> s[k] == b[k];
    assert s[..|a|] == a && s[..|b|] == b;
    assert s[|a|+1..] == x && s[|b|+1..] == y;
  }

  lemma JoinHasComma(s: seq<string>)
    requires |s| > 1
    ensures ',' in Join(s)
  {
    assert Join(s)[|s[0]|] == ',';
  }

  /** The joined key determines the names. */
  lemma {:induction false} JoinInjective(s: seq<string>, r: seq<string>)
    requires forall n :: n in s || n in r ==> Key(n)
    requires Join(s) == Join(r)
    ensures s == r
  {
    if s != [] && r != [] {
      assert Key(s[0]) && Key(r[0]);
      if |s| > 1 {
        JoinHasComma(s);
      }
      if |r| > 1 {
        JoinHasComma(r);
        CommaSplit(s[0], Join(s[1..]), r[0], Join(r[1..]));
        JoinInjective(s[1..], r[1..]);
      }
      assert s == [s[0]] + s[1..] && r == [r[0]] + r[1..];
    } else {
      assert forall q :: q != [] && (q == s || q == r) ==> Key(q[0]);
    }
  }

  /** Joined keys are equal exactly when the two pod sets are. */
  lemma KeysAgree(a: seq<string>, b: seq<string>)
    requires StrictlySorted(a, Less) && StrictlySorted(b, Less)
    requires forall n :: n in a || n in b ==> Key(n)
    ensures Join(a) == Join(b) <==> Elements(a) == Elements(b)
  {
    if Join(a) == Join(b) {
      JoinInjective(a, b);
    } else if Elements(a) == Elements(b) {
      LessIsOrder();
      StrictlySortedUnique(a, b, Less);
    }
  }
}
