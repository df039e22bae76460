/** sort.Strings: code-point order on strings and a sort over it. */
module Sorting {
  predicate LessEq(a: string, b: string)
    decreases |a|
  {
    a == "" || (b != "" && (a[0] < b[0] || (a[0] == b[0] && LessEq(a[1..], b[1..]))))
  }

  predicate Less(a: string, b: string) {
    a != b && LessEq(a, b)
  }

  lemma {:induction false} Total(a: string, b: string)
    ensures LessEq(a, b) || LessEq(b, a)
    ensures LessEq(a, b) && LessEq(b, a) ==> a == b
    decreases |a|
  {
    if a != "" && b != "" && a[0] == b[0] {
      Total(a[1..], b[1..]);
      if a[1..] == b[1..] {
        assert a == [a[0]] + a[1..] && b == [b[0]] + b[1..];
      }
    }
  }

  lemma {:induction false} Transitive(a: string, b: string, c: string)
    requires LessEq(a, b) && LessEq(b, c)
    ensures LessEq(a, c)
    decreases |a|
  {
    if a != "" && a[0] == b[0] && b[0] == c[0] {
      Transitive(a[1..], b[1..], c[1..]);
    }
  }

  predicate Sorted(xs: seq<string>) {
    forall i, j :: 0 <= i < j < |xs| ==> LessEq(xs[i], xs[j])
  }

  predicate StrictlySorted(xs: seq<string>) {
    forall i, j :: 0 <= i < j < |xs| ==> Less(xs[i], xs[j])
  }

  predicate Distinct(xs: seq<string>) {
    forall i, j :: 0 <= i < j < |xs| ==> xs[i] != xs[j]
  }

  function Insert(x: string, xs: seq<string>): seq<string> {
    if xs == [] || LessEq(x, xs[0]) then [x] + xs else [xs[0]] + Insert(x, xs[1..])
  }

  function Sort(xs: seq<string>): seq<string> {
    if xs == [] then [] else Insert(xs[0], Sort(xs[1..]))
  }

  lemma {:induction false} InsertContents(x: string, xs: seq<string>)
    ensures multiset(Insert(x, xs)) == multiset(xs) + multiset{x}
  {
    if xs != [] {
      assert xs == [xs[0]] + xs[1..];
      InsertContents(x, xs[1..]);
    }
  }

  lemma ConsSorted(x: string, xs: seq<string>)
    requires Sorted(xs) && forall i :: 0 <= i < |xs| ==> LessEq(x, xs[i])
    ensures Sorted([x] + xs)
  {
  }

  lemma {:induction false} InsertSorted(x: string, xs: seq<string>)
    requires Sorted(xs)
    ensures Sorted(Insert(x, xs))
  {
    if xs != [] {
      Total(x, xs[0]);
      if LessEq(x, xs[0]) {
        forall i | 0 <= i < |xs| ensures LessEq(x, xs[i]) {
          if i > 0 { Transitive(x, xs[0], xs[i]); }
        }
        ConsSorted(x, xs);
      } else {
        var rest := Insert(x, xs[1..]);
        InsertSorted(x, xs[1..]);
        InsertContents(x, xs[1..]);
        forall j | 0 <= j < |rest| ensures LessEq(xs[0], rest[j]) {
          assert rest[j] in multiset(rest);
        }
        ConsSorted(xs[0], rest);
      }
    }
  }

  lemma {:induction false} SortSorts(xs: seq<string>)
    ensures Sorted(Sort(xs)) && multiset(Sort(xs)) == multiset(xs)
  {
    if xs != [] {
      assert xs == [xs[0]] + xs[1..];
      SortSorts(xs[1..]);
      InsertSorted(xs[0], Sort(xs[1..]));
      InsertContents(xs[0], Sort(xs[1..]));
    }
  }

  lemma {:induction false} CountOnce(xs: seq<string>, i: nat, j: nat)
    requires i < j < |xs| && xs[i] == xs[j]
    ensures multiset(xs)[xs[i]] >= 2
  {
    assert xs == xs[..j] + xs[j..];
    assert xs[..j][i] in multiset(xs[..j]);
    assert xs[j..][0] in multiset(xs[j..]);
  }

  lemma {:induction false} DistinctCounts(xs: seq<string>, x: string)
    requires Distinct(xs)
    ensures multiset(xs)[x] <= 1
  {
    if xs != [] {
      assert xs == [xs[0]] + xs[1..];
      DistinctCounts(xs[1..], x);
      if x == xs[0] {
        assert forall k :: 0 <= k < |xs[1..]| ==> xs[1..][k] == xs[k + 1] != x;
        assert x !in multiset(xs[1..]);
      }
    }
  }

  /** Distinct names come out strictly sorted, and exactly the same names. */
  lemma SortDistinct(xs: seq<string>)
    requires Distinct(xs)
    ensures StrictlySorted(Sort(xs)) && |Sort(xs)| == |xs|
    ensures forall x :: x in Sort(xs) <==> x in xs
  {
    var ys := Sort(xs);
    SortSorts(xs);
    assert |multiset(ys)| == |multiset(xs)|;
    forall x ensures x in ys <==> x in xs {
      assert x in ys <==> x in multiset(ys);
      assert x in xs <==> x in multiset(xs);
    }
    forall i, j | 0 <= i < j < |ys| ensures ys[i] != ys[j] {
      if ys[i] == ys[j] {
        CountOnce(ys, i, j);
        DistinctCounts(xs, ys[i]);
        assert false;
      }
    }
  }

  /** The first difference decides. */
  lemma {:induction false} DifferenceDecides(common: string, c: char, d: char, x: string, y: string)
    requires c != d
    ensures Less(common + [c] + x, common + [d] + y) <==> c < d
  {
    var a, b := common + [c] + x, common + [d] + y;
    assert a[|common|] == c && b[|common|] == d;
    if common != "" {
      DifferenceDecides(common[1..], c, d, x, y);
      assert a[1..] == common[1..] + [c] + x && b[1..] == common[1..] + [d] + y;
      assert common[1..] + [c] + x != common[1..] + [d] + y;
    }
  }

  /** A proper prefix comes first. */
  lemma {:induction false} PrefixIsLess(a: string, more: string)
    requires more != ""
    ensures Less(a, a + more) && !Less(a + more, a)
  {
    if a != "" {
      PrefixIsLess(a[1..], more);
      assert (a + more)[1..] == a[1..] + more;
    }
  }
}
