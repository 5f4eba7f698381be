/**
 * Python's `sorted()` on a list of strings: code-point lexicographic order,
 * a proper prefix sorting first. Written as an insertion sort and proved to
 * return an ordered permutation of its input.
 */
module Sorting {

  /** `a <= b` for Python strings. */
  predicate Below(a: string, b: string) {
    a == [] || (b != [] && (a[0] < b[0] || (a[0] == b[0] && Below(a[1..], b[1..]))))
  }

  lemma {:induction false} BelowTotal(a: string, b: string)
    ensures Below(a, b) || Below(b, a)
  {
    if a != [] && b != [] && a[0] == b[0] {
      BelowTotal(a[1..], b[1..]);
    }
  }

  lemma {:induction false} BelowTransitive(a: string, b: string, c: string)
    requires Below(a, b) && Below(b, c)
    ensures Below(a, c)
  {
    if a != [] && a[0] == b[0] && b[0] == c[0] {
      BelowTransitive(a[1..], b[1..], c[1..]);
    }
  }

  predicate Sorted(xs: seq<string>) {
    forall i, j :: 0 <= i < j < |xs| ==> Below(xs[i], xs[j])
  }

  /** A string below every element of an ordered sequence can go in front of it. */
  lemma PrependSorted(y: string, ys: seq<string>)
    requires Sorted(ys) && forall j :: 0 <= j < |ys| ==> Below(y, ys[j])
    ensures Sorted([y] + ys)
  {
    var r := [y] + ys;
    forall i, j | 0 <= i < j < |r| ensures Below(r[i], r[j]) {
      if i > 0 { assert r[i] == ys[i - 1] && r[j] == ys[j - 1]; }
    }
  }

  /** The head of an ordered sequence is below all of its elements and below `x` also bounds the sequence with `x` added. */
  lemma {:induction false} HeadBoundsInsertion(y: string, tail: seq<string>, x: string, rest: seq<string>)
    requires Sorted([y] + tail) && Below(y, x)
    requires multiset(rest) == multiset(tail) + multiset{x}
    ensures forall j :: 0 <= j < |rest| ==> Below(y, rest[j])
  {
    forall j | 0 <= j < |rest| ensures Below(y, rest[j]) {
      assert ([y] + tail)[0] == y;
      assert rest[j] in multiset(rest);
      if rest[j] != x {
        assert rest[j] in multiset(tail);
        var k :| 0 <= k < |tail| && tail[k] == rest[j];
        assert ([y] + tail)[k + 1] == rest[j];
      }
    }
  }

  /** Places `x` in front of the first element it is below. */
  function Insert(x: string, xs: seq<string>): (r: seq<string>)
    requires Sorted(xs)
    ensures Sorted(r)
    ensures multiset(r) == multiset(xs) + multiset{x}
  {
    if xs == [] then [x]
    else if Below(x, xs[0]) then
      assert Sorted([x] + xs) by {
        forall j | 0 <= j < |xs| ensures Below(x, xs[j]) {
          if j > 0 { BelowTransitive(x, xs[0], xs[j]); }
        }
        PrependSorted(x, xs);
      }
      [x] + xs
    else
      assert xs == [xs[0]] + xs[1..];
      var rest := Insert(x, xs[1..]);
      assert Sorted([xs[0]] + rest) by {
        BelowTotal(x, xs[0]);
        HeadBoundsInsertion(xs[0], xs[1..], x, rest);
        PrependSorted(xs[0], rest);
      }
      [xs[0]] + rest
  }

  /** `sorted(xs)` */
  function Sort(xs: seq<string>): (r: seq<string>)
    ensures Sorted(r)
    ensures multiset(r) == multiset(xs)
  {
    if xs == [] then []
    else
      assert xs == [xs[0]] + xs[1..];
      Insert(xs[0], Sort(xs[1..]))
  }

  /** Strings that agree before index `j` and differ there are ordered by their characters at `j`. */
  lemma {:induction false} BelowAt(a: string, b: string, j: nat)
    requires j < |a| && j < |b| && a[..j] == b[..j] && a[j] < b[j]
    ensures Below(a, b)
  {
    if j > 0 {
      assert a[0] == a[..j][0] == b[..j][0] == b[0];
      assert a[1..][..j - 1] == a[..j][1..] == b[..j][1..] == b[1..][..j - 1];
      BelowAt(a[1..], b[1..], j - 1);
    }
  }

  lemma {:induction false} BelowReflexive(a: string)
    ensures Below(a, a)
  {
    if a != [] {
      BelowReflexive(a[1..]);
    }
  }

  lemma {:induction false} BelowAntisymmetric(a: string, b: string)
    ensures Below(a, b) && Below(b, a) ==> a == b
  {
    if a != [] && b != [] {
      BelowAntisymmetric(a[1..], b[1..]);
      assert a == [a[0]] + a[1..] && b == [b[0]] + b[1..];
    }
  }

  /** Each element differs from the next in an ordered sequence, so no element repeats. */
  lemma StrictlySortedDistinct(xs: seq<string>)
    requires Sorted(xs)
    requires forall i :: 0 <= i < |xs| - 1 ==> xs[i] != xs[i + 1]
    ensures forall i, j :: 0 <= i < j < |xs| ==> xs[i] != xs[j]
  {
    forall i, j | 0 <= i < j < |xs| ensures xs[i] != xs[j] {
      if j > i + 1 {
        BelowAntisymmetric(xs[i], xs[i + 1]);
        assert Below(xs[i], xs[i + 1]) && Below(xs[i + 1], xs[j]);
      }
    }
  }

  /** Each element is below the next one, so the whole sequence is ordered. */
  lemma {:induction false} ChainSorted(xs: seq<string>)
    requires forall i :: 0 <= i < |xs| - 1 ==> Below(xs[i], xs[i + 1])
    ensures Sorted(xs)
  {
    if |xs| > 1 {
      ChainSorted(xs[1..]);
      forall j | 1 <= j < |xs| ensures Below(xs[0], xs[j]) {
        if j > 1 {
          assert Below(xs[1..][0], xs[1..][j - 1]);
          BelowTransitive(xs[0], xs[1], xs[j]);
        }
      }
      forall i, j | 0 <= i < j < |xs| ensures Below(xs[i], xs[j]) {
        if i > 0 {
          assert Below(xs[1..][i - 1], xs[1..][j - 1]);
        }
      }
    }
  }

  lemma DropHead(xs: seq<string>)
    requires xs != []
    ensures multiset(xs[1..]) == multiset(xs) - multiset{xs[0]}
  {
    assert xs == [xs[0]] + xs[1..];
  }

  /** Two ordered sequences with the same elements start with the same element. */
  lemma SameHead(xs: seq<string>, ys: seq<string>)
    requires Sorted(xs) && Sorted(ys) && multiset(xs) == multiset(ys) && xs != []
    ensures ys != [] && xs[0] == ys[0]
  {
    assert xs[0] in multiset(ys);
    var i :| 0 <= i < |ys| && ys[i] == xs[0];
    assert ys[0] in multiset(xs);
    var j :| 0 <= j < |xs| && xs[j] == ys[0];
    assert Below(ys[0], xs[0]) by { if i > 0 { assert Below(ys[0], ys[i]); } else { BelowReflexive(ys[0]); } }
    assert Below(xs[0], ys[0]) by { if j > 0 { assert Below(xs[0], xs[j]); } else { BelowReflexive(xs[0]); } }
    BelowAntisymmetric(xs[0], ys[0]);
  }

  lemma SortedTail(xs: seq<string>)
    requires Sorted(xs) && xs != []
    ensures Sorted(xs[1..])
  {
    forall i, j | 0 <= i < j < |xs| - 1 ensures Below(xs[1..][i], xs[1..][j]) {
      assert xs[1..][i] == xs[i + 1] && xs[1..][j] == xs[j + 1];
    }
  }

  /** Two ordered sequences with the same elements are the same sequence. */
  lemma {:induction false} SortedUnique(xs: seq<string>, ys: seq<string>)
    requires Sorted(xs) && Sorted(ys) && multiset(xs) == multiset(ys)
    ensures xs == ys
  {
    if xs != [] {
      SameHead(xs, ys);
      DropHead(xs);
      DropHead(ys);
      SortedTail(xs);
      SortedTail(ys);
      SortedUnique(xs[1..], ys[1..]);
      assert xs == [xs[0]] + xs[1..] && ys == [ys[0]] + ys[1..];
    } else {
      assert |ys| == |multiset(ys)| == 0;
    }
  }

  /** `sorted(xs)` is the one ordered arrangement of the elements of `xs`. */
  lemma SortIsTheOrderedArrangement(xs: seq<string>, ys: seq<string>)
    requires Sorted(ys) && multiset(ys) == multiset(xs)
    ensures Sort(xs) == ys
  {
    SortedUnique(Sort(xs), ys);
  }

  /** Taking out the element at `k` takes one copy of it out of the multiset. */
  lemma RemoveAt(ys: seq<string>, k: nat)
    requires k < |ys|
    ensures multiset(ys) == multiset(ys[..k] + ys[k + 1..]) + multiset{ys[k]}
  {
    assert ys == ys[..k] + [ys[k]] + ys[k + 1..];
  }

  /** Every other element is still there after the one at `k` is taken out. */
  lemma {:induction false} OthersRemain(ys: seq<string>, k: nat, x: string)
    requires k < |ys| && x in ys && x != ys[k]
    ensures x in ys[..k] + ys[k + 1..]
  {
    var m :| 0 <= m < |ys| && ys[m] == x;
    var rest := ys[..k] + ys[k + 1..];
    if m < k {
      assert rest[m] == x;
    } else {
      assert rest[m - 1] == x;
    }
  }

  /**
   * A sequence of distinct strings whose elements all occur in a sequence
   * of the same length is a rearrangement of it.
   */
  lemma {:induction false} DistinctRearrangement(xs: seq<string>, ys: seq<string>)
    requires |xs| == |ys|
    requires forall i, j :: 0 <= i < j < |xs| ==> xs[i] != xs[j]
    requires forall i :: 0 <= i < |xs| ==> xs[i] in ys
    ensures multiset(xs) == multiset(ys)
  {
    if xs != [] {
      var k :| 0 <= k < |ys| && ys[k] == xs[0];
      var rest := ys[..k] + ys[k + 1..];
      RemoveAt(ys, k);
      forall i | 0 <= i < |xs| - 1 ensures xs[1..][i] in rest {
        assert xs[1..][i] == xs[i + 1] != xs[0];
        OthersRemain(ys, k, xs[i + 1]);
      }
      forall i, j | 0 <= i < j < |xs| - 1 ensures xs[1..][i] != xs[1..][j] {
        assert xs[1..][i] == xs[i + 1] && xs[1..][j] == xs[j + 1];
      }
      DistinctRearrangement(xs[1..], rest);
      assert xs == [xs[0]] + xs[1..];
    }
  }
}
