/**
 Sequence operations the handlers use on query results: `filter`, `find`
 (the first element satisfying a predicate) and reversal.
 */
module Lists {
  import opened Js

  /** `xs.filter(p)`: the elements satisfying `p`, in their original order. */
  function Filter<T>(xs: seq<T>, p: T -> bool): (r: seq<T>)
    ensures |r| <= |xs|
    ensures forall i :: 0 <= i < |r| ==> p(r[i]) && r[i] in xs
    ensures forall x :: x in xs && p(x) ==> x in r
    decreases |xs|
  {
    if |xs| == 0 then []
    else (if p(xs[0]) then [xs[0]] else []) + Filter(xs[1..], p)
  }

  /** Filtering distributes over concatenation. */
  lemma {:induction false} FilterAppend<T>(a: seq<T>, b: seq<T>, p: T -> bool)
    ensures Filter(a + b, p) == Filter(a, p) + Filter(b, p)
    decreases |a|
  {
    if |a| == 0 {
      assert a + b == b;
    } else {
      assert (a + b)[1..] == a[1..] + b;
      FilterAppend(a[1..], b, p);
    }
  }

  /** Filtering one more element appends it exactly when it satisfies `p`. */
  lemma FilterSnoc<T>(xs: seq<T>, x: T, p: T -> bool)
    ensures Filter(xs + [x], p) == Filter(xs, p) + (if p(x) then [x] else [])
  {
    FilterAppend(xs, [x], p);
    assert [x][1..] == [];
  }

  /** When every element satisfies `p`, filtering keeps everything. */
  lemma {:induction false} FilterAll<T>(xs: seq<T>, p: T -> bool)
    requires forall i :: 0 <= i < |xs| ==> p(xs[i])
    ensures Filter(xs, p) == xs
    decreases |xs|
  {
    if |xs| > 0 {
      FilterAll(xs[1..], p);
      assert xs == [xs[0]] + xs[1..];
    }
  }

  /** When no element satisfies `p`, filtering keeps nothing. */
  lemma {:induction false} FilterNone<T>(xs: seq<T>, p: T -> bool)
    requires forall i :: 0 <= i < |xs| ==> !p(xs[i])
    ensures Filter(xs, p) == []
    decreases |xs|
  {
    if |xs| > 0 {
      FilterNone(xs[1..], p);
    }
  }

  /** Filtering with two predicates that agree on the elements gives the same result. */
  lemma {:induction false} FilterCongruent<T>(xs: seq<T>, p: T -> bool, q: T -> bool)
    requires forall i :: 0 <= i < |xs| ==> p(xs[i]) == q(xs[i])
    ensures Filter(xs, p) == Filter(xs, q)
    decreases |xs|
  {
    if |xs| > 0 {
      FilterCongruent(xs[1..], p, q);
    }
  }

  /** `xs.find(p)`: the first element satisfying `p`, or none. */
  function Find<T>(xs: seq<T>, p: T -> bool): (r: Option<T>)
    ensures r.None? <==> forall i :: 0 <= i < |xs| ==> !p(xs[i])
    ensures r.Some? ==> exists i :: 0 <= i < |xs| && xs[i] == r.value && p(xs[i]) && forall j :: 0 <= j < i ==> !p(xs[j])
    decreases |xs|
  {
    if |xs| == 0 then None
    else if p(xs[0]) then Some(xs[0])
    else
      var r := Find(xs[1..], p);
      if r.Some? then
        ghost var i :| 0 <= i < |xs[1..]| && xs[1..][i] == r.value && p(xs[1..][i]) && forall j :: 0 <= j < i ==> !p(xs[1..][j]);
        assert xs[i + 1] == r.value && forall j :: 0 <= j < i + 1 ==> !p(xs[j]);
        r
      else r
  }

  /** The first element satisfying `p`, when it sits in front of `xs`. */
  lemma FindFirst<T>(x: T, xs: seq<T>, p: T -> bool)
    requires p(x)
    ensures Find([x] + xs, p) == Some(x)
  {
  }

  /** Elements that fail `p` in front of `xs` do not change the result. */
  lemma {:induction false} FindSkips<T>(a: seq<T>, xs: seq<T>, p: T -> bool)
    requires forall i :: 0 <= i < |a| ==> !p(a[i])
    ensures Find(a + xs, p) == Find(xs, p)
    decreases |a|
  {
    if |a| > 0 {
      assert (a + xs)[1..] == a[1..] + xs;
      FindSkips(a[1..], xs, p);
    } else {
      assert a + xs == xs;
    }
  }

  /** The element at `i` is found when it satisfies `p` and nothing before it does. */
  lemma {:induction false} FindAt<T>(xs: seq<T>, i: nat, p: T -> bool)
    requires i < |xs| && p(xs[i])
    requires forall j :: 0 <= j < i ==> !p(xs[j])
    ensures Find(xs, p) == Some(xs[i])
  {
    var front, back := xs[..i], xs[i..];
    assert front + back == xs;
    assert forall j :: 0 <= j < |front| ==> !p(front[j]);
    FindSkips(front, back, p);
    assert back == [xs[i]] + xs[i + 1..];
    FindFirst(xs[i], xs[i + 1..], p);
  }

  /** Finding nothing among the kept elements: no kept element satisfies `p`. */
  lemma {:induction false} FindInFilterNone<T>(xs: seq<T>, keep: T -> bool, p: T -> bool)
    requires Find(Filter(xs, keep), p).None?
    ensures forall i :: 0 <= i < |xs| && keep(xs[i]) ==> !p(xs[i])
    decreases |xs|
  {
    if |xs| > 0 {
      var rest := Filter(xs[1..], keep);
      if keep(xs[0]) {
        assert Filter(xs, keep) == [xs[0]] + rest;
        assert ([xs[0]] + rest)[1..] == rest;
      } else {
        assert Filter(xs, keep) == rest;
      }
      FindInFilterNone(xs[1..], keep, p);
      forall i | 1 <= i < |xs| ensures xs[i] == xs[1..][i - 1] { }
    }
  }

  /** `i` is the first position whose element satisfies `p`. */
  predicate FirstIndex<T>(xs: seq<T>, p: T -> bool, i: int) {
    0 <= i < |xs| && p(xs[i]) && forall j :: 0 <= j < i ==> !p(xs[j])
  }

  /** `find` returns the element at the first position that satisfies `p`. */
  lemma FindFirstIndex<T>(xs: seq<T>, p: T -> bool)
    ensures forall i :: FirstIndex(xs, p, i) ==> Find(xs, p) == Some(xs[i])
  {
    forall i | FirstIndex(xs, p, i) ensures Find(xs, p) == Some(xs[i]) {
      FindAt(xs, i, p);
    }
  }

  /** The conjunction of two predicates. */
  function Both<T>(keep: T -> bool, p: T -> bool): T -> bool {
    x => keep(x) && p(x)
  }

  /** Searching the kept elements finds the first element that is kept and satisfies `p`. */
  lemma {:induction false} FindFilter<T>(xs: seq<T>, keep: T -> bool, p: T -> bool)
    ensures Find(Filter(xs, keep), p) == Find(xs, Both(keep, p))
    decreases |xs|
  {
    if |xs| > 0 {
      var x, rest := xs[0], Filter(xs[1..], keep);
      FindFilter(xs[1..], keep, p);
      if keep(x) {
        assert Filter(xs, keep) == [x] + rest;
        if !p(x) {
          FindSkips([x], rest, p);
        }
      } else {
        assert Filter(xs, keep) == rest;
      }
    }
  }

  /** The head of a filter is the first element `find` returns. */
  lemma {:induction false} FilterHead<T>(xs: seq<T>, p: T -> bool)
    ensures |Filter(xs, p)| > 0 <==> Find(xs, p).Some?
    ensures |Filter(xs, p)| > 0 ==> Filter(xs, p)[0] == Find(xs, p).value
    decreases |xs|
  {
    if |xs| > 0 {
      FilterHead(xs[1..], p);
    }
  }

  function Reverse<T>(xs: seq<T>): (r: seq<T>)
    ensures |r| == |xs|
    ensures forall i :: 0 <= i < |xs| ==> r[i] == xs[|xs| - 1 - i]
    ensures forall x :: x in xs ==> x in r
    ensures forall x :: x in r ==> x in xs
  {
    var r := seq(|xs|, i requires 0 <= i < |xs| => xs[|xs| - 1 - i]);
    assert forall i :: 0 <= i < |xs| ==> xs[i] == r[|xs| - 1 - i];
    r
  }

  /** The keys of `xs` strictly increase along the sequence. */
  ghost predicate IncreasingBy<T>(xs: seq<T>, key: T -> int) {
    forall i, j :: 0 <= i < j < |xs| ==> key(xs[i]) < key(xs[j])
  }

  /** Filtering keeps the relative order, so increasing keys stay increasing. */
  lemma {:induction false} FilterIncreasing<T>(xs: seq<T>, p: T -> bool, key: T -> int)
    requires IncreasingBy(xs, key)
    ensures IncreasingBy(Filter(xs, p), key)
    decreases |xs|
  {
    if |xs| > 0 {
      var tail := xs[1..];
      assert IncreasingBy(tail, key) by {
        forall i, j | 0 <= i < j < |tail| ensures key(tail[i]) < key(tail[j]) {
          assert tail[i] == xs[i + 1] && tail[j] == xs[j + 1];
        }
      }
      FilterIncreasing(tail, p, key);
      var ft := Filter(tail, p);
      forall k | 0 <= k < |ft| ensures key(xs[0]) < key(ft[k]) {
        var m :| 0 <= m < |tail| && tail[m] == ft[k];
        assert tail[m] == xs[m + 1];
      }
    }
  }
}
