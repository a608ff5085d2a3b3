/**
 * The sequence operations the UI code relies on: `Array.prototype.filter`,
 * `Array.prototype.map` and the concatenation of per-page lists.
 */
module Lists {

  /** The elements of `s` satisfying `keep`, in their original order. */
  function Filter<T>(s: seq<T>, keep: T -> bool): (r: seq<T>)
    ensures |r| <= |s|
    decreases s
  {
    if s == [] then [] else (if keep(s[0]) then [s[0]] else []) + Filter(s[1..], keep)
  }

  /**
   * Filtering keeps every occurrence of a kept value and no occurrence of any other:
   * counted with multiplicity, the result holds exactly the kept elements.
   */
  lemma {:induction false} FilterCount<T>(s: seq<T>, keep: T -> bool, x: T)
    ensures multiset(Filter(s, keep))[x] == if keep(x) then multiset(s)[x] else 0
    decreases s
  {
    if s != [] {
      assert s == [s[0]] + s[1..];
      FilterCount(s[1..], keep, x);
    }
  }

  /** An element is in the filtered list exactly when it is in the list and is kept. */
  lemma {:induction false} FilterMembers<T>(s: seq<T>, keep: T -> bool, x: T)
    ensures x in Filter(s, keep) <==> x in s && keep(x)
  {
    FilterCount(s, keep, x);
    assert x in Filter(s, keep) <==> multiset(Filter(s, keep))[x] > 0;
    assert x in s <==> multiset(s)[x] > 0;
  }

  /** Every element of the filtered list is kept. */
  lemma {:induction false} FilterKept<T>(s: seq<T>, keep: T -> bool)
    ensures forall i :: 0 <= i < |Filter(s, keep)| ==> keep(Filter(s, keep)[i])
  {
    var r := Filter(s, keep);
    forall i | 0 <= i < |r| ensures keep(r[i]) {
      FilterMembers(s, keep, r[i]);
    }
  }

  /** A list whose every element is kept is left as it is. */
  lemma {:induction false} FilterKeepsAll<T>(s: seq<T>, keep: T -> bool)
    requires forall i :: 0 <= i < |s| ==> keep(s[i])
    ensures Filter(s, keep) == s
    decreases s
  {
    if s != [] {
      assert keep(s[0]);
      FilterKeepsAll(s[1..], keep);
      assert s == [s[0]] + s[1..];
    }
  }

  /** `r` is obtained from `s` by dropping some elements, keeping the order of the rest. */
  ghost predicate IsSubsequence<T>(r: seq<T>, s: seq<T>)
    decreases s
  {
    r == [] ||
    (s != [] &&
      ((r[0] == s[0] && IsSubsequence(r[1..], s[1..])) || IsSubsequence(r, s[1..])))
  }

  /** Filtering keeps the surviving elements in their original relative order. */
  lemma {:induction false} FilterIsSubsequence<T>(s: seq<T>, keep: T -> bool)
    ensures IsSubsequence(Filter(s, keep), s)
    decreases s
  {
    if s != [] {
      FilterIsSubsequence(s[1..], keep);
      var rest := Filter(s[1..], keep);
      if keep(s[0]) {
        assert Filter(s, keep) == [s[0]] + rest;
        assert ([s[0]] + rest)[1..] == rest;
      } else {
        assert Filter(s, keep) == rest;
      }
    }
  }

  /** Filtering a concatenation filters each part. */
  lemma {:induction false} FilterConcat<T>(a: seq<T>, b: seq<T>, keep: T -> bool)
    ensures Filter(a + b, keep) == Filter(a, keep) + Filter(b, keep)
    decreases a
  {
    if a == [] {
      assert a + b == b;
    } else {
      var t := a + b;
      assert t[0] == a[0];
      assert t[1..] == a[1..] + b;
      var head := if keep(a[0]) then [a[0]] else [];
      calc {
        Filter(t, keep);
        head + Filter(a[1..] + b, keep);
        { FilterConcat(a[1..], b, keep); }
        head + (Filter(a[1..], keep) + Filter(b, keep));
        (head + Filter(a[1..], keep)) + Filter(b, keep);
        Filter(a, keep) + Filter(b, keep);
      }
    }
  }

  /** Filtering an extended list filters the old list and then the new element. */
  lemma FilterAppend<T>(s: seq<T>, x: T, keep: T -> bool)
    ensures Filter(s + [x], keep) == Filter(s, keep) + (if keep(x) then [x] else [])
  {
    FilterConcat(s, [x], keep);
    assert [x][1..] == [];
  }

  /** Filtering twice with the same criterion is filtering once. */
  lemma FilterIdempotent<T>(s: seq<T>, keep: T -> bool)
    ensures Filter(Filter(s, keep), keep) == Filter(s, keep)
  {
    var r := Filter(s, keep);
    forall i | 0 <= i < |r|
      ensures keep(r[i])
    {
      FilterMembers(s, keep, r[i]);
    }
    FilterKeepsAll(r, keep);
  }

  /** Two filters may be applied in either order. */
  lemma {:induction false} FilterCommutes<T>(s: seq<T>, p: T -> bool, q: T -> bool)
    ensures Filter(Filter(s, p), q) == Filter(Filter(s, q), p)
    decreases s
  {
    if s != [] {
      var hp := if p(s[0]) then [s[0]] else [];
      var hq := if q(s[0]) then [s[0]] else [];
      calc {
        Filter(Filter(s, p), q);
        Filter(hp + Filter(s[1..], p), q);
        { FilterConcat(hp, Filter(s[1..], p), q); }
        Filter(hp, q) + Filter(Filter(s[1..], p), q);
        { FilterCommutes(s[1..], p, q); }
        Filter(hq, p) + Filter(Filter(s[1..], q), p);
        { FilterConcat(hq, Filter(s[1..], q), p); }
        Filter(hq + Filter(s[1..], q), p);
        Filter(Filter(s, q), p);
      }
    }
  }

  /**
   * When every element kept by `both` is kept by exactly one of `left` and `right`,
   * the elements kept by `both` are, counted with multiplicity, those kept by `left`
   * together with those kept by `right`.
   */
  lemma {:induction false} FilterSplit<T>(s: seq<T>, both: T -> bool, left: T -> bool, right: T -> bool)
    requires forall x :: both(x) == (left(x) || right(x))
    requires forall x :: !(left(x) && right(x))
    ensures multiset(Filter(s, both)) == multiset(Filter(s, left)) + multiset(Filter(s, right))
    decreases s
  {
    if s != [] {
      FilterSplit(s[1..], both, left, right);
    }
  }

  /** `f` applied to every element, positions unchanged. */
  function Map<T, U>(s: seq<T>, f: T -> U): (r: seq<U>)
    ensures |r| == |s|
    ensures forall i :: 0 <= i < |s| ==> r[i] == f(s[i])
  {
    seq(|s|, i requires 0 <= i < |s| => f(s[i]))
  }

  /**
   * Updating elements in a way that never changes whether they are kept commutes
   * with filtering: the updated list, filtered, is the filtered list, updated.
   */
  lemma {:induction false} FilterMapCommute<T>(s: seq<T>, f: T -> T, keep: T -> bool)
    requires forall x :: keep(f(x)) == keep(x)
    ensures Filter(Map(s, f), keep) == Map(Filter(s, keep), f)
    decreases s
  {
    if s != [] {
      assert Map(s, f) == [f(s[0])] + Map(s[1..], f);
      assert Map(s, f)[1..] == Map(s[1..], f);
      FilterMapCommute(s[1..], f, keep);
      assert keep(f(s[0])) == keep(s[0]);
      if keep(s[0]) {
        assert Map(Filter(s, keep), f) == [f(s[0])] + Map(Filter(s[1..], keep), f);
      }
    }
  }

  /** The concatenation of a list of lists. */
  function Flatten<T>(ss: seq<seq<T>>): (r: seq<T>)
    decreases |ss|
  {
    if ss == [] then [] else Flatten(ss[..|ss| - 1]) + ss[|ss| - 1]
  }
}
