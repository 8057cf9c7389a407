/**
 * Generic sequence operations that the pandas calls of the program stand for:
 * first-occurrence search, `Series.unique`, boolean-mask selection,
 * `sort_values`, column projection and `min`.
 */
module Seqs {
  import opened Wrappers

  /** Position of the first occurrence of `x` in `s` (Python's `list.index`, or None). */
  function IndexOf<T(==)>(s: seq<T>, x: T): (r: Option<nat>)
    ensures r.None? <==> x !in s
    ensures r.Some? ==> r.value < |s| && s[r.value] == x
    ensures r.Some? ==> forall j :: 0 <= j < r.value ==> s[j] != x
  {
    if |s| == 0 then None
    else if s[0] == x then Some(0)
    else match IndexOf(s[1..], x)
      case None => None
      case Some(k) => Some(k + 1)
  }

  /** No value occurs twice in `s`. */
  ghost predicate Distinct<T>(s: seq<T>)
  {
    forall i, j :: 0 <= i < j < |s| ==> s[i] != s[j]
  }

  /**
   * The distinct values of `s` in order of first appearance, as
   * `Series.unique().tolist()` returns them.
   */
  function Unique<T(==,!new)>(s: seq<T>): (r: seq<T>)
    ensures forall x :: x in r <==> x in s
    ensures Distinct(r)
    ensures forall i, j :: 0 <= i < j < |r| ==> IndexOf(s, r[i]).value < IndexOf(s, r[j]).value
  {
    if |s| == 0 then []
    else
      var init := s[..|s| - 1];
      var u := Unique(init);
      IndexOfPrefix(s, |s| - 1);
      if s[|s| - 1] in u then u else u + [s[|s| - 1]]
  }

  /** A value that occurs in the first `n` elements is first found at the same place in the whole. */
  lemma {:induction false} IndexOfPrefix<T>(s: seq<T>, n: nat)
    requires n <= |s|
    ensures forall x :: x in s[..n] ==> IndexOf(s, x) == IndexOf(s[..n], x)
    ensures n < |s| && s[n] !in s[..n] ==> IndexOf(s, s[n]) == Some(n)
  {
    forall x | x in s[..n]
      ensures IndexOf(s, x) == IndexOf(s[..n], x)
    {
      var k := IndexOf(s[..n], x).value;
      assert s[k] == x;
    }
    if n < |s| && s[n] !in s[..n] {
      forall j | 0 <= j < n ensures s[j] != s[n] {
        assert s[j] == s[..n][j];
      }
    }
  }

  /** The elements of `s` for which `keep` holds, in their original order (a pandas boolean mask). */
  function Filter<T(!new)>(s: seq<T>, keep: T -> bool): (r: seq<T>)
    ensures |r| <= |s|
    ensures forall x :: x in r <==> x in s && keep(x)
    ensures forall x :: multiset(r)[x] == if keep(x) then multiset(s)[x] else 0
  {
    if |s| == 0 then []
    else
      var init := s[..|s| - 1];
      assert s == init + [s[|s| - 1]];
      if keep(s[|s| - 1]) then Filter(init, keep) + [s[|s| - 1]] else Filter(init, keep)
  }

  /** Masking distributes over concatenation: nothing is reordered, only dropped. */
  lemma {:induction false} FilterConcat<T(!new)>(a: seq<T>, b: seq<T>, keep: T -> bool)
    ensures Filter(a + b, keep) == Filter(a, keep) + Filter(b, keep)
    decreases |b|
  {
    if |b| == 0 {
      assert a + b == a;
    } else {
      var init := b[..|b| - 1];
      assert (a + b)[..|a + b| - 1] == a + init;
      FilterConcat(a, init, keep);
    }
  }

  /** `s` is in non-decreasing order of `key`. */
  ghost predicate SortedBy<T>(s: seq<T>, key: T -> int)
  {
    forall i, j :: 0 <= i < j < |s| ==> key(s[i]) <= key(s[j])
  }

  /** Selecting from a sorted sequence leaves it sorted. */
  lemma {:induction false} FilterSorted<T(!new)>(s: seq<T>, keep: T -> bool, key: T -> int)
    requires SortedBy(s, key)
    ensures SortedBy(Filter(s, keep), key)
  {
    if |s| > 0 {
      var init := s[..|s| - 1];
      FilterSorted(init, keep, key);
      var f := Filter(init, keep);
      if keep(s[|s| - 1]) {
        forall i | 0 <= i < |f| ensures key(f[i]) <= key(s[|s| - 1]) {
          assert f[i] in init;
        }
      }
    }
  }

  /**
   * Masking a sequence without repeats keeps its order: the kept elements
   * are distinct and appear in the order of their positions in `s`.
   */
  lemma {:induction false} FilterKeepsOrder<T(!new)>(s: seq<T>, keep: T -> bool)
    requires Distinct(s)
    ensures Distinct(Filter(s, keep))
    ensures forall i, j :: 0 <= i < j < |Filter(s, keep)| ==>
              IndexOf(s, Filter(s, keep)[i]).value < IndexOf(s, Filter(s, keep)[j]).value
  {
    var r := Filter(s, keep);
    if |s| > 0 {
      var n := |s| - 1;
      var init := s[..n];
      DistinctPrefix(s, n);
      FilterKeepsOrder(init, keep);
      var f := Filter(init, keep);
      assert s[n] !in init;
      IndexOfPrefix(s, n);
      if keep(s[n]) {
        assert r == f + [s[n]];
        forall x | x in f ensures x in s[..n] && x in s {
          assert x in r;
        }
        AppendKeepsOrder(s, n, f);
      } else {
        assert r == f;
        forall i, j | 0 <= i < j < |r|
          ensures IndexOf(s, r[i]).value < IndexOf(s, r[j]).value
        {
          assert r[i] == f[i] && r[j] == f[j];
          assert r[i] in init && r[j] in init;
          assert IndexOf(s, r[i]) == IndexOf(init, r[i]);
          assert IndexOf(s, r[j]) == IndexOf(init, r[j]);
        }
      }
    }
  }

  /** A prefix of a sequence without repeats has none, and the next element is not in it. */
  lemma DistinctPrefix<T>(s: seq<T>, n: nat)
    requires Distinct(s) && n < |s|
    ensures Distinct(s[..n])
    ensures s[n] !in s[..n]
  {
    forall i, j | 0 <= i < j < n ensures s[..n][i] != s[..n][j] {
      assert s[..n][i] == s[i] && s[..n][j] == s[j];
    }
    forall j | 0 <= j < n ensures s[..n][j] != s[n] {
      assert s[..n][j] == s[j];
    }
  }

  /** Appending `s[n]` after ordered elements of `s[..n]` keeps them ordered and distinct. */
  lemma AppendKeepsOrder<T>(s: seq<T>, n: nat, f: seq<T>)
    requires n < |s| && s[n] !in s[..n]
    requires forall x :: x in f ==> x in s[..n] && x in s
    requires Distinct(f)
    requires forall i, j :: 0 <= i < j < |f| ==> IndexOf(s[..n], f[i]).value < IndexOf(s[..n], f[j]).value
    requires forall x :: x in s[..n] ==> IndexOf(s, x) == IndexOf(s[..n], x)
    requires IndexOf(s, s[n]) == Some(n)
    ensures Distinct(f + [s[n]])
    ensures forall i, j :: 0 <= i < j < |f| + 1 ==>
              IndexOf(s, (f + [s[n]])[i]).value < IndexOf(s, (f + [s[n]])[j]).value
  {
    var r := f + [s[n]];
    forall i, j | 0 <= i < j < |r|
      ensures IndexOf(s, r[i]).value < IndexOf(s, r[j]).value
    {
      assert r[i] == f[i] && f[i] in s[..n];
      if j < |f| {
        assert r[j] == f[j] && f[j] in s[..n];
      }
    }
    forall i, j | 0 <= i < j < |r| ensures r[i] != r[j] {
      assert IndexOf(s, r[i]).value < IndexOf(s, r[j]).value;
    }
  }

  /** The keys of the elements of `s`, position by position (a column of a frame). */
  function KeysOf<T>(s: seq<T>, key: T -> int): (ks: seq<int>)
    ensures |ks| == |s|
    ensures forall i :: 0 <= i < |s| ==> ks[i] == key(s[i])
  {
    seq(|s|, i requires 0 <= i < |s| => key(s[i]))
  }

  /** `s` is in strictly increasing order of `key`. */
  ghost predicate StrictlySortedBy<T>(s: seq<T>, key: T -> int)
  {
    forall i, j :: 0 <= i < j < |s| ==> key(s[i]) < key(s[j])
  }

  /** Selecting from a strictly sorted sequence leaves it strictly sorted. */
  lemma {:induction false} FilterStrictlySorted<T(!new)>(s: seq<T>, keep: T -> bool, key: T -> int)
    ensures StrictlySortedBy(s, key) ==> StrictlySortedBy(Filter(s, keep), key)
  {
    if |s| > 0 && StrictlySortedBy(s, key) {
      var init := s[..|s| - 1];
      FilterStrictlySorted(init, keep, key);
      var f := Filter(init, keep);
      if keep(s[|s| - 1]) {
        forall i | 0 <= i < |f| ensures key(f[i]) < key(s[|s| - 1]) {
          assert f[i] in init;
        }
      }
    }
  }

  /** The last element of a sorted sequence has the greatest key. */
  lemma SortedLast<T>(s: seq<T>, key: T -> int)
    requires SortedBy(s, key) && |s| > 0
    ensures forall x :: x in s ==> key(x) <= key(s[|s| - 1])
  {
    forall x | x in s ensures key(x) <= key(s[|s| - 1]) {
      var i :| 0 <= i < |s| && s[i] == x;
    }
  }

  /** Inserts `x` into sorted `s` after every element with a smaller key. */
  function InsertBy<T>(x: T, s: seq<T>, key: T -> int): (r: seq<T>)
    requires SortedBy(s, key)
    ensures SortedBy(r, key)
    ensures multiset(r) == multiset(s) + multiset{x}
    ensures |r| == |s| + 1
  {
    if |s| == 0 || key(x) <= key(s[0]) then [x] + s
    else
      var rest := InsertBy(x, s[1..], key);
      assert s == [s[0]] + s[1..];
      HeadBelowRest(x, s, rest, key);
      [s[0]] + rest
  }

  /** Every element of `rest` (drawn from `s[1..]` and `x`) has a key no smaller than `s[0]`'s. */
  lemma HeadBelowRest<T>(x: T, s: seq<T>, rest: seq<T>, key: T -> int)
    requires |s| > 0 && SortedBy(s, key) && key(s[0]) < key(x)
    requires SortedBy(rest, key)
    requires multiset(rest) == multiset(s[1..]) + multiset{x}
    ensures SortedBy([s[0]] + rest, key)
  {
    forall j | 0 <= j < |rest| ensures key(s[0]) <= key(rest[j]) {
      assert rest[j] in multiset(rest);
      if rest[j] != x {
        assert rest[j] in s[1..];
      }
    }
  }

  /** A permutation of `s` sorted by `key` (what `sort_values` promises; ties in no stated order). */
  function SortBy<T>(s: seq<T>, key: T -> int): (r: seq<T>)
    ensures SortedBy(r, key)
    ensures multiset(r) == multiset(s)
    ensures |r| == |s|
  {
    if |s| == 0 then []
    else
      assert s == [s[0]] + s[1..];
      InsertBy(s[0], SortBy(s[1..], key), key)
  }

  /** `s` rises strictly: sorted with no value repeated. */
  ghost predicate StrictlyIncreasing(s: seq<int>)
  {
    forall i, j :: 0 <= i < j < |s| ==> s[i] < s[j]
  }

  /** Drops the repeats of a sorted sequence, keeping one copy of each value. */
  function DedupSorted(s: seq<int>): (r: seq<int>)
    requires forall i, j :: 0 <= i < j < |s| ==> s[i] <= s[j]
    ensures StrictlyIncreasing(r)
    ensures forall x :: x in r <==> x in s
  {
    if |s| <= 1 then s
    else if s[0] == s[1] then
      assert s == [s[0]] + s[1..];
      DedupSorted(s[1..])
    else
      var rest := DedupSorted(s[1..]);
      assert s == [s[0]] + s[1..];
      assert forall j :: 0 <= j < |rest| ==> s[0] < rest[j] by {
        forall j | 0 <= j < |rest| ensures s[0] < rest[j] {
          assert rest[j] in s[1..];
          var m :| 0 <= m < |s[1..]| && s[1..][m] == rest[j];
          assert s[1] <= s[m + 1];
        }
      }
      [s[0]] + rest
  }

  function Id(x: int): int { x }

  /** The smallest element of a non-empty sequence (`Series.min`). */
  function Min(xs: seq<int>): (m: int)
    requires |xs| > 0
    ensures m in xs
    ensures forall x :: x in xs ==> m <= x
  {
    if |xs| == 1 then xs[0]
    else
      var m' := Min(xs[1..]);
      assert xs == [xs[0]] + xs[1..];
      if xs[0] <= m' then xs[0] else m'
  }
}
