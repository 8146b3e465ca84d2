/** Sequence operations that stand for query-set operations: filter, distinct, set(), slicing. */
module Collections {

  /** No element occurs twice. */
  predicate NoDuplicates<T(==)>(s: seq<T>) {
    forall i, j :: 0 <= i < j < |s| ==> s[i] != s[j]
  }

  /** Every earlier element stands in relation `rel` to every later one. */
  predicate Pairwise<T>(s: seq<T>, rel: (T, T) -> bool) {
    forall i, j :: 0 <= i < j < |s| ==> rel(s[i], s[j])
  }

  /** The elements of `s` that satisfy `p`, in their order in `s` (a query-set `filter`). */
  function Filter<T(!new)>(s: seq<T>, p: T -> bool): (r: seq<T>)
    ensures |r| <= |s|
    ensures forall x :: x in r <==> x in s && p(x)
    decreases |s|
  {
    if |s| == 0 then []
    else
      assert s == s[..|s| - 1] + [s[|s| - 1]];
      Filter(s[..|s| - 1], p) + (if p(s[|s| - 1]) then [s[|s| - 1]] else [])
  }

  /** The first occurrence of every element of `s`, in order (a query-set `distinct`). */
  function Dedup<T(==,!new)>(s: seq<T>): (r: seq<T>)
    ensures |r| <= |s|
    ensures forall x :: x in r <==> x in s
    ensures NoDuplicates(r)
    decreases |s|
  {
    if |s| == 0 then []
    else
      assert s == s[..|s| - 1] + [s[|s| - 1]];
      var d := Dedup(s[..|s| - 1]);
      if s[|s| - 1] in d then d else d + [s[|s| - 1]]
  }

  /** The set of the elements of `s` (Python's `set(s)`). */
  function SetOf<T(!new)>(s: seq<T>): (r: set<T>)
    ensures forall x :: x in r <==> x in s
    ensures |r| <= |s|
  {
    if |s| == 0 then {} else {s[0]} + SetOf(s[1..])
  }

  /** The first `n` elements of `s`, or all of them when there are fewer (Python's `s[:n]`, n >= 0). */
  function Take<T>(s: seq<T>, n: nat): (r: seq<T>)
    ensures |r| == if n < |s| then n else |s|
    ensures forall i :: 0 <= i < |r| ==> r[i] == s[i]
  {
    if n < |s| then s[..n] else s
  }

  /** A non-empty sequence has no repeats iff its head is not in its tail and its tail has none. */
  lemma NoDuplicatesCons<T>(s: seq<T>)
    requires |s| > 0
    ensures NoDuplicates(s) <==> s[0] !in s[1..] && NoDuplicates(s[1..])
  {
    var t := s[1..];
    if s[0] in t {
      var k :| 0 <= k < |t| && t[k] == s[0];
      assert s[0] == s[k + 1];
    }
    if s[0] !in t && NoDuplicates(t) {
      forall i, j | 0 <= i < j < |s| ensures s[i] != s[j] {
        assert s[j] == t[j - 1];
        if i > 0 { assert s[i] == t[i - 1]; }
      }
    }
    if NoDuplicates(s) {
      forall i, j | 0 <= i < j < |t| ensures t[i] != t[j] {
        assert t[i] == s[i + 1] && t[j] == s[j + 1];
      }
    }
  }

  /** `len(set(s)) == len(s)` holds exactly when `s` has no repeated element. */
  lemma {:induction false} SetSizeIsLengthIffNoDuplicates<T(!new)>(s: seq<T>)
    ensures |SetOf(s)| == |s| <==> NoDuplicates(s)
  {
    if |s| > 0 {
      var t := s[1..];
      SetSizeIsLengthIffNoDuplicates(t);
      NoDuplicatesCons(s);
      if s[0] in t {
        assert SetOf(s) == SetOf(t);
      } else {
        assert s[0] !in SetOf(t);
        assert |SetOf(s)| == |SetOf(t)| + 1;
      }
    }
  }

  lemma {:induction false} FilterConcat<T(!new)>(a: seq<T>, b: seq<T>, p: T -> bool)
    ensures Filter(a + b, p) == Filter(a, p) + Filter(b, p)
    decreases |b|
  {
    if |b| == 0 {
      assert a + b == a;
    } else {
      var b' := b[..|b| - 1];
      assert (a + b)[..|a + b| - 1] == a + b';
      assert (a + b)[|a + b| - 1] == b[|b| - 1];
      FilterConcat(a, b', p);
    }
  }

  lemma {:induction false} FilterKeepsAll<T(!new)>(s: seq<T>, p: T -> bool)
    requires forall x :: x in s ==> p(x)
    ensures Filter(s, p) == s
    decreases |s|
  {
    if |s| > 0 {
      assert s == s[..|s| - 1] + [s[|s| - 1]];
      FilterKeepsAll(s[..|s| - 1], p);
    }
  }

  lemma {:induction false} FilterDropsAll<T(!new)>(s: seq<T>, p: T -> bool)
    requires forall x :: x in s ==> !p(x)
    ensures Filter(s, p) == []
    decreases |s|
  {
    if |s| > 0 {
      assert s == s[..|s| - 1] + [s[|s| - 1]];
      FilterDropsAll(s[..|s| - 1], p);
    }
  }

  /** Filtering by a weaker condition first changes nothing. */
  lemma {:induction false} FilterFilter<T(!new)>(s: seq<T>, p: T -> bool, q: T -> bool)
    requires forall x :: q(x) ==> p(x)
    ensures Filter(Filter(s, p), q) == Filter(s, q)
    decreases |s|
  {
    if |s| > 0 {
      var s' := s[..|s| - 1];
      var x := s[|s| - 1];
      FilterFilter(s', p, q);
      var tail := if p(x) then [x] else [];
      FilterConcat(Filter(s', p), tail, q);
      if p(x) {
        assert tail[..0] == [];
        assert Filter(tail, q) == (if q(x) then [x] else []);
      }
    }
  }

  lemma {:induction false} FilterPairwise<T(!new)>(s: seq<T>, p: T -> bool, rel: (T, T) -> bool)
    requires Pairwise(s, rel)
    ensures Pairwise(Filter(s, p), rel)
    decreases |s|
  {
    if |s| > 0 {
      var s' := s[..|s| - 1];
      var x := s[|s| - 1];
      assert Pairwise(s', rel) by {
        forall i, j | 0 <= i < j < |s'| ensures rel(s'[i], s'[j]) {
          assert s'[i] == s[i] && s'[j] == s[j];
        }
      }
      FilterPairwise(s', p, rel);
      var f := Filter(s', p);
      if p(x) {
        forall i | 0 <= i < |f| ensures rel(f[i], x) {
          assert f[i] in s';
          var k :| 0 <= k < |s'| && s'[k] == f[i];
          assert s[k] == f[i];
        }
        var r := f + [x];
        forall i, j | 0 <= i < j < |r| ensures rel(r[i], r[j]) {
          if j < |f| { assert r[i] == f[i] && r[j] == f[j]; } else { assert r[i] == f[i]; }
        }
      }
    }
  }

  lemma {:induction false} DedupKeepsNoDuplicates<T(!new)>(s: seq<T>)
    requires NoDuplicates(s)
    ensures Dedup(s) == s
    decreases |s|
  {
    if |s| > 0 {
      var s' := s[..|s| - 1];
      assert s == s' + [s[|s| - 1]];
      assert NoDuplicates(s') by {
        forall i, j | 0 <= i < j < |s'| ensures s'[i] != s'[j] {
          assert s'[i] == s[i] && s'[j] == s[j];
        }
      }
      DedupKeepsNoDuplicates(s');
      assert s[|s| - 1] !in s';
    }
  }

  lemma {:induction false} DedupPairwise<T(!new)>(s: seq<T>, rel: (T, T) -> bool)
    requires Pairwise(s, rel)
    ensures Pairwise(Dedup(s), rel)
    decreases |s|
  {
    if |s| > 0 {
      var s' := s[..|s| - 1];
      var x := s[|s| - 1];
      assert Pairwise(s', rel) by {
        forall i, j | 0 <= i < j < |s'| ensures rel(s'[i], s'[j]) {
          assert s'[i] == s[i] && s'[j] == s[j];
        }
      }
      DedupPairwise(s', rel);
      var d := Dedup(s');
      if x !in d {
        forall i | 0 <= i < |d| ensures rel(d[i], x) {
          assert d[i] in s';
          var k :| 0 <= k < |s'| && s'[k] == d[i];
          assert s[k] == d[i];
        }
        var r := d + [x];
        forall i, j | 0 <= i < j < |r| ensures rel(r[i], r[j]) {
          if j < |d| { assert r[i] == d[i] && r[j] == d[j]; } else { assert r[i] == d[i]; }
        }
      }
    }
  }

  /** Two sequences in relation within themselves and across form one sequence in relation. */
  lemma PairwiseConcat<T>(a: seq<T>, b: seq<T>, rel: (T, T) -> bool)
    requires Pairwise(a, rel) && Pairwise(b, rel)
    requires forall i, j :: 0 <= i < |a| && 0 <= j < |b| ==> rel(a[i], b[j])
    ensures Pairwise(a + b, rel)
  {
    var c := a + b;
    forall i, j | 0 <= i < j < |c| ensures rel(c[i], c[j]) {
      if j < |a| {
        assert c[i] == a[i] && c[j] == a[j];
      } else if i >= |a| {
        assert c[i] == b[i - |a|] && c[j] == b[j - |a|];
      } else {
        assert c[i] == a[i] && c[j] == b[j - |a|];
      }
    }
  }
}
