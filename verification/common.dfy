/** Shared building blocks used by every part of the model: optional values,
    order-preserving filtering and counting, first-occurrence de-duplication
    and a descending sort by an integer key (the store's `sort({field: -1})`). */
module Common {

  /** An absent-or-present value; `None` stands for `undefined`/`null`. */
  datatype Option<+T> = None | Some(value: T) {
    function GetOr(default: T): T {
      if Some? then value else default
    }
  }

  /** JavaScript truthiness of an optional string: present and not empty. It is
      also the store's `required` test for a string field. */
  predicate Truthy(s: Option<string>) {
    s.Some? && s.value != ""
  }

  /** `a` can be obtained from `b` by deleting elements, keeping the order. */
  ghost predicate IsSubsequence<T>(a: seq<T>, b: seq<T>)
    decreases |b|
  {
    |a| == 0 ||
    (|b| > 0 && ((a[0] == b[0] && IsSubsequence(a[1..], b[1..])) || IsSubsequence(a, b[1..])))
  }

  /** No element occurs twice. */
  ghost predicate Distinct<T>(s: seq<T>) {
    forall i, j :: 0 <= i < j < |s| ==> s[i] != s[j]
  }

  /** A repetition-free sequence has as many distinct elements as positions. */
  lemma {:induction false} DistinctCardinality<T>(s: seq<T>)
    requires Distinct(s)
    ensures |set x | x in s| == |s|
  {
    if |s| > 0 {
      var t := s[1..];
      assert Distinct(t) by {
        forall i, j | 0 <= i < j < |t| ensures t[i] != t[j] {
          assert t[i] == s[i + 1] && t[j] == s[j + 1];
        }
      }
      DistinctCardinality(t);
      assert (set x | x in s) == (set x | x in t) + {s[0]};
      assert s[0] !in t by {
        forall k | 0 <= k < |t| ensures t[k] != s[0] {
          assert t[k] == s[k + 1];
        }
      }
    }
  }

  /** A permutation of a repetition-free sequence is repetition-free. */
  lemma DistinctPermutation<T>(a: seq<T>, b: seq<T>)
    requires multiset(a) == multiset(b)
    requires Distinct(a)
    ensures Distinct(b)
  {
    forall i, j | 0 <= i < j < |b| ensures b[i] != b[j] {
      if b[i] == b[j] {
        RepeatedMultiset(b, i, j);
        DistinctOnce(a, b[i]);
      }
    }
  }

  lemma {:induction false} DistinctOnce<T>(s: seq<T>, x: T)
    requires Distinct(s)
    ensures multiset(s)[x] <= 1
  {
    if |s| > 0 {
      var t := s[1..];
      assert s == [s[0]] + t;
      assert Distinct(t) by {
        forall i, j | 0 <= i < j < |t| ensures t[i] != t[j] {
          assert t[i] == s[i + 1] && t[j] == s[j + 1];
        }
      }
      DistinctOnce(t, x);
      if x == s[0] {
        assert x !in t by {
          forall k | 0 <= k < |t| ensures t[k] != s[0] {
            assert t[k] == s[k + 1];
          }
        }
      }
    }
  }

  lemma RepeatedMultiset<T>(s: seq<T>, i: nat, j: nat)
    requires i < j < |s| && s[i] == s[j]
    ensures multiset(s)[s[i]] >= 2
  {
    assert s == s[..j] + s[j..];
    assert s[i] in s[..j];
    assert s[j] in s[j..];
  }

  /** The number of elements of `s` satisfying `p` (JavaScript `s.filter(p).length`). */
  function Count<T>(s: seq<T>, p: T -> bool): (n: nat)
    ensures n <= |s|
  {
    if |s| == 0 then 0 else (if p(s[0]) then 1 else 0) + Count(s[1..], p)
  }

  /** JavaScript `s.filter(p)`: the elements satisfying `p`, in their original order. */
  function Filter<T>(s: seq<T>, p: T -> bool): (r: seq<T>)
    ensures |r| == Count(s, p)
    ensures forall i :: 0 <= i < |r| ==> r[i] in s && p(r[i])
    ensures forall i :: 0 <= i < |s| && p(s[i]) ==> s[i] in r
    ensures IsSubsequence(r, s)
  {
    if |s| == 0 then []
    else if p(s[0]) then
      var rest := Filter(s[1..], p);
      assert ([s[0]] + rest)[1..] == rest;
      [s[0]] + rest
    else Filter(s[1..], p)
  }

  /** Two successive filters keep exactly what one filter by the conjunction keeps. */
  lemma {:induction false} FilterFilter<T>(s: seq<T>, p: T -> bool, q: T -> bool, pq: T -> bool)
    requires forall x :: x in s ==> pq(x) == (p(x) && q(x))
    ensures Filter(Filter(s, p), q) == Filter(s, pq)
  {
    if |s| > 0 {
      assert forall x :: x in s[1..] ==> x in s;
      FilterFilter(s[1..], p, q, pq);
      if p(s[0]) {
        assert Filter(s, p) == [s[0]] + Filter(s[1..], p);
        assert (Filter(s, p))[1..] == Filter(s[1..], p);
      }
    }
  }

  /** A filter keeps nothing that was not there, and nothing more often. */
  lemma {:induction false} FilterSubMultiset<T>(s: seq<T>, p: T -> bool)
    ensures multiset(Filter(s, p)) <= multiset(s)
  {
    if |s| > 0 {
      FilterSubMultiset(s[1..], p);
      assert s == [s[0]] + s[1..];
    }
  }

  /** A filter whose predicate holds of every element changes nothing. */
  lemma {:induction false} FilterAll<T>(s: seq<T>, p: T -> bool)
    requires forall x :: x in s ==> p(x)
    ensures Filter(s, p) == s
  {
    if |s| > 0 {
      var t := s[1..];
      assert s == [s[0]] + t;
      assert forall x :: x in t ==> p(x) by {
        forall x | x in t ensures p(x) {
          assert x in s;
        }
      }
      FilterAll(t, p);
      assert p(s[0]);
      assert Filter(s, p) == [s[0]] + Filter(t, p);
    }
  }

  /** One stage of a filter chain: the filter runs only when it is active. */
  function Stage<T>(s: seq<T>, active: bool, p: T -> bool): seq<T> {
    if active then Filter(s, p) else s
  }

  /** A stage whose predicate accepts everything when inactive is its filter. */
  lemma StageIsFilter<T>(s: seq<T>, active: bool, p: T -> bool)
    requires !active ==> forall x :: p(x)
    ensures Stage(s, active, p) == Filter(s, p)
  {
    if !active {
      FilterAll(s, p);
    }
  }

  /** Predicates that agree on every element filter alike. */
  lemma {:induction false} FilterCongruent<T>(s: seq<T>, p: T -> bool, q: T -> bool)
    requires forall x :: x in s ==> p(x) == q(x)
    ensures Filter(s, p) == Filter(s, q)
  {
    if |s| > 0 {
      assert forall x :: x in s[1..] ==> x in s;
      FilterCongruent(s[1..], p, q);
    }
  }

  /** Some element satisfies `p` exactly when the count is positive. */
  lemma {:induction false} CountPositive<T>(s: seq<T>, p: T -> bool)
    ensures Count(s, p) > 0 <==> exists x :: x in s && p(x)
  {
    if |s| > 0 {
      CountPositive(s[1..], p);
      assert forall x :: x in s <==> x == s[0] || x in s[1..];
    }
  }

  /** Counting over a concatenation adds the counts of the parts. */
  lemma {:induction false} CountAppend<T>(a: seq<T>, b: seq<T>, p: T -> bool)
    ensures Count(a + b, p) == Count(a, p) + Count(b, p)
  {
    if |a| > 0 {
      CountAppend(a[1..], b, p);
      assert (a + b)[1..] == a[1..] + b;
    } else {
      assert a + b == b;
    }
  }

  /** Counting is monotone in the predicate. */
  lemma {:induction false} CountMonotone<T>(s: seq<T>, p: T -> bool, q: T -> bool)
    requires forall x :: x in s ==> (p(x) ==> q(x))
    ensures Count(s, p) <= Count(s, q)
  {
    if |s| > 0 {
      assert forall x :: x in s[1..] ==> x in s;
      CountMonotone(s[1..], p, q);
    }
  }

  /** The count of a disjoint union is the sum of the counts. */
  lemma {:induction false} CountDisjointUnion<T>(s: seq<T>, p: T -> bool, q: T -> bool, pq: T -> bool)
    requires forall x :: x in s ==> !(p(x) && q(x))
    requires forall x :: x in s ==> pq(x) == (p(x) || q(x))
    ensures Count(s, pq) == Count(s, p) + Count(s, q)
  {
    if |s| > 0 {
      assert forall x :: x in s[1..] ==> x in s;
      CountDisjointUnion(s[1..], p, q, pq);
    }
  }

  /** Counting `p` and counting its complement add up to the length. */
  lemma {:induction false} CountComplement<T>(s: seq<T>, p: T -> bool, q: T -> bool)
    requires forall x :: x in s ==> q(x) == !p(x)
    ensures Count(s, p) + Count(s, q) == |s|
  {
    if |s| > 0 {
      assert forall x :: x in s[1..] ==> x in s;
      CountComplement(s[1..], p, q);
    }
  }

  /** Predicates that agree on every element have the same count. */
  lemma {:induction false} CountCongruent<T>(s: seq<T>, p: T -> bool, q: T -> bool)
    requires forall x :: x in s ==> p(x) == q(x)
    ensures Count(s, p) == Count(s, q)
  {
    if |s| > 0 {
      assert forall x :: x in s[1..] ==> x in s;
      CountCongruent(s[1..], p, q);
    }
  }

  /** The position of the first occurrence of `x` in `s`. */
  function FirstIndex<T(==)>(s: seq<T>, x: T): (k: nat)
    requires x in s
    ensures k < |s| && s[k] == x && x !in s[..k]
  {
    if s[0] == x then 0
    else
      var k := FirstIndex(s[1..], x);
      assert s[..k + 1] == [s[0]] + s[1..][..k];
      k + 1
  }

  /** Extending a sequence does not move the first occurrence of an element already present. */
  lemma FirstIndexExtend<T>(s: seq<T>, y: T, x: T)
    requires x in s
    ensures x in s + [y] && FirstIndex(s + [y], x) == FirstIndex(s, x)
  {
    var t := s + [y];
    var k := FirstIndex(s, x);
    var k' := FirstIndex(t, x);
    assert t[k] == x;
    assert t[..k] == s[..k];
  }

  /** `r` holds exactly the elements of `s`, each once, in order of first occurrence. */
  ghost predicate DedupOf<T>(s: seq<T>, r: seq<T>) {
    && (forall i :: 0 <= i < |r| ==> r[i] in s)
    && (forall i :: 0 <= i < |s| ==> s[i] in r)
    && Distinct(r)
    && (forall i, j :: 0 <= i < j < |r| ==> FirstIndex(s, r[i]) < FirstIndex(s, r[j]))
  }

  /** One step of `Dedup`: appending an element not seen before keeps the result
      distinct and ordered by first occurrence. */
  lemma DedupAppend<T>(init: seq<T>, last: T, d: seq<T>)
    requires DedupOf(init, d)
    ensures DedupOf(init + [last], if last in init then d else d + [last])
  {
    if last in init {
      DedupAppendSeen(init, last, d);
    } else {
      DedupAppendNew(init, last, d);
    }
  }

  /** Extending `s` keeps the first occurrence of everything already in it. */
  lemma FirstIndicesKept<T>(init: seq<T>, last: T)
    ensures forall x :: x in init ==> FirstIndex(init + [last], x) == FirstIndex(init, x)
    ensures forall i :: 0 <= i < |init + [last]| ==> (init + [last])[i] in init || (init + [last])[i] == last
  {
    var s := init + [last];
    forall x | x in init ensures FirstIndex(s, x) == FirstIndex(init, x) {
      FirstIndexExtend(init, last, x);
    }
    forall i | 0 <= i < |s| ensures s[i] in init || s[i] == last {
      if i < |init| { assert s[i] == init[i]; }
    }
  }

  lemma DedupAppendSeen<T>(init: seq<T>, last: T, d: seq<T>)
    requires DedupOf(init, d) && last in init
    ensures DedupOf(init + [last], d)
  {
    var s := init + [last];
    FirstIndicesKept(init, last);
    assert forall i :: 0 <= i < |d| ==> d[i] in s;
    assert forall i :: 0 <= i < |s| ==> s[i] in d;
    assert forall i, j :: 0 <= i < j < |d| ==> FirstIndex(s, d[i]) < FirstIndex(s, d[j]);
  }

  lemma DedupAppendNew<T>(init: seq<T>, last: T, d: seq<T>)
    requires DedupOf(init, d) && last !in init
    ensures DedupOf(init + [last], d + [last])
  {
    var s := init + [last];
    var r := d + [last];
    FirstIndicesKept(init, last);
    assert s[..|init|] == init;
    assert FirstIndex(s, last) == |init|;
    forall i | 0 <= i < |r| ensures r[i] in s {
      if i < |d| { assert r[i] == d[i]; }
    }
    forall i | 0 <= i < |s| ensures s[i] in r {
      if i < |init| { assert s[i] == init[i]; }
    }
    forall i, j | 0 <= i < j < |r| ensures FirstIndex(s, r[i]) < FirstIndex(s, r[j]) && r[i] != r[j] {
      assert r[i] == d[i];
      if j < |d| { assert r[j] == d[j]; }
    }
  }

  /** The distinct elements of `s`, each once, in order of first occurrence
      (JavaScript `[...new Set(s)]`). */
  function Dedup<T(==)>(s: seq<T>): (r: seq<T>)
    ensures DedupOf(s, r)
  {
    if |s| == 0 then []
    else
      var init := s[..|s| - 1];
      var last := s[|s| - 1];
      assert s == init + [last];
      var d := Dedup(init);
      DedupAppend(init, last, d);
      if last in init then d else d + [last]
  }

  /** `s` is ordered by non-increasing `key`. */
  ghost predicate SortedDesc<T>(s: seq<T>, key: T -> int) {
    forall i, j :: 0 <= i < j < |s| ==> key(s[i]) >= key(s[j])
  }

  lemma SortedCons<T>(h: T, t: seq<T>, key: T -> int)
    requires SortedDesc(t, key)
    requires forall i :: 0 <= i < |t| ==> key(t[i]) <= key(h)
    ensures SortedDesc([h] + t, key)
  {
    var r := [h] + t;
    forall i, j | 0 <= i < j < |r| ensures key(r[i]) >= key(r[j]) {
      assert r[j] == t[j - 1];
      if i > 0 { assert r[i] == t[i - 1]; }
    }
  }

  function InsertDesc<T>(x: T, s: seq<T>, key: T -> int): (r: seq<T>)
    requires SortedDesc(s, key)
    ensures SortedDesc(r, key)
    ensures multiset(r) == multiset(s) + multiset{x}
    ensures |r| == |s| + 1
  {
    if |s| == 0 then [x]
    else if key(x) >= key(s[0]) then
      SortedCons(x, s, key);
      [x] + s
    else
      var rest := InsertDesc(x, s[1..], key);
      assert s == [s[0]] + s[1..];
      BoundedByHead(x, s, rest, key);
      SortedCons(s[0], rest, key);
      [s[0]] + rest
  }

  /** Inserting below the head of a sorted sequence keeps everything at or below the head. */
  lemma BoundedByHead<T>(x: T, s: seq<T>, rest: seq<T>, key: T -> int)
    requires |s| > 0 && SortedDesc(s, key) && key(x) < key(s[0])
    requires multiset(rest) == multiset(s[1..]) + multiset{x}
    ensures forall i :: 0 <= i < |rest| ==> key(rest[i]) <= key(s[0])
  {
    forall i | 0 <= i < |rest| ensures key(rest[i]) <= key(s[0]) {
      var y := rest[i];
      assert y in multiset(rest);
      if y != x {
        assert y in multiset(s[1..]);
        var k :| 0 <= k < |s[1..]| && s[1..][k] == y;
        assert s[k + 1] == y;
      }
    }
  }

  /** An insertion sort by non-increasing `key`: a sorted permutation of `s`. */
  function SortDesc<T>(s: seq<T>, key: T -> int): (r: seq<T>)
    ensures SortedDesc(r, key)
    ensures multiset(r) == multiset(s)
    ensures |r| == |s|
  {
    if |s| == 0 then []
    else
      assert s == [s[0]] + s[1..];
      InsertDesc(s[0], SortDesc(s[1..], key), key)
  }

  /** The first `n` elements of `s` (all of them when `s` is shorter). */
  function Take<T>(s: seq<T>, n: nat): (r: seq<T>)
    ensures |r| == if n < |s| then n else |s|
    ensures r == s[..|r|]
  {
    if n < |s| then s[..n] else s
  }

  /** The elements of `s` satisfying `p`, sorted by non-increasing `key`. */
  function SortedMatches<T>(s: seq<T>, p: T -> bool, key: T -> int): (r: seq<T>)
    ensures SortedDesc(r, key)
    ensures multiset(r) == multiset(Filter(s, p))
    ensures |r| == Count(s, p)
    ensures forall i :: 0 <= i < |r| ==> p(r[i])
  {
    var matching := Filter(s, p);
    var r := SortDesc(matching, key);
    assert forall i :: 0 <= i < |r| ==> r[i] in multiset(matching);
    r
  }

  /** A prefix of a sorted sequence whose elements all satisfy `p` is sorted and satisfies `p`. */
  lemma TakeKeeps<T>(s: seq<T>, n: nat, key: T -> int, p: T -> bool)
    requires SortedDesc(s, key)
    requires forall i :: 0 <= i < |s| ==> p(s[i])
    ensures SortedDesc(Take(s, n), key)
    ensures forall i :: 0 <= i < |Take(s, n)| ==> p(Take(s, n)[i])
  {
    var r := Take(s, n);
    assert forall i :: 0 <= i < |r| ==> r[i] == s[i];
  }

  /** An element of a sorted sequence that a prefix leaves out has no greater key than anything in the prefix. */
  lemma TakeOmitsLower<T>(s: seq<T>, n: nat, key: T -> int, x: T)
    requires SortedDesc(s, key) && x in s && x !in Take(s, n)
    ensures forall j :: 0 <= j < |Take(s, n)| ==> key(Take(s, n)[j]) >= key(x)
  {
    var r := Take(s, n);
    var k :| 0 <= k < |s| && s[k] == x;
    assert k >= |r| by {
      assert forall m :: 0 <= m < |r| ==> r[m] == s[m];
    }
    assert forall j :: 0 <= j < |r| ==> r[j] == s[j];
  }
}
