/**
 * The pure bookkeeping behind the compressed sparse row (CSR) graph:
 * sorting by a two-string key, counting edges per source index, and the
 * offset table whose consecutive entries delimit each vertex's block.
 */
module Csr {
  import opened Strings

  // ------------------------------------------------------------- sorting

  /** Keys compare by their first string, then by their second. */
  predicate PairLeq(a: (string, string), b: (string, string)) {
    LexLess(a.0, b.0) || (a.0 == b.0 && LexLessEq(a.1, b.1))
  }

  lemma PairLeqTotalPreorder(a: (string, string), b: (string, string), c: (string, string))
    ensures PairLeq(a, a)
    ensures PairLeq(a, b) || PairLeq(b, a)
    ensures PairLeq(a, b) && PairLeq(b, c) ==> PairLeq(a, c)
  {
    LexLessTotal(a.0, b.0);
    LexLessTotal(a.1, b.1);
    if PairLeq(a, b) && PairLeq(b, c) {
      if LexLess(a.0, b.0) && LexLess(b.0, c.0) { LexLessTransitive(a.0, b.0, c.0); }
      if a.0 == b.0 && b.0 == c.0 && LexLess(a.1, b.1) && LexLess(b.1, c.1) {
        LexLessTransitive(a.1, b.1, c.1);
      }
    }
  }

  predicate SortedBy<T>(s: seq<T>, key: T -> (string, string)) {
    forall i, j :: 0 <= i < j < |s| ==> PairLeq(key(s[i]), key(s[j]))
  }

  /** Insertion of x into a sorted sequence, in front of the first element not below it. */
  function InsertBy<T(==)>(x: T, s: seq<T>, key: T -> (string, string)): (r: seq<T>)
    requires SortedBy(s, key)
    ensures SortedBy(r, key)
    ensures multiset(r) == multiset(s) + multiset{x}
  {
    if |s| == 0 then [x]
    else if PairLeq(key(x), key(s[0])) then
      forall j | 0 <= j < |s| ensures PairLeq(key(x), key(s[j])) {
        PairLeqTotalPreorder(key(x), key(s[0]), key(s[j]));
      }
      assert ([x] + s)[1..] == s;
      [x] + s
    else
      PairLeqTotalPreorder(key(x), key(s[0]), key(s[0]));
      var t := InsertBy(x, s[1..], key);
      assert s == [s[0]] + s[1..];
      forall j | 0 <= j < |t| ensures PairLeq(key(s[0]), key(t[j])) {
        assert t[j] in multiset(t);
        if t[j] != x {
          assert t[j] in multiset(s[1..]);
          var k :| 0 <= k < |s[1..]| && s[1..][k] == t[j];
          assert s[k + 1] == t[j];
        }
      }
      [s[0]] + t
  }

  /**
   * The order std::sort leaves the elements in: sorted by key and a
   * permutation of the input. Elements with equal keys come out in the
   * order of this insertion sort; std::sort does not specify that order.
   */
  function SortBy<T(==)>(s: seq<T>, key: T -> (string, string)): (r: seq<T>)
    ensures SortedBy(r, key)
    ensures multiset(r) == multiset(s)
    ensures |r| == |s|
  {
    if |s| == 0 then []
    else
      assert s == s[..|s| - 1] + [s[|s| - 1]];
      var r := InsertBy(s[|s| - 1], SortBy(s[..|s| - 1], key), key);
      assert |r| == |multiset(r)|;
      r
  }

  // ------------------------------------------------------------ counting

  /** How many entries of s lie below v: the offset of vertex v's block. */
  function CountLess(s: seq<nat>, v: nat): (c: nat)
    ensures c <= |s|
  {
    if |s| == 0 then 0 else CountLess(s[..|s| - 1], v) + (if s[|s| - 1] < v then 1 else 0)
  }

  /** The map index2edge_count: each value of s and how often it occurs. */
  function CountMap(s: seq<nat>): map<nat, nat> {
    if |s| == 0 then map[]
    else
      var m := CountMap(s[..|s| - 1]);
      var x := s[|s| - 1];
      m[x := (if x in m then m[x] else 0) + 1]
  }

  /** The map holds exactly the values of s, each with its number of occurrences. */
  lemma {:induction false} CountMapCounts(s: seq<nat>)
    ensures forall x :: x in CountMap(s) <==> x in s
    ensures forall x :: x in CountMap(s) ==> CountMap(s)[x] == multiset(s)[x]
  {
    if |s| > 0 {
      var p := s[..|s| - 1];
      assert s == p + [s[|s| - 1]];
      CountMapCounts(p);
    }
  }

  /** Moving the bound up by one adds the occurrences of the old bound. */
  lemma {:induction false} CountLessStep(s: seq<nat>, v: nat)
    ensures CountLess(s, v + 1) == CountLess(s, v) + multiset(s)[v]
  {
    if |s| > 0 {
      var p := s[..|s| - 1];
      assert s == p + [s[|s| - 1]];
      CountLessStep(p, v);
    }
  }

  lemma {:induction false} CountLessAll(s: seq<nat>, n: nat)
    requires forall k :: 0 <= k < |s| ==> s[k] < n
    ensures CountLess(s, n) == |s|
  {
    if |s| > 0 { CountLessAll(s[..|s| - 1], n); }
  }

  lemma {:induction false} CountLessZero(s: seq<nat>)
    ensures CountLess(s, 0) == 0
  {
    if |s| > 0 { CountLessZero(s[..|s| - 1]); }
  }

  predicate NonDecreasing(s: seq<nat>) {
    forall i, j :: 0 <= i < j < |s| ==> s[i] <= s[j]
  }

  /** In a non-decreasing sequence the entries below v are exactly its first CountLess(s, v). */
  lemma {:induction false} CountLessSplits(s: seq<nat>, v: nat, k: nat)
    requires NonDecreasing(s) && k < |s|
    ensures s[k] < v <==> k < CountLess(s, v)
  {
    var p := s[..|s| - 1];
    if k < |s| - 1 {
      CountLessSplits(p, v, k);
      if s[|s| - 1] < v {
        assert s[k] <= s[|s| - 1];
      }
    } else if s[|s| - 1] >= v {
      if CountLess(p, v) == |p| && |p| > 0 {
        CountLessSplits(p, v, |p| - 1);
      }
    } else {
      forall j | 0 <= j < |p| ensures p[j] < v { assert s[j] <= s[|s| - 1]; }
      CountLessAll(p, v);
    }
  }

  lemma {:induction false} CountLessMonotone(s: seq<nat>, v: nat, w: nat)
    requires v <= w
    ensures CountLess(s, v) <= CountLess(s, w)
  {
    if |s| > 0 { CountLessMonotone(s[..|s| - 1], v, w); }
  }

  /** The offset table of a source list: entry v is the number of edges whose source is below v. */
  function Offsets(s: seq<nat>, n: nat): (r: seq<nat>)
    ensures |r| == n + 1
    ensures forall v :: 0 <= v <= n ==> r[v] == CountLess(s, v)
  {
    seq(n + 1, v requires 0 <= v <= n => CountLess(s, v))
  }

  /**
   * With sources sorted and below n, offsets start at 0, end at the
   * number of edges, never decrease, and slot k lies in the block of its
   * own source: offsets[s[k]] <= k < offsets[s[k] + 1].
   */
  lemma OffsetsDelimitBlocks(s: seq<nat>, n: nat)
    requires NonDecreasing(s)
    requires forall k :: 0 <= k < |s| ==> s[k] < n
    ensures Offsets(s, n)[0] == 0 && Offsets(s, n)[n] == |s|
    ensures forall v, w :: 0 <= v <= w <= n ==> Offsets(s, n)[v] <= Offsets(s, n)[w]
    ensures forall k :: 0 <= k < |s| ==> Offsets(s, n)[s[k]] <= k < Offsets(s, n)[s[k] + 1]
  {
    CountLessZero(s);
    CountLessAll(s, n);
    forall v, w | 0 <= v <= w <= n ensures CountLess(s, v) <= CountLess(s, w) {
      CountLessMonotone(s, v, w);
    }
    forall k | 0 <= k < |s| ensures CountLess(s, s[k]) <= k < CountLess(s, s[k] + 1) {
      CountLessSplits(s, s[k], k);
      CountLessSplits(s, s[k] + 1, k);
    }
  }
}
