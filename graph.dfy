/**
 * The edge arrays of an ontology in compressed-sparse-row layout, as a
 * value: paths along edges of one type, and the depth-first search that
 * exists_path runs over them.
 */
module Graph {
  import opened Edges

  /** offset_to_edge_, edge_to_ and edge_type_list_. */
  datatype Arrays = Arrays(offsets: seq<nat>, to: seq<nat>, types: seq<EdgeType>)

  /**
   * n vertices; the block of vertex v is the slots offsets[v] up to
   * offsets[v + 1], and every slot names a vertex.
   */
  ghost predicate IsCsr(g: Arrays, n: nat) {
    |g.offsets| == n + 1 && g.offsets[0] == 0 && g.offsets[n] == |g.to|
    && (forall v, w :: 0 <= v <= w <= n ==> g.offsets[v] <= g.offsets[w])
    && |g.types| == |g.to|
    && (forall k :: 0 <= k < |g.to| ==> g.to[k] < n)
  }

  /** Slot k lies in the block of vertex v. */
  predicate InBlock(g: Arrays, v: nat, k: nat) {
    v + 1 < |g.offsets| && g.offsets[v] <= k < g.offsets[v + 1]
  }

  lemma BlockInRange(g: Arrays, n: nat, v: nat, k: nat)
    requires IsCsr(g, n) && InBlock(g, v, k)
    ensures v < n && k < |g.to| && k < |g.types| && g.to[k] < n
  {
    assert g.offsets[v + 1] <= g.offsets[n];
  }

  // ------------------------------------------------------------- paths

  /** ks is a chain of slots of type t leading from vertex v to vertex d. */
  ghost predicate IsPath(g: Arrays, ks: seq<nat>, v: nat, d: nat, t: EdgeType)
    decreases |ks|
  {
    |ks| > 0 && InBlock(g, v, ks[0]) && ks[0] < |g.to| && ks[0] < |g.types| && g.types[ks[0]] == t
    && if |ks| == 1 then g.to[ks[0]] == d else IsPath(g, ks[1..], g.to[ks[0]], d, t)
  }

  /** d can be reached from v along one or more edges of type t. */
  ghost predicate Reaches(g: Arrays, v: nat, d: nat, t: EdgeType) {
    exists ks :: IsPath(g, ks, v, d, t)
  }

  /** Every t-edge lowers rank: the t-subgraph has no cycle. */
  ghost predicate Acyclic(g: Arrays, n: nat, t: EdgeType, rank: seq<nat>) {
    |rank| == n
    && forall v: nat, k: nat ::
         v < n && InBlock(g, v, k) && k < |g.to| && k < |g.types| && g.types[k] == t && g.to[k] < n ==> rank[g.to[k]] < rank[v]
  }

  /** A path followed by one more t-slot out of its end is a path. */
  lemma {:induction false} PathSnoc(g: Arrays, ks: seq<nat>, v: nat, u: nat, k: nat, t: EdgeType)
    requires IsPath(g, ks, v, u, t)
    requires InBlock(g, u, k) && k < |g.to| && k < |g.types| && g.types[k] == t
    ensures IsPath(g, ks + [k], v, g.to[k], t)
    decreases |ks|
  {
    var ks' := ks + [k];
    assert ks'[0] == ks[0];
    if |ks| == 1 {
      assert ks'[1..] == [k];
    } else {
      assert ks'[1..] == ks[1..] + [k];
      PathSnoc(g, ks[1..], g.to[ks[0]], u, k, t);
    }
  }

  /** Two paths meeting at a vertex join into one. */
  lemma {:induction false} PathConcat(g: Arrays, ks: seq<nat>, ls: seq<nat>, u: nat, v: nat, w: nat, t: EdgeType)
    requires IsPath(g, ks, u, v, t) && IsPath(g, ls, v, w, t)
    ensures IsPath(g, ks + ls, u, w, t)
    decreases |ks|
  {
    var js := ks + ls;
    assert js[0] == ks[0];
    if |ks| == 1 {
      assert js[1..] == ls;
    } else {
      assert js[1..] == ks[1..] + ls;
      PathConcat(g, ks[1..], ls, g.to[ks[0]], v, w, t);
    }
  }

  /** Reachability is transitive. */
  lemma ReachesTransitive(g: Arrays, u: nat, v: nat, w: nat, t: EdgeType)
    requires Reaches(g, u, v, t) && Reaches(g, v, w, t)
    ensures Reaches(g, u, w, t)
  {
    var ks :| IsPath(g, ks, u, v, t);
    var ls :| IsPath(g, ls, v, w, t);
    PathConcat(g, ks, ls, u, v, w, t);
  }

  /** Following a t-slot out of a vertex that is src or reached from src reaches its destination. */
  lemma ReachStep(g: Arrays, src: nat, u: nat, k: nat, t: EdgeType)
    requires InBlock(g, u, k) && k < |g.to| && k < |g.types| && g.types[k] == t
    requires u == src || Reaches(g, src, u, t)
    ensures Reaches(g, src, g.to[k], t)
  {
    if u == src {
      assert IsPath(g, [k], src, g.to[k], t);
    } else {
      var ks :| IsPath(g, ks, src, u, t);
      PathSnoc(g, ks, src, u, k, t);
    }
  }

  /** Every path leaves v through a t-slot of v's block that ends at d or reaches it. */
  lemma ReachesFirstStep(g: Arrays, v: nat, d: nat, t: EdgeType) returns (j: nat)
    requires Reaches(g, v, d, t)
    ensures InBlock(g, v, j) && j < |g.to| && j < |g.types| && g.types[j] == t
    ensures g.to[j] == d || Reaches(g, g.to[j], d, t)
  {
    var ks :| IsPath(g, ks, v, d, t);
    j := ks[0];
    if |ks| > 1 {
      assert IsPath(g, ks[1..], g.to[j], d, t);
    }
  }

  /** Along a path the rank drops. */
  lemma {:induction false} PathLowersRank(g: Arrays, n: nat, ks: seq<nat>, v: nat, d: nat, t: EdgeType, rank: seq<nat>)
    requires IsCsr(g, n) && Acyclic(g, n, t, rank) && IsPath(g, ks, v, d, t)
    ensures v < n && d < n && rank[d] < rank[v]
    decreases |ks|
  {
    BlockInRange(g, n, v, ks[0]);
    if |ks| > 1 {
      PathLowersRank(g, n, ks[1..], g.to[ks[0]], d, t, rank);
    }
  }

  /** Without a cycle no vertex reaches itself. */
  lemma NoPathToSelf(g: Arrays, n: nat, v: nat, t: EdgeType, rank: seq<nat>)
    requires IsCsr(g, n) && Acyclic(g, n, t, rank)
    ensures !Reaches(g, v, v, t)
  {
    if Reaches(g, v, v, t) {
      var ks :| IsPath(g, ks, v, v, t);
      PathLowersRank(g, n, ks, v, v, t, rank);
    }
  }

  // ------------------------------------------------------------ blocks

  /** The destinations of the t-slots lo up to hi, in slot order. */
  function Targets(g: Arrays, lo: nat, hi: nat, t: EdgeType): seq<nat>
    requires hi <= |g.to| && |g.types| == |g.to|
    decreases hi
  {
    if hi <= lo then []
    else Targets(g, lo, hi - 1, t) + (if g.types[hi - 1] == t then [g.to[hi - 1]] else [])
  }

  lemma {:induction false} TargetsMembers(g: Arrays, lo: nat, hi: nat, t: EdgeType, x: nat)
    requires hi <= |g.to| && |g.types| == |g.to|
    ensures x in Targets(g, lo, hi, t) <==> exists k :: lo <= k < hi && g.types[k] == t && g.to[k] == x
    decreases hi
  {
    if hi > lo {
      TargetsMembers(g, lo, hi - 1, t, x);
    }
  }

  /** The vertices one t-edge away from v are the targets listed in v's block. */
  lemma BlockTargets(g: Arrays, n: nat, v: nat, t: EdgeType, x: nat)
    requires IsCsr(g, n) && v < n
    ensures g.offsets[v + 1] <= |g.to|
    ensures x in Targets(g, g.offsets[v], g.offsets[v + 1], t) <==>
      exists k: nat :: InBlock(g, v, k) && k < |g.to| && g.types[k] == t && g.to[k] == x
  {
    assert g.offsets[v + 1] <= g.offsets[n];
    TargetsMembers(g, g.offsets[v], g.offsets[v + 1], t, x);
  }

  // ------------------------------------------------------------ search

  /**
   * How many pushes a search from v makes, at most, plus one: finite
   * because every t-edge lowers rank.
   */
  ghost function Weight(g: Arrays, n: nat, t: EdgeType, rank: seq<nat>, v: nat): nat
    requires IsCsr(g, n) && Acyclic(g, n, t, rank) && v < n
    decreases rank[v], 1, 0
  {
    1 + BlockWeight(g, n, t, rank, v, g.offsets[v])
  }

  ghost function BlockWeight(g: Arrays, n: nat, t: EdgeType, rank: seq<nat>, v: nat, j: nat): nat
    requires IsCsr(g, n) && Acyclic(g, n, t, rank) && v < n
    requires g.offsets[v] <= j <= g.offsets[v + 1]
    decreases rank[v], 0, g.offsets[v + 1] - j
  {
    if j == g.offsets[v + 1] then 0
    else
      BlockInRange(g, n, v, j);
      (if g.types[j] == t then Weight(g, n, t, rank, g.to[j]) else 0) + BlockWeight(g, n, t, rank, v, j + 1)
  }

  /** Every vertex on the stack is a vertex, and src or reachable from it. */
  ghost predicate Sound(g: Arrays, n: nat, st: seq<nat>, src: nat, t: EdgeType)
    decreases |st|
  {
    |st| == 0
    || (Sound(g, n, st[..|st| - 1], src, t) && st[|st| - 1] < n
        && (st[|st| - 1] == src || Reaches(g, src, st[|st| - 1], t)))
  }

  /** Some vertex on the stack reaches d. */
  ghost predicate Covers(g: Arrays, st: seq<nat>, d: nat, t: EdgeType)
    decreases |st|
  {
    |st| > 0 && (Covers(g, st[..|st| - 1], d, t) || Reaches(g, st[|st| - 1], d, t))
  }

  /** The weights of the vertices on the stack. */
  ghost function StackWeight(g: Arrays, n: nat, t: EdgeType, rank: seq<nat>, st: seq<nat>, src: nat): nat
    requires IsCsr(g, n) && Acyclic(g, n, t, rank) && Sound(g, n, st, src, t)
    decreases |st|
  {
    if |st| == 0 then 0 else StackWeight(g, n, t, rank, st[..|st| - 1], src) + Weight(g, n, t, rank, st[|st| - 1])
  }

  /** Pushing a vertex reached from src keeps the stack sound and adds what the vertex reaches. */
  lemma PushOne(g: Arrays, n: nat, st: seq<nat>, src: nat, v: nat, d: nat, t: EdgeType)
    requires Sound(g, n, st, src, t) && v < n && (v == src || Reaches(g, src, v, t))
    ensures Sound(g, n, st + [v], src, t)
    ensures Covers(g, st + [v], d, t) <==> Covers(g, st, d, t) || Reaches(g, v, d, t)
  {
    assert (st + [v])[..|st|] == st;
  }

  /** Popping the top vertex v keeps the rest sound and hands its weight and its paths to v. */
  lemma PopKeeps(g: Arrays, n: nat, t: EdgeType, rank: seq<nat>, st: seq<nat>, src: nat, d: nat)
    requires IsCsr(g, n) && Acyclic(g, n, t, rank) && Sound(g, n, st, src, t) && |st| > 0
    ensures var v, rest := st[|st| - 1], st[..|st| - 1];
      v < n && (v == src || Reaches(g, src, v, t)) && Sound(g, n, rest, src, t)
      && StackWeight(g, n, t, rank, st, src)
         == StackWeight(g, n, t, rank, rest, src) + 1 + BlockWeight(g, n, t, rank, v, g.offsets[v])
      && (Covers(g, st, d, t) <==> Covers(g, rest, d, t) || Reaches(g, v, d, t))
  {
  }

  /** The targets of v's t-slots up to hi are reached from src when v is. */
  lemma {:induction false} TargetsReached(g: Arrays, n: nat, src: nat, v: nat, hi: nat, t: EdgeType)
    requires IsCsr(g, n) && v < n && g.offsets[v] <= hi <= g.offsets[v + 1]
    requires v == src || Reaches(g, src, v, t)
    ensures hi <= |g.to|
    ensures forall x :: x in Targets(g, g.offsets[v], hi, t) ==> x < n && Reaches(g, src, x, t)
    decreases hi
  {
    assert g.offsets[v + 1] <= g.offsets[n];
    if hi > g.offsets[v] {
      TargetsReached(g, n, src, v, hi - 1, t);
      assert InBlock(g, v, hi - 1);
      if g.types[hi - 1] == t {
        ReachStep(g, src, v, hi - 1, t);
      }
    }
  }

  /** Pushing vertices reached from src keeps the stack sound and adds what they reach. */
  lemma {:induction false} PushAll(g: Arrays, n: nat, st: seq<nat>, src: nat, ts: seq<nat>, d: nat, t: EdgeType)
    requires Sound(g, n, st, src, t)
    requires forall x :: x in ts ==> x < n && Reaches(g, src, x, t)
    ensures Sound(g, n, st + ts, src, t)
    ensures Covers(g, st + ts, d, t) <==> Covers(g, st, d, t) || exists x :: x in ts && Reaches(g, x, d, t)
    decreases |ts|
  {
    if |ts| > 0 {
      var ts', y := ts[..|ts| - 1], ts[|ts| - 1];
      assert ts == ts' + [y];
      assert y in ts;
      assert forall x :: x in ts' ==> x in ts;
      PushAll(g, n, st, src, ts', d, t);
      assert st + ts == (st + ts') + [y];
      PushOne(g, n, st + ts', src, y, d, t);
      assert (exists x :: x in ts && Reaches(g, x, d, t))
        <==> (exists x :: x in ts' && Reaches(g, x, d, t)) || Reaches(g, y, d, t) by {
        if exists x :: x in ts && Reaches(g, x, d, t) {
          var x :| x in ts && Reaches(g, x, d, t);
          if x != y {
            assert x in ts';
          }
        }
        if exists x :: x in ts' && Reaches(g, x, d, t) {
          var x :| x in ts' && Reaches(g, x, d, t);
          assert x in ts;
        }
      }
    } else {
      assert st + ts == st;
    }
  }

  /** The stack grown by the targets of v's slots up to hi weighs what those slots weighed in v's block. */
  lemma {:induction false} PushTargetsWeight(g: Arrays, n: nat, t: EdgeType, rank: seq<nat>, st: seq<nat>, src: nat, v: nat, hi: nat)
    requires IsCsr(g, n) && Acyclic(g, n, t, rank) && v < n && g.offsets[v] <= hi <= g.offsets[v + 1] && hi <= |g.to|
    requires Sound(g, n, st, src, t) && Sound(g, n, st + Targets(g, g.offsets[v], hi, t), src, t)
    ensures StackWeight(g, n, t, rank, st + Targets(g, g.offsets[v], hi, t), src) + BlockWeight(g, n, t, rank, v, hi)
      == StackWeight(g, n, t, rank, st, src) + BlockWeight(g, n, t, rank, v, g.offsets[v])
    decreases hi
  {
    if hi > g.offsets[v] {
      var pre := st + Targets(g, g.offsets[v], hi - 1, t);
      BlockInRange(g, n, v, hi - 1);
      if g.types[hi - 1] == t {
        var y := g.to[hi - 1];
        assert st + Targets(g, g.offsets[v], hi, t) == pre + [y];
        assert (pre + [y])[..|pre|] == pre;
      } else {
        assert st + Targets(g, g.offsets[v], hi, t) == pre;
      }
      PushTargetsWeight(g, n, t, rank, st, src, v, hi - 1);
    } else {
      assert st + Targets(g, g.offsets[v], hi, t) == st;
    }
  }

  /**
   * What one turn of the search does to the stack: pushing the targets of
   * v's block keeps it sound, adds v's block weight, and, when d is not
   * among the targets, hands on every path from v to d.
   */
  lemma ScanEffect(g: Arrays, n: nat, t: EdgeType, rank: seq<nat>, st: seq<nat>, src: nat, v: nat, d: nat)
    requires IsCsr(g, n) && Acyclic(g, n, t, rank) && v < n
    requires Sound(g, n, st, src, t) && (v == src || Reaches(g, src, v, t))
    ensures g.offsets[v + 1] <= |g.to|
    ensures var ts := Targets(g, g.offsets[v], g.offsets[v + 1], t);
      (d in ts ==> Reaches(g, src, d, t))
      && Sound(g, n, st + ts, src, t)
      && StackWeight(g, n, t, rank, st + ts, src)
         == StackWeight(g, n, t, rank, st, src) + BlockWeight(g, n, t, rank, v, g.offsets[v])
      && (d !in ts && (Covers(g, st, d, t) || Reaches(g, v, d, t)) ==> Covers(g, st + ts, d, t))
  {
    var lo, hi := g.offsets[v], g.offsets[v + 1];
    var ts := Targets(g, lo, hi, t);
    TargetsReached(g, n, src, v, hi, t);
    PushAll(g, n, st, src, ts, d, t);
    PushTargetsWeight(g, n, t, rank, st, src, v, hi);
    if d !in ts && Reaches(g, v, d, t) {
      var j := ReachesFirstStep(g, v, d, t);
      TargetsMembers(g, lo, hi, t, g.to[j]);
      assert g.to[j] in ts;
    }
  }

  /**
   * One turn of the search: walk the block of index, stop on a t-edge
   * into destIdx, and otherwise push the destination of every t-edge.
   */
  method ScanBlock(g: Arrays, n: nat, index: nat, destIdx: nat, etype: EdgeType, st0: seq<nat>)
    returns (found: bool, st: seq<nat>)
    requires IsCsr(g, n) && index < n
    ensures g.offsets[index + 1] <= |g.to|
    ensures found <==> destIdx in Targets(g, g.offsets[index], g.offsets[index + 1], etype)
    ensures !found ==> st == st0 + Targets(g, g.offsets[index], g.offsets[index + 1], etype)
  {
    assert g.offsets[index + 1] <= g.offsets[n];
    st := st0;
    var i := g.offsets[index];
    found := false;
    while i < g.offsets[1 + index]
      invariant !found
      invariant g.offsets[index] <= i <= g.offsets[index + 1]
      invariant st == st0 + Targets(g, g.offsets[index], i, etype)
      invariant destIdx !in Targets(g, g.offsets[index], i, etype)
    {
      var nextNode := g.to[i];
      if g.types[i] != etype {
        i := i + 1;
        continue;
      }
      if nextNode == destIdx {
        found := true;
        TargetsMembers(g, g.offsets[index], g.offsets[index + 1], etype, destIdx);
        break;
      }
      st := st + [nextNode];
      i := i + 1;
    }
    if !found {
      assert i == g.offsets[index + 1];
    }
  }

  /**
   * The search of exists_path from vertex index: a stack of vertices
   * still to expand and no visited set, so it ends only because the
   * etype-subgraph has no cycle, which rank witnesses. True exactly when
   * destIdx is reachable from index along one or more etype-edges.
   */
  method Search(g: Arrays, n: nat, index: nat, destIdx: nat, etype: EdgeType, ghost rank: seq<nat>)
    returns (found: bool)
    requires IsCsr(g, n) && Acyclic(g, n, etype, rank) && index < n
    ensures found <==> Reaches(g, index, destIdx, etype)
  {
    ghost var src := index;
    PushOne(g, n, [], src, index, destIdx, etype);
    var st: seq<nat> := [] + [index];
    while |st| > 0
      invariant Sound(g, n, st, src, etype)
      invariant Reaches(g, src, destIdx, etype) ==> Covers(g, st, destIdx, etype)
      decreases StackWeight(g, n, etype, rank, st, src)
    {
      ghost var before := StackWeight(g, n, etype, rank, st, src);
      PopKeeps(g, n, etype, rank, st, src, destIdx);
      var v := st[|st| - 1];
      st := st[..|st| - 1];
      ScanEffect(g, n, etype, rank, st, src, v, destIdx);
      var hit;
      hit, st := ScanBlock(g, n, v, destIdx, etype, st);
      if hit {
        return true;
      }
      assert StackWeight(g, n, etype, rank, st, src) < before;
    }
    return false;
  }
}
