/** The dependency graph that orders the tables, and the depth-first sort over it
    (components/nxpod-db/src/tables.ts). */
module Graphs {

  /** The nodes of `p` follow one another along the edges. */
  ghost predicate IsPath<E(!new)>(edges: E -> seq<E>, p: seq<E>) {
    forall i | 0 <= i < |p| - 1 :: p[i + 1] in edges(p[i])
  }

  ghost predicate IsCycle<E(!new)>(edges: E -> seq<E>, p: seq<E>) {
    |p| >= 2 && p[0] == p[|p| - 1] && IsPath(edges, p)
  }

  /** Some node of `values` lies on a cycle. */
  ghost predicate Cyclic<E(!new)>(values: seq<E>, edges: E -> seq<E>) {
    exists p: seq<E> :: IsCycle(edges, p) && p[0] in values
  }

  ghost predicate Closed<E(!new)>(values: seq<E>, edges: E -> seq<E>) {
    forall e, d | e in values && d in edges(e) :: d in values
  }

  ghost predicate NoDuplicates<E>(s: seq<E>) {
    forall i, j | 0 <= i < j < |s| :: s[i] != s[j]
  }

  /** Every target of an edge stands strictly before the edge's source. */
  ghost predicate DependenciesFirst<E(!new)>(edges: E -> seq<E>, s: seq<E>) {
    forall i, d | 0 <= i < |s| && d in edges(s[i]) :: d in s[..i]
  }

  lemma {:induction false} PathGoesBack<E(!new)>(edges: E -> seq<E>, s: seq<E>, p: seq<E>, from: nat) returns (to: nat)
    requires NoDuplicates(s) && DependenciesFirst(edges, s) && IsPath(edges, p)
    requires |p| >= 2 && from < |s| && s[from] == p[0]
    ensures to < from && s[to] == p[|p| - 1]
    decreases |p|
  {
    assert p[1] in edges(s[from]);
    var next :| 0 <= next < from && s[next] == p[1];
    if |p| == 2 {
      to := next;
    } else {
      assert IsPath(edges, p[1..]) by {
        forall i | 0 <= i < |p[1..]| - 1 ensures p[1..][i + 1] in edges(p[1..][i]) {
          assert p[i + 2] in edges(p[i + 1]);
        }
      }
      to := PathGoesBack(edges, s, p[1..], next);
    }
  }

  /** A duplicate-free order that puts dependencies first proves that its nodes lie on no cycle. */
  lemma OrderedIsAcyclic<E(!new)>(edges: E -> seq<E>, values: seq<E>, s: seq<E>)
    requires NoDuplicates(s) && DependenciesFirst(edges, s)
    requires forall e | e in values :: e in s
    ensures !Cyclic(values, edges)
  {
    forall p: seq<E> | IsCycle(edges, p) && p[0] in values ensures false {
      var from :| 0 <= from < |s| && s[from] == p[0];
      var to := PathGoesBack(edges, s, p, from);
    }
  }

  /** A rank that falls along every edge rules out cycles. */
  lemma RankedIsAcyclic<E(!new)>(edges: E -> seq<E>, values: seq<E>, rank: E -> int)
    requires Closed(values, edges)
    requires forall e, d | e in values && d in edges(e) :: rank(d) < rank(e)
    ensures !Cyclic(values, edges)
  {
    forall p: seq<E> | IsCycle(edges, p) && p[0] in values ensures false {
      RankFalls(edges, values, rank, p, |p| - 1);
    }
  }

  lemma {:induction false} RankFalls<E(!new)>(edges: E -> seq<E>, values: seq<E>, rank: E -> int, p: seq<E>, k: nat)
    requires Closed(values, edges) && IsPath(edges, p) && 1 <= k < |p| && p[0] in values
    requires forall e, d | e in values && d in edges(e) :: rank(d) < rank(e)
    ensures p[k] in values && rank(p[k]) < rank(p[0])
  {
    if k > 1 {
      RankFalls(edges, values, rank, p, k - 1);
    }
    assert p[k - 1 + 1] in edges(p[k - 1]);
  }

  lemma {:induction false} SameElementsSameBag<E>(s: seq<E>, t: seq<E>)
    requires NoDuplicates(s) && NoDuplicates(t)
    requires forall e :: e in s <==> e in t
    ensures multiset(s) == multiset(t)
  {
    forall e: E ensures multiset(s)[e] == multiset(t)[e] {
      CountIsOne(s, e);
      CountIsOne(t, e);
    }
  }

  lemma {:induction false} CountIsOne<E>(s: seq<E>, e: E)
    requires NoDuplicates(s)
    ensures multiset(s)[e] == if e in s then 1 else 0
  {
    if s != [] {
      assert s == [s[0]] + s[1..];
      CountIsOne(s[1..], e);
    }
  }
}

module TopologicalSorting {
  import opened Graphs

  datatype SortResult<E> = Sorted(order: seq<E>) | CircleDetected

  /** The depth-first sort: `visitedNodes` maps an unvisited key to nothing, a node that is still
      being visited to false and a finished node to true. */
  class TopologicalSort<K(==), E(==, !new)> {
    var result: seq<E>
    var visitedNodes: map<K, bool>

    constructor () {
      result, visitedNodes := [], map[];
    }

    predicate IsMarkedPermanently(k: K) reads this {
      k in visitedNodes && visitedNodes[k]
    }

    predicate IsMarkedTemporarily(k: K) reads this {
      k in visitedNodes && !visitedNodes[k]
    }

    ghost predicate GraphOk(values: seq<E>, key: E -> K, edge: E -> seq<E>) {
      Closed(values, edge) && forall a, b | a in values && b in values && key(a) == key(b) :: a == b
    }

    /** Permanent marks are exactly the finished nodes, temporary marks are exactly the nodes on
        the path `trail` of visits in progress, and the finished nodes are in order. */
    ghost predicate Inv(values: seq<E>, key: E -> K, edge: E -> seq<E>, trail: seq<E>) reads this {
      && (forall e | e in result :: e in values)
      && (forall e | e in trail :: e in values)
      && (forall e | e in values :: IsMarkedPermanently(key(e)) <==> e in result)
      && (forall e | e in values :: IsMarkedTemporarily(key(e)) <==> e in trail)
      && NoDuplicates(result)
      && DependenciesFirst(edge, result)
      && IsPath(edge, trail)
    }

    ghost function Unmarked(values: seq<E>, key: E -> K): set<E> reads this {
      set e | e in values && key(e) !in visitedNodes
    }

    /** Sorts `values`, or reports a circle; the report is exact. */
    method Sort(values: seq<E>, key: E -> K, edge: E -> seq<E>) returns (r: SortResult<E>)
      requires GraphOk(values, key, edge)
      modifies this
      ensures r.CircleDetected? <==> Cyclic(values, edge)
      ensures r.Sorted? ==>
        && r.order == result
        && NoDuplicates(r.order)
        && DependenciesFirst(edge, r.order)
        && (forall e :: e in r.order <==> e in values)
        && (NoDuplicates(values) ==> multiset(r.order) == multiset(values))
    {
      visitedNodes := map[];
      result := [];
      for i := 0 to |values|
        invariant Inv(values, key, edge, [])
        invariant forall j | 0 <= j < i :: values[j] in result
      {
        var k := key(values[i]);
        if k !in visitedNodes {
          var ok := Visit(values[i], values, key, edge, []);
          if !ok {
            return CircleDetected;
          }
        } else {
          assert IsMarkedPermanently(k) || IsMarkedTemporarily(k);
        }
      }
      OrderedIsAcyclic(edge, values, result);
      if NoDuplicates(values) {
        SameElementsSameBag(result, values);
      }
      return Sorted(result);
    }

    /** Visits `e`, which `trail` leads to; false stands for the thrown error. */
    method Visit(e: E, ghost values: seq<E>, key: E -> K, edge: E -> seq<E>, ghost trail: seq<E>) returns (ok: bool)
      requires GraphOk(values, key, edge) && Inv(values, key, edge, trail)
      requires e in values && (trail != [] ==> e in edge(trail[|trail| - 1]))
      modifies this
      ensures ok ==> Inv(values, key, edge, trail) && e in result && old(result) <= result
      ensures ok ==> Unmarked(values, key) <= old(Unmarked(values, key))
      ensures !ok ==> Cyclic(values, edge)
      decreases Unmarked(values, key)
    {
      hide DependenciesFirst, NoDuplicates, Cyclic;
      if IsMarkedPermanently(key(e)) {
        return true;
      }
      if IsMarkedTemporarily(key(e)) {
        CloseCycle(values, edge, trail, e);
        return false;
      }
      ghost var unmarked := Unmarked(values, key);
      visitedNodes := visitedNodes[key(e) := false];
      assert e in unmarked && e !in Unmarked(values, key);
      ghost var here := trail + [e];
      for i := 0 to |edge(e)|
        invariant Inv(values, key, edge, here)
        invariant Unmarked(values, key) < unmarked
        invariant old(result) <= result
        invariant forall j | 0 <= j < i :: edge(e)[j] in result
      {
        var done := Visit(edge(e)[i], values, key, edge, here);
        if !done {
          return false;
        }
      }
      assert e in here && e !in result;
      assert e !in trail;
      AppendFinished(edge, result, e);
      visitedNodes := visitedNodes[key(e) := true];
      result := result + [e];
      return true;
    }
  }

  lemma AppendFinished<E(!new)>(edge: E -> seq<E>, s: seq<E>, e: E)
    requires NoDuplicates(s) && DependenciesFirst(edge, s) && e !in s
    requires forall j | 0 <= j < |edge(e)| :: edge(e)[j] in s
    ensures NoDuplicates(s + [e]) && DependenciesFirst(edge, s + [e])
  {
    var t := s + [e];
    forall i, d | 0 <= i < |t| && d in edge(t[i]) ensures d in t[..i] {
      if i < |s| {
        assert t[..i] == s[..i];
      } else {
        assert t[..i] == s;
      }
    }
  }

  lemma CloseCycle<E(!new)>(values: seq<E>, edge: E -> seq<E>, trail: seq<E>, e: E)
    requires IsPath(edge, trail) && e in trail && e in edge(trail[|trail| - 1])
    requires e in values
    ensures Cyclic(values, edge)
  {
    var i :| 0 <= i < |trail| && trail[i] == e;
    var p := trail[i..] + [e];
    assert IsCycle(edge, p) by {
      forall k | 0 <= k < |p| - 1 ensures p[k + 1] in edge(p[k]) {
        if k < |p| - 2 {
          assert trail[i + k + 1] in edge(trail[i + k]);
        }
      }
    }
  }
}
