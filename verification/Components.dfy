/** Union-find with path halving over the nodes of a graph (the closures find and union in
    internal/caddyapi/routeorder.go), against the connected components of the graph. */
module Components {
  datatype Graph = Graph(n: nat, touch: (nat, nat) -> bool)

  ghost predicate Edge(g: Graph, i: nat, j: nat) {
    g.touch(i, j) || g.touch(j, i)
  }

  ghost predicate Walk(g: Graph, p: seq<nat>) {
    && p != []
    && (forall k :: 0 <= k < |p| ==> p[k] < g.n)
    && (forall k :: 0 <= k < |p| - 1 ==> Edge(g, p[k], p[k + 1]))
  }

  ghost predicate Joins(g: Graph, p: seq<nat>, i: nat, j: nat) {
    Walk(g, p) && p[0] == i && p[|p| - 1] == j
  }

  ghost predicate Connected(g: Graph, i: nat, j: nat) {
    exists p :: Joins(g, p, i, j)
  }

  lemma ConnectedToItself(g: Graph, i: nat)
    requires i < g.n
    ensures Connected(g, i, i)
  {
    assert Joins(g, [i], i, i);
  }

  lemma EdgeConnects(g: Graph, i: nat, j: nat)
    requires i < g.n && j < g.n && Edge(g, i, j)
    ensures Connected(g, i, j)
  {
    assert Joins(g, [i, j], i, j);
  }

  lemma ConnectedBack(g: Graph, i: nat, j: nat)
    requires Connected(g, i, j)
    ensures Connected(g, j, i)
  {
    var p :| Joins(g, p, i, j);
    var r := seq(|p|, k requires 0 <= k < |p| => p[|p| - 1 - k]);
    forall k | 0 <= k < |r| - 1 ensures Edge(g, r[k], r[k + 1]) {
      assert Edge(g, p[|p| - 2 - k], p[|p| - 2 - k + 1]);
    }
    assert Joins(g, r, j, i);
  }

  lemma ConnectedOn(g: Graph, i: nat, j: nat, k: nat)
    requires Connected(g, i, j) && Connected(g, j, k)
    ensures Connected(g, i, k)
  {
    var p :| Joins(g, p, i, j);
    var q :| Joins(g, q, j, k);
    var r := p + q[1..];
    forall x | 0 <= x < |r| - 1 ensures Edge(g, r[x], r[x + 1]) {
      if x < |p| - 1 {
        assert Edge(g, p[x], p[x + 1]);
      } else {
        assert r[x] == q[x - |p| + 1] && r[x + 1] == q[x - |p| + 1 + 1];
      }
    }
    assert Joins(g, r, i, k);
  }

  // ---------------------------------------------------------------- the forest

  /** parent is a forest in which the root above each i is root[i]; depth falls towards the root. */
  ghost predicate Forest(parent: seq<nat>, root: seq<nat>, depth: seq<nat>) {
    && |root| == |parent| && |depth| == |parent|
    && forall i :: 0 <= i < |parent| ==> NodeOk(parent, root, depth, i)
  }

  ghost predicate NodeOk(parent: seq<nat>, root: seq<nat>, depth: seq<nat>, i: nat)
    requires |root| == |parent| && |depth| == |parent| && i < |parent|
  {
    && parent[i] < |parent| && root[i] < |parent|
    && parent[root[i]] == root[i]
    && root[parent[i]] == root[i]
    && (parent[i] == i ==> root[i] == i)
    && (parent[i] != i ==> depth[parent[i]] < depth[i])
  }

  /** Every node is connected to its root. */
  ghost predicate Anchored(g: Graph, root: seq<nat>) {
    |root| == g.n && forall i :: 0 <= i < |root| ==> root[i] < g.n && Connected(g, i, root[i])
  }

  /** Nodes that shared a root still do. */
  ghost predicate Coarser(r0: seq<nat>, r1: seq<nat>) {
    |r0| == |r1| && forall i {:trigger r0[i]} :: 0 <= i < |r0| ==> r0[i] < |r0| && r1[i] == r1[r0[i]]
  }

  lemma CoarserOn(r0: seq<nat>, r1: seq<nat>, r2: seq<nat>)
    requires Coarser(r0, r1) && Coarser(r1, r2)
    ensures Coarser(r0, r2)
  {
    forall i | 0 <= i < |r0| ensures r2[i] == r2[r0[i]] {
      assert r1[i] == r1[r0[i]];
      assert r2[i] == r2[r1[i]] && r2[r0[i]] == r2[r1[r0[i]]];
    }
  }

  class UnionFind {
    const parent: array<nat>
    ghost const g: Graph
    ghost var root: seq<nat>
    ghost var depth: seq<nat>

    ghost predicate Valid()
      reads this, parent
    {
      parent.Length == g.n && Forest(parent[..], root, depth) && Anchored(g, root)
    }

    constructor (n: nat, ghost touch: (nat, nat) -> bool)
      ensures Valid() && fresh(parent) && g == Graph(n, touch)
      ensures forall i :: 0 <= i < n ==> root[i] == i
    {
      parent := new nat[n](i => i);
      g := Graph(n, touch);
      root := seq(n, i => i);
      depth := seq(n, i => 0);
      new;
      forall i | 0 <= i < n ensures Connected(g, i, i) {
        ConnectedToItself(g, i);
      }
    }

    /** The root above i; halves the path on the way. */
    method Find(i: nat) returns (r: nat)
      requires Valid() && i < g.n
      modifies parent
      ensures Valid() && r == root[i] && r < g.n
    {
      r := i;
      while parent[r] != r
        invariant Valid() && r < g.n && root[r] == root[i]
        decreases depth[r]
      {
        ghost var before := parent[..];
        assert NodeOk(before, root, depth, r);
        assert NodeOk(before, root, depth, parent[r]);
        parent[r] := parent[parent[r]];
        assert parent[..] == before[r := before[before[r]]];
        HalvingKeeps(before, root, depth, r);
        r := parent[r];
      }
      assert NodeOk(parent[..], root, depth, r);
    }

    /** Joins the trees of two connected nodes. */
    method Union(a: nat, b: nat)
      requires Valid() && a < g.n && b < g.n && Connected(g, a, b)
      modifies this, parent
      ensures Valid() && Coarser(old(root), root) && root[a] == root[b]
      ensures root == LinkedRoot(old(root), old(root)[a], old(root)[b])
    {
      var ra := Find(a);
      var rb := Find(b);
      RootsAreRoots(parent[..], root, depth);
      if ra != rb {
        ghost var before := parent[..];
        parent[rb] := ra;
        assert parent[..] == before[rb := ra];
        LinkKeeps(before, root, depth, ra, rb);
        LinkAnchors(g, root, a, b);
        depth := LinkedDepth(root, depth, ra, rb);
        root := LinkedRoot(root, ra, rb);
      }
    }
  }

  lemma HalvingKeeps(parent: seq<nat>, root: seq<nat>, depth: seq<nat>, r: nat)
    requires Forest(parent, root, depth) && r < |parent| && parent[r] != r
    ensures parent[r] < |parent| && parent[parent[r]] < |parent|
    ensures Forest(parent[r := parent[parent[r]]], root, depth)
    ensures depth[parent[parent[r]]] < depth[r] && root[parent[parent[r]]] == root[r]
  {
    assert NodeOk(parent, root, depth, r);
    var p := parent[r];
    assert NodeOk(parent, root, depth, p);
    var after := parent[r := parent[p]];
    forall i | 0 <= i < |parent| ensures NodeOk(after, root, depth, i) {
      assert NodeOk(parent, root, depth, i);
      assert root[i] != r;
    }
  }

  ghost function LinkedRoot(root: seq<nat>, ra: nat, rb: nat): (r: seq<nat>)
    ensures |r| == |root|
  {
    seq(|root|, i requires 0 <= i < |root| => if root[i] == rb then ra else root[i])
  }

  ghost function LinkedDepth(root: seq<nat>, depth: seq<nat>, ra: nat, rb: nat): (d: seq<nat>)
    requires |root| == |depth| && ra < |depth|
    ensures |d| == |root|
  {
    seq(|root|, i requires 0 <= i < |root| => if root[i] == rb then depth[i] + depth[ra] + 1 else depth[i])
  }

  lemma LinkKeeps(parent: seq<nat>, root: seq<nat>, depth: seq<nat>, ra: nat, rb: nat)
    requires Forest(parent, root, depth) && ra < |parent| && rb < |parent| && ra != rb
    requires root[ra] == ra && root[rb] == rb
    ensures Forest(parent[rb := ra], LinkedRoot(root, ra, rb), LinkedDepth(root, depth, ra, rb))
    ensures Coarser(root, LinkedRoot(root, ra, rb))
  {
    var after, root', depth' := parent[rb := ra], LinkedRoot(root, ra, rb), LinkedDepth(root, depth, ra, rb);
    assert NodeOk(parent, root, depth, ra);
    assert NodeOk(parent, root, depth, rb);
    forall i | 0 <= i < |parent| ensures NodeOk(after, root', depth', i) {
      assert NodeOk(parent, root, depth, i);
    }
    RootsAreRoots(parent, root, depth);
  }

  lemma RootsAreRoots(parent: seq<nat>, root: seq<nat>, depth: seq<nat>)
    requires Forest(parent, root, depth)
    ensures Coarser(root, root)
  {
    forall i | 0 <= i < |root| ensures root[i] < |root| && root[i] == root[root[i]] {
      assert NodeOk(parent, root, depth, i);
      assert NodeOk(parent, root, depth, root[i]);
    }
  }

  lemma LinkAnchors(g: Graph, root: seq<nat>, a: nat, b: nat)
    requires Anchored(g, root) && a < g.n && b < g.n && Connected(g, a, b)
    ensures Anchored(g, LinkedRoot(root, root[a], root[b]))
  {
    var ra, rb := root[a], root[b];
    ConnectedBack(g, a, b);
    ConnectedBack(g, b, rb);
    ConnectedOn(g, rb, b, a);
    ConnectedOn(g, rb, a, ra);
    forall i | 0 <= i < |root| ensures Connected(g, i, LinkedRoot(root, ra, rb)[i]) {
      if root[i] == rb {
        ConnectedOn(g, i, rb, ra);
      }
    }
  }

  // ---------------------------------------------------------------- exactness

  lemma {:induction false} WalkSharesRoot(g: Graph, root: seq<nat>, p: seq<nat>)
    requires |root| == g.n && Walk(g, p)
    requires forall i, j :: 0 <= i < g.n && 0 <= j < g.n && g.touch(i, j) ==> root[i] == root[j]
    ensures root[p[0]] == root[p[|p| - 1]]
    decreases |p|
  {
    if |p| > 1 {
      var front := p[..|p| - 1];
      assert forall k :: 0 <= k < |front| - 1 ==> Edge(g, front[k], front[k + 1]) by {
        forall k | 0 <= k < |front| - 1 ensures Edge(g, front[k], front[k + 1]) {
          assert Edge(g, p[k], p[k + 1]);
        }
      }
      WalkSharesRoot(g, root, front);
      assert Edge(g, p[|p| - 2], p[|p| - 2 + 1]);
    }
  }

  /** Once touching nodes share roots, sharing a root is exactly being connected. */
  lemma RootsAreComponents(g: Graph, root: seq<nat>, i: nat, j: nat)
    requires Anchored(g, root) && i < g.n && j < g.n
    requires forall i, j :: 0 <= i < g.n && 0 <= j < g.n && g.touch(i, j) ==> root[i] == root[j]
    ensures root[i] == root[j] <==> Connected(g, i, j)
  {
    if root[i] == root[j] {
      ConnectedBack(g, j, root[j]);
      ConnectedOn(g, i, root[i], j);
    }
    if Connected(g, i, j) {
      var p :| Joins(g, p, i, j);
      WalkSharesRoot(g, root, p);
    }
  }
}
