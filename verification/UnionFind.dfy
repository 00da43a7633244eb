/**
 The union-find of compact/groups.go (path halving, no ranks), and the least
 equivalence relation it has to compute.
 */
module UnionFind {

  // ----- the least equivalence that contains a set of edges -----

  /** A colouring of the nodes under which both ends of every edge have one colour. */
  ghost predicate Respects(colour: seq<int>, edges: set<(int, int)>) {
    forall e :: e in edges && 0 <= e.0 < |colour| && 0 <= e.1 < |colour| ==> colour[e.0] == colour[e.1]
  }

  /**
   Two of the nodes 0..n-1 are linked when no colouring that respects the edges can
   tell them apart: this is the least equivalence relation that contains the edges.
   */
  ghost predicate Linked(n: nat, edges: set<(int, int)>, i: int, j: int) {
    && 0 <= i < n && 0 <= j < n
    && forall colour :: |colour| == n && Respects(colour, edges) ==> colour[i] == colour[j]
  }

  lemma LinkedIsEquivalence(n: nat, edges: set<(int, int)>)
    ensures forall i :: 0 <= i < n ==> Linked(n, edges, i, i)
    ensures forall i, j :: Linked(n, edges, i, j) ==> Linked(n, edges, j, i)
    ensures forall i, j, k :: Linked(n, edges, i, j) && Linked(n, edges, j, k) ==> Linked(n, edges, i, k)
    ensures forall e :: e in edges && 0 <= e.0 < n && 0 <= e.1 < n ==> Linked(n, edges, e.0, e.1)
  {
  }

  ghost predicate Equivalence(n: nat, related: (int, int) -> bool) {
    && (forall i :: 0 <= i < n ==> related(i, i))
    && (forall i, j :: 0 <= i < n && 0 <= j < n && related(i, j) ==> related(j, i))
    && (forall i, j, k :: 0 <= i < n && 0 <= j < n && 0 <= k < n && related(i, j) && related(j, k) ==> related(i, k))
  }

  ghost function FirstRelated(n: nat, related: (int, int) -> bool, i: int, from: nat): (first: int)
    requires 0 <= i < n && from <= i && related(i, i)
    ensures from <= first <= i && related(i, first)
    ensures forall k :: from <= k < first ==> !related(i, k)
    decreases i - from
  {
    if related(i, from) then from else FirstRelated(n, related, i, from + 1)
  }

  /** Every equivalence relation that contains the edges contains `Linked`. */
  lemma LinkedIsLeast(n: nat, edges: set<(int, int)>, related: (int, int) -> bool, i: int, j: int)
    requires Equivalence(n, related)
    requires forall e :: e in edges && 0 <= e.0 < n && 0 <= e.1 < n ==> related(e.0, e.1)
    requires Linked(n, edges, i, j)
    ensures related(i, j)
  {
    var colour := seq(n, k requires 0 <= k < n => FirstRelated(n, related, k, 0));
    forall e | e in edges && 0 <= e.0 < n && 0 <= e.1 < n
      ensures colour[e.0] == colour[e.1]
    {
      SameFirst(n, related, e.0, e.1);
    }
    assert Respects(colour, edges);
    assert colour[i] == colour[j];
  }

  lemma SameFirst(n: nat, related: (int, int) -> bool, a: int, b: int)
    requires Equivalence(n, related) && 0 <= a < n && 0 <= b < n && related(a, b)
    ensures FirstRelated(n, related, a, 0) == FirstRelated(n, related, b, 0)
  {
    var x, y := FirstRelated(n, related, a, 0), FirstRelated(n, related, b, 0);
    assert related(b, a) && related(b, x) && related(a, y);
  }

  // ----- the forest held in the parents array -----

  /** What the array stands for: the root of every node, and a rank that falls along parents. */
  datatype Forest = Forest(root: seq<int>, rank: seq<nat>)

  ghost predicate NodeOk(parents: seq<int>, f: Forest, i: int)
    requires |f.root| == |f.rank| == |parents| && 0 <= i < |parents|
  {
    && 0 <= parents[i] < |parents| && 0 <= f.root[i] < |parents|
    && f.root[parents[i]] == f.root[i]
    && parents[f.root[i]] == f.root[i]
    && (parents[i] == i ==> f.root[i] == i)
    && (parents[i] != i ==> f.rank[parents[i]] < f.rank[i])
  }

  ghost predicate Valid(parents: seq<int>, f: Forest) {
    && |f.root| == |f.rank| == |parents|
    && forall i :: 0 <= i < |parents| ==> NodeOk(parents, f, i)
  }

  /** Halving a path changes no root and no rank order. */
  lemma HalvingKeeps(parents: seq<int>, f: Forest, i: int)
    requires Valid(parents, f) && 0 <= i < |parents|
    ensures 0 <= parents[i] < |parents|
    ensures Valid(parents[i := parents[parents[i]]], f)
  {
    var p := parents[i];
    assert NodeOk(parents, f, i) && NodeOk(parents, f, p);
    var after := parents[i := parents[p]];
    forall k | 0 <= k < |parents|
      ensures NodeOk(after, f, k)
    {
      assert NodeOk(parents, f, k);
      var r := f.root[k];
      if r == i {
        assert parents[i] == i;
      }
    }
  }

  /** The root every node has after the trees of `a` and `b` became one. */
  ghost function Merged(root: seq<int>, a: int, b: int): (r: seq<int>)
    requires 0 <= a < |root| && 0 <= b < |root|
    ensures |r| == |root|
  {
    seq(|root|, k requires 0 <= k < |root| => if root[k] == root[a] then root[b] else root[k])
  }

  ghost function MergedRank(f: Forest, a: int, b: int): (r: seq<nat>)
    requires |f.root| == |f.rank| && 0 <= a < |f.root| && 0 <= b < |f.root|
    requires 0 <= f.root[b] < |f.rank|
    ensures |r| == |f.rank|
  {
    seq(|f.rank|, k requires 0 <= k < |f.rank| =>
      if f.root[k] == f.root[a] != f.root[b] then f.rank[k] + f.rank[f.root[b]] + 1 else f.rank[k])
  }

  lemma RootsAreRoots(parents: seq<int>, f: Forest, a: int)
    requires Valid(parents, f) && 0 <= a < |parents|
    ensures 0 <= f.root[a] < |parents| && parents[f.root[a]] == f.root[a] && f.root[f.root[a]] == f.root[a]
  {
    assert NodeOk(parents, f, a);
    assert NodeOk(parents, f, f.root[a]);
  }

  lemma JoiningMerges(parents: seq<int>, f: Forest, a: int, b: int)
    requires Valid(parents, f) && 0 <= a < |parents| && 0 <= b < |parents|
    ensures 0 <= f.root[a] < |parents| && 0 <= f.root[b] < |parents|
    ensures Valid(parents[f.root[a] := f.root[b]], Forest(Merged(f.root, a, b), MergedRank(f, a, b)))
  {
    RootsAreRoots(parents, f, a);
    RootsAreRoots(parents, f, b);
    var g := Forest(Merged(f.root, a, b), MergedRank(f, a, b));
    var ra, rb := f.root[a], f.root[b];
    var after := parents[ra := rb];
    forall k | 0 <= k < |parents|
      ensures NodeOk(after, g, k)
    {
      assert NodeOk(parents, f, k);
      RootsAreRoots(parents, f, k);
    }
  }

  /** `find`: returns the root and halves the path on its way; the forest stays the same. */
  method Find(parents: array<int>, i: int, ghost f: Forest) returns (root: int)
    requires Valid(parents[..], f) && 0 <= i < parents.Length
    modifies parents
    ensures Valid(parents[..], f)
    ensures root == f.root[i] && 0 <= root < parents.Length
  {
    root := i;
    assert NodeOk(parents[..], f, root);
    while parents[root] != root
      invariant Valid(parents[..], f)
      invariant 0 <= root < parents.Length && f.root[root] == f.root[i]
      decreases f.rank[root]
    {
      ghost var before := parents[..];
      assert NodeOk(before, f, root) && NodeOk(before, f, before[root]);
      HalvingKeeps(before, f, root);
      parents[root] := parents[parents[root]];
      assert parents[..] == before[root := before[before[root]]];
      root := parents[root];
    }
    assert NodeOk(parents[..], f, root);
  }

  /** `join`: afterwards exactly the trees of `a` and `b` share a root. */
  method Join(parents: array<int>, a: int, b: int, ghost f: Forest) returns (ghost g: Forest)
    requires Valid(parents[..], f) && 0 <= a < parents.Length && 0 <= b < parents.Length
    modifies parents
    ensures Valid(parents[..], g)
    ensures g.root == Merged(f.root, a, b)
  {
    var i := Find(parents, a, f);
    var r := Find(parents, b, f);
    JoiningMerges(parents[..], f, a, b);
    ghost var before := parents[..];
    parents[i] := r;
    assert parents[..] == before[i := r];
    g := Forest(Merged(f.root, a, b), MergedRank(f, a, b));
  }

  // ----- the forest against the least equivalence -----

  /** Nodes were merged only where every colouring that respects the edges is forced to agree. */
  ghost predicate Forced(root: seq<int>, edges: set<(int, int)>) {
    && (forall i :: 0 <= i < |root| ==> 0 <= root[i] < |root|)
    && forall colour, i :: |colour| == |root| && Respects(colour, edges) && 0 <= i < |root| ==>
      colour[i] == colour[root[i]]
  }

  lemma MergeIsForced(root: seq<int>, edges: set<(int, int)>, a: int, b: int)
    requires Forced(root, edges) && 0 <= a < |root| && 0 <= b < |root|
    requires (a, b) in edges
    ensures Forced(Merged(root, a, b), edges)
  {
    var after := Merged(root, a, b);
    forall colour, i | |colour| == |root| && Respects(colour, edges) && 0 <= i < |root|
      ensures colour[i] == colour[after[i]]
    {
      assert colour[(a, b).0] == colour[(a, b).1];
      assert colour[i] == colour[root[i]] && colour[a] == colour[root[a]] && colour[b] == colour[root[b]];
    }
  }

  /** When the edges are all merged and nothing else is, sharing a root is being linked. */
  lemma RootsDecideLinked(root: seq<int>, edges: set<(int, int)>, i: int, j: int)
    requires Forced(root, edges) && Respects(root, edges)
    requires 0 <= i < |root| && 0 <= j < |root|
    ensures root[i] == root[j] <==> Linked(|root|, edges, i, j)
  {
    if root[i] == root[j] {
      forall colour | |colour| == |root| && Respects(colour, edges)
        ensures colour[i] == colour[j]
      {
        assert colour[i] == colour[root[i]] && colour[j] == colour[root[j]];
      }
    }
  }
}
