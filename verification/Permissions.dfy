/** Permissions on the block graph (block.c): what a node's parents ask for together, what a
    driver then asks of its children, and when a graph is settled. */
module Permissions {
  import opened Options
  import opened Reachability
  import opened BlockGraph

  /** What the nodes' drivers and options contribute. */
  datatype Drivers = Drivers(
    hasDrv: Node -> bool,
    childPerm: (Node, Option<Edge>, Slot, Perms, Perms) -> (Perms, Perms),
    checkPerm: (Node, Perms, Perms) -> bool,
    forceShare: Node -> bool,
    writable: Node -> bool,
    sizeAligned: Node -> bool,
    isFilter: Node -> bool,
    filteredChildIsBacking: Node -> bool,
    supportsBacking: Node -> bool)

  /** bdrv_a_allow_b: a shares everything that b needs. */
  predicate Allows(a: EdgeState, b: EdgeState) {
    b.perm * a.shared == b.perm
  }

  /** The parents of n tolerate each other. */
  predicate Compatible(g: Graph, n: Node) {
    forall a, b | a in Parents(g, n) && b in Parents(g, n) && a != b :: Allows(g.edges[a], g.edges[b])
  }

  predicate Asked(g: Graph, es: set<Edge>, p: Perm)
    requires es <= g.edges.Keys
  {
    exists e :: e in es && p in g.edges[e].perm
  }

  predicate Shared(g: Graph, es: set<Edge>, p: Perm)
    requires es <= g.edges.Keys
  {
    forall e | e in es :: p in g.edges[e].shared
  }

  /** What some parent of n asks for. */
  function CumPerm(g: Graph, n: Node): Perms {
    set p | p in PERM_ALL && Asked(g, Parents(g, n), p)
  }

  /** What every parent of n shares. */
  function CumShared(g: Graph, n: Node): Perms {
    set p | p in PERM_ALL && Shared(g, Parents(g, n), p)
  }

  lemma EveryPerm(p: Perm)
    ensures p in PERM_ALL
  {
  }

  /** bdrv_get_cumulative_perm */
  method GetCumulativePerm(g: Graph, n: Node) returns (perm: Perms, shared: Perms)
    ensures perm == CumPerm(g, n) && shared == CumShared(g, n)
  {
    perm, shared := {}, PERM_ALL;
    var todo := Parents(g, n);
    while todo != {}
      invariant todo <= Parents(g, n)
      invariant perm == set p | p in PERM_ALL && Asked(g, Parents(g, n) - todo, p)
      invariant shared == set p | p in PERM_ALL && Shared(g, Parents(g, n) - todo, p)
      decreases |todo|
    {
      var e :| e in todo;
      perm, shared := perm + g.edges[e].perm, shared * g.edges[e].shared;
      OneMore(g, Parents(g, n) - todo, e);
      assert Parents(g, n) - (todo - {e}) == (Parents(g, n) - todo) + {e};
      todo := todo - {e};
    }
    assert Parents(g, n) - {} == Parents(g, n);
  }

  lemma OneMore(g: Graph, es: set<Edge>, e: Edge)
    requires es <= g.edges.Keys && e in g.edges
    ensures forall p: Perm :: Asked(g, es + {e}, p) <==> Asked(g, es, p) || p in g.edges[e].perm
    ensures forall p: Perm :: Shared(g, es + {e}, p) <==> Shared(g, es, p) && p in g.edges[e].shared
    ensures forall p: Perm :: p in PERM_ALL
  {
    forall p: Perm
      ensures Asked(g, es + {e}, p) <==> Asked(g, es, p) || p in g.edges[e].perm
      ensures p in PERM_ALL
    {
      EveryPerm(p);
      if p in g.edges[e].perm {
        assert e in es + {e};
      }
      if Asked(g, es, p) {
        var x :| x in es && p in g.edges[x].perm;
        assert x in es + {e};
      }
    }
  }

  /** bdrv_parent_perms_conflict: every ordered pair of parents is looked at. */
  method ParentPermsConflict(g: Graph, n: Node) returns (conflict: bool)
    ensures conflict <==> !Compatible(g, n)
  {
    var all := Parents(g, n);
    var as_ := all;
    while as_ != {}
      invariant as_ <= all
      invariant forall a, b | a in all - as_ && b in all && a != b :: Allows(g.edges[a], g.edges[b])
      decreases |as_|
    {
      var a :| a in as_;
      var bs := all;
      while bs != {}
        invariant bs <= all
        invariant forall b | b in all - bs && a != b :: Allows(g.edges[a], g.edges[b])
        decreases |bs|
      {
        var b :| b in bs;
        if a != b && !Allows(g.edges[a], g.edges[b]) {
          return true;
        }
        bs := bs - {b};
      }
      as_ := as_ - {a};
    }
    return false;
  }

  /** bdrv_child_perm, with the force-share override of the child node. */
  function ChildPerm(d: Drivers, g: Graph, n: Node, e: Edge, perm: Perms, shared: Perms): (Perms, Perms)
    requires IsChildOf(g, e, n)
  {
    var (p, s) := d.childPerm(n, Some(e), g.edges[e].slot, perm, shared);
    (p, if d.forceShare(g.edges[e].bs.value) then PERM_ALL else s)
  }

  /** The checks of bdrv_node_refresh_perm before it looks at the children. */
  predicate NodeAccepts(d: Drivers, n: Node, perm: Perms, shared: Perms) {
    var writes := perm * {WritePerm, WriteUnchanged} != {};
    && (writes ==> d.writable(n))
    && (writes && Resize !in perm ==> d.sizeAligned(n))
    && (d.hasDrv(n) ==> d.checkPerm(n, perm, shared))
  }

  /** An edge carries what its parent node asks of it, given the parent's own demands. */
  predicate EdgeSettled(d: Drivers, g: Graph, e: Edge)
    requires e in g.edges
  {
    Links(g.edges[e]) && d.hasDrv(g.edges[e].parent.node) ==>
      var n := g.edges[e].parent.node;
      (g.edges[e].perm, g.edges[e].shared) == ChildPerm(d, g, n, e, CumPerm(g, n), CumShared(g, n))
  }

  /** Every child edge of n carries what n asks of it. */
  predicate NodeSettled(d: Drivers, g: Graph, n: Node) {
    forall e | e in Children(g, n) :: EdgeSettled(d, g, e)
  }

  /** g and r are the same graph, permissions aside. */
  predicate SameShape(g: Graph, r: Graph) {
    && r.edges.Keys == g.edges.Keys && r.nodes == g.nodes
    && forall e | e in g.edges :: r.edges[e] == g.edges[e].(perm := r.edges[e].perm, shared := r.edges[e].shared)
  }

  /** Like g, with new permissions on edge e. */
  function SetEdgePerm(g: Graph, e: Edge, perm: Perms, shared: Perms): Graph
    requires e in g.edges
  {
    g.(edges := g.edges[e := g.edges[e].(perm := perm, shared := shared)])
  }

  /** r is g with the child edges of n refreshed. */
  predicate RefreshedNode(d: Drivers, g: Graph, r: Graph, n: Node) {
    && SameShape(g, r)
    && (forall e | e in g.edges && !(IsChildOf(g, e, n) && d.hasDrv(n)) :: r.edges[e] == g.edges[e])
    && (forall e | e in g.edges && IsChildOf(g, e, n) && d.hasDrv(n) ::
          (r.edges[e].perm, r.edges[e].shared) == ChildPerm(d, g, n, e, CumPerm(g, n), CumShared(g, n)))
  }

  lemma SameShapeSameLists(g: Graph, r: Graph)
    requires SameShape(g, r)
    ensures Adj(r) == Adj(g) && forall n :: Parents(r, n) == Parents(g, n) && Children(r, n) == Children(g, n)
  {
  }

  /** Where the parents' permissions agree, so do the demands and their compatibility. */
  lemma SameDemands(g: Graph, r: Graph, n: Node)
    requires SameShape(g, r)
    requires forall e | e in Parents(g, n) :: r.edges[e] == g.edges[e]
    ensures CumPerm(r, n) == CumPerm(g, n) && CumShared(r, n) == CumShared(g, n)
    ensures Compatible(r, n) <==> Compatible(g, n)
  {
  }

  /** Refreshing the children of n, whose parents are not among them, settles n and
      disturbs no node that is not a child of n. */
  lemma RefreshSettles(d: Drivers, g: Graph, r: Graph, n: Node, m: Node)
    requires RefreshedNode(d, g, r, n) && (n, m) !in Adj(g)
    ensures CumPerm(r, m) == CumPerm(g, m) && CumShared(r, m) == CumShared(g, m)
    ensures Compatible(r, m) <==> Compatible(g, m)
    ensures m != n && NodeSettled(d, g, m) ==> NodeSettled(d, r, m)
    ensures m == n ==> NodeSettled(d, r, n)
  {
    forall e | e in Parents(g, m)
      ensures r.edges[e] == g.edges[e]
    {
      if IsChildOf(g, e, n) { ChildIsAdjacent(g, e, n); }
    }
    SameDemands(g, r, m);
    SameShapeSameLists(g, r);
    forall e | e in Children(r, m)
      ensures (m == n || NodeSettled(d, g, m)) ==> EdgeSettled(d, r, e)
    {
      assert e in Children(g, m);
      assert m != n && NodeSettled(d, g, m) ==> EdgeSettled(d, g, e);
    }
  }

  // ----- one pass over a sorted list reaches the fixpoint -----

  /** The parents of n tolerate each other, n and its driver tolerate them, and its child
      edges carry what follows from them. */
  predicate Done(d: Drivers, g: Graph, n: Node) {
    Compatible(g, n) && NodeAccepts(d, n, CumPerm(g, n), CumShared(g, n)) && NodeSettled(d, g, n)
  }

  lemma NotItsChild(g: Graph, list: seq<Node>, k: nat, m: Node)
    requires TopoSorted(g, list) && k < |list| && (m in list ==> m in list[..k + 1])
    ensures (list[k], m) !in Adj(g)
  {
  }

  /** Refreshing list[k] completes it and keeps complete what comes earlier in the list or
      is not listed. */
  lemma RefreshCompletes(d: Drivers, g: Graph, r: Graph, list: seq<Node>, k: nat, m: Node)
    requires TopoSorted(g, list) && k < |list| && RefreshedNode(d, g, r, list[k])
    requires m in list ==> m in list[..k + 1]
    requires m == list[k] ==> Compatible(g, m) && NodeAccepts(d, m, CumPerm(g, m), CumShared(g, m))
    requires m != list[k] ==> Done(d, g, m)
    ensures Done(d, r, m)
  {
    NotItsChild(g, list, k, m);
    RefreshSettles(d, g, r, list[k], m);
  }

  lemma SameShapeSorted(g: Graph, r: Graph, list: seq<Node>)
    requires SameShape(g, r) && TopoSorted(g, list)
    ensures TopoSorted(r, list)
  {
  }

  /** The edges whose permissions a refresh of the nodes ns computes. */
  predicate Computed(d: Drivers, g: Graph, ns: set<Node>, e: Edge)
    requires e in g.edges
  {
    Links(g.edges[e]) && g.edges[e].parent.node in ns && d.hasDrv(g.edges[e].parent.node)
  }

  /** r differs from g only in permissions that a refresh of ns computes. */
  predicate DiffersOnComputed(d: Drivers, g: Graph, r: Graph, ns: set<Node>) {
    SameShape(g, r) && forall e | e in g.edges && !Computed(d, g, ns, e) :: r.edges[e] == g.edges[e]
  }

  /** A way to complete all nodes in ns. */
  predicate Solution(d: Drivers, g: Graph, r: Graph, ns: set<Node>) {
    DiffersOnComputed(d, g, r, ns) && forall n | n in ns :: Done(d, r, n)
  }

  function Listed(list: seq<Node>): set<Node> {
    set n | n in list
  }

  /** If the demands on the parent of e agree and e is settled on both sides, e agrees. */
  lemma EdgeAgrees(d: Drivers, g: Graph, a: Graph, b: Graph, ns: set<Node>, e: Edge)
    requires DiffersOnComputed(d, g, a, ns) && DiffersOnComputed(d, g, b, ns) && e in g.edges
    requires Computed(d, g, ns, e) ==>
               var n := g.edges[e].parent.node;
               && (forall x | x in Parents(a, n) :: b.edges[x] == a.edges[x])
               && EdgeSettled(d, a, e) && EdgeSettled(d, b, e)
    ensures b.edges[e] == a.edges[e]
  {
    if Computed(d, g, ns, e) {
      SameDemands(a, b, g.edges[e].parent.node);
    }
  }

  /** Assignments that settle the first k listed nodes agree above list[k]. */
  lemma {:induction false} PrefixAgrees(d: Drivers, g: Graph, a: Graph, b: Graph, list: seq<Node>, k: nat)
    requires TopoSorted(g, list) && k < |list|
    requires DiffersOnComputed(d, g, a, Listed(list)) && DiffersOnComputed(d, g, b, Listed(list))
    requires forall i | 0 <= i < k :: NodeSettled(d, a, list[i]) && NodeSettled(d, b, list[i])
    ensures SameShape(a, b) && forall e | e in Parents(a, list[k]) :: b.edges[e] == a.edges[e]
  {
    forall e | e in Parents(a, list[k])
      ensures b.edges[e] == a.edges[e]
    {
      if Computed(d, g, Listed(list), e) {
        var i := EarlierParent(g, list, k, e);
        PrefixAgrees(d, g, a, b, list, i);
        assert e in Children(a, list[i]) && e in Children(b, list[i]);
      }
      EdgeAgrees(d, g, a, b, Listed(list), e);
    }
  }

  lemma EarlierParent(g: Graph, list: seq<Node>, k: nat, e: Edge) returns (i: nat)
    requires TopoSorted(g, list) && k < |list| && e in g.edges && Links(g.edges[e])
    requires g.edges[e].parent.node in list && g.edges[e].bs.value == list[k]
    ensures i < k && list[i] == g.edges[e].parent.node
  {
    i :| 0 <= i < |list| && list[i] == g.edges[e].parent.node;
    ChildIsAdjacent(g, e, list[i]);
  }

  /** Two assignments that settle every listed node and agree elsewhere are equal. */
  lemma SettledIsUnique(d: Drivers, g: Graph, a: Graph, b: Graph, list: seq<Node>)
    requires TopoSorted(g, list) && DiffersOnComputed(d, g, a, Listed(list)) && DiffersOnComputed(d, g, b, Listed(list))
    requires forall i | 0 <= i < |list| :: NodeSettled(d, a, list[i]) && NodeSettled(d, b, list[i])
    ensures a == b
  {
    forall e | e in g.edges
      ensures b.edges[e] == a.edges[e]
    {
      if Computed(d, g, Listed(list), e) {
        var i :| 0 <= i < |list| && list[i] == g.edges[e].parent.node;
        PrefixAgrees(d, g, a, b, list, i);
        assert e in Children(a, list[i]) && e in Children(b, list[i]);
      }
      EdgeAgrees(d, g, a, b, Listed(list), e);
    }
    assert a.edges == b.edges;
  }

  /** There is at most one solution. */
  lemma SolutionIsUnique(d: Drivers, g: Graph, a: Graph, b: Graph, list: seq<Node>)
    requires TopoSorted(g, list) && Solution(d, g, a, Listed(list)) && Solution(d, g, b, Listed(list))
    ensures a == b
  {
    SolutionSettles(d, g, a, list);
    SolutionSettles(d, g, b, list);
    SettledIsUnique(d, g, a, b, list);
  }

  lemma SolutionSettles(d: Drivers, g: Graph, r: Graph, list: seq<Node>)
    requires Solution(d, g, r, Listed(list))
    ensures forall i | 0 <= i < |list| :: NodeSettled(d, r, list[i])
  {
    forall i | 0 <= i < |list|
      ensures NodeSettled(d, r, list[i])
    {
      assert list[i] in Listed(list);
      assert Done(d, r, list[i]);
    }
  }

  /** A pass that has settled the first k nodes finds no fault in list[k] if there is a
      solution at all. */
  lemma SolutionPasses(d: Drivers, g: Graph, a: Graph, b: Graph, list: seq<Node>, k: nat)
    requires TopoSorted(g, list) && k < |list| && Solution(d, g, b, Listed(list))
    requires DiffersOnComputed(d, g, a, Listed(list)) && forall i | 0 <= i < k :: NodeSettled(d, a, list[i])
    ensures Compatible(a, list[k]) && NodeAccepts(d, list[k], CumPerm(a, list[k]), CumShared(a, list[k]))
  {
    assert Done(d, b, list[k]);
    SolutionSettles(d, g, b, list);
    PrefixAgrees(d, g, a, b, list, k);
    SameDemands(a, b, list[k]);
  }

  // ----- what a solution is, read off the graph -----

  /** perm is what some parent of n asks for, and shared what every parent of n shares. */
  ghost predicate Demands(g: Graph, n: Node, perm: Perms, shared: Perms) {
    && (forall p: Perm :: p in perm <==> exists e :: e in g.edges && g.edges[e].bs == Some(n) && p in g.edges[e].perm)
    && (forall p: Perm :: p in shared <==>
          forall e | e in g.edges && g.edges[e].bs == Some(n) :: p in g.edges[e].shared)
  }

  lemma DemandsAre(g: Graph, n: Node)
    ensures Demands(g, n, CumPerm(g, n), CumShared(g, n))
  {
    forall p: Perm
      ensures p in CumPerm(g, n) <==> exists e :: e in g.edges && g.edges[e].bs == Some(n) && p in g.edges[e].perm
      ensures p in CumShared(g, n) <==>
              forall e | e in g.edges && g.edges[e].bs == Some(n) :: p in g.edges[e].shared
    {
      EveryPerm(p);
      if e :| e in g.edges && g.edges[e].bs == Some(n) && p in g.edges[e].perm {
        assert e in Parents(g, n);
      }
      if Shared(g, Parents(g, n), p) {
        forall e | e in g.edges && g.edges[e].bs == Some(n)
          ensures p in g.edges[e].shared
        {
          assert e in Parents(g, n);
        }
      }
    }
  }

  lemma DemandsUnique(g: Graph, n: Node, perm: Perms, shared: Perms)
    requires Demands(g, n, perm, shared)
    ensures perm == CumPerm(g, n) && shared == CumShared(g, n)
  {
    DemandsAre(g, n);
  }

  /** An edge of node n, new if e is None, takes the first and shares the second of what the
      driver of n answers to the demands; an edge to a force-share node shares everything. */
  predicate Granted(d: Drivers, n: Node, e: Option<Edge>, st: EdgeState, perm: Perms, shared: Perms) {
    var answer := d.childPerm(n, e, st.slot, perm, shared);
    && st.perm == answer.0
    && (st.bs.Some? && d.forceShare(st.bs.value) ==> forall p: Perm :: p in st.shared)
    && (st.bs.Some? && !d.forceShare(st.bs.value) ==> st.shared == answer.1)
  }

  lemma EveryPermIsAll(s: Perms)
    ensures (forall p: Perm :: p in s) <==> s == PERM_ALL
  {
    forall p: Perm
      ensures p in PERM_ALL
    {
      EveryPerm(p);
    }
  }

  /** What a refresh of node n leaves on its child edges, and on every other edge. */
  lemma RefreshGrants(d: Drivers, g: Graph, r: Graph, n: Node, perm: Perms, shared: Perms, e: Edge)
    requires RefreshedNode(d, g, r, n) && Demands(g, n, perm, shared) && e in g.edges
    ensures e in r.edges && r.edges[e].(perm := {}, shared := {}) == g.edges[e].(perm := {}, shared := {})
    ensures if g.edges[e].parent == Bds(n) && g.edges[e].bs.Some? && d.hasDrv(n)
            then Granted(d, n, Some(e), r.edges[e], perm, shared)
            else r.edges[e] == g.edges[e]
  {
    DemandsUnique(g, n, perm, shared);
    EveryPermIsAll(r.edges[e].shared);
    hide CumPerm, CumShared, Demands;
  }

  /** When bdrv_node_refresh_perm accepts the demands on a node: who writes needs a node that is
      writable, and one of aligned size unless someone may resize it; the driver has a say. */
  lemma AcceptsMeans(d: Drivers, n: Node, perm: Perms, shared: Perms)
    ensures NodeAccepts(d, n, perm, shared) <==>
            && ((WritePerm in perm || WriteUnchanged in perm) ==> d.writable(n) && (Resize in perm || d.sizeAligned(n)))
            && (d.hasDrv(n) ==> d.checkPerm(n, perm, shared))
  {
    var both := {WritePerm, WriteUnchanged};
    if WritePerm in perm { assert WritePerm in perm * both; }
    if WriteUnchanged in perm { assert WriteUnchanged in perm * both; }
    if perm * both != {} {
      var p :| p in perm * both;
      assert p in perm && (p == WritePerm || p == WriteUnchanged);
    }
  }

  /** The permission equations of one node, written out. */
  ghost predicate Balanced(d: Drivers, g: Graph, n: Node) {
    && (forall a, b | a in g.edges && b in g.edges && a != b && g.edges[a].bs == g.edges[b].bs == Some(n) ::
          g.edges[b].perm <= g.edges[a].shared)
    && forall perm, shared | Demands(g, n, perm, shared) ::
         && ((WritePerm in perm || WriteUnchanged in perm) ==> d.writable(n) && (Resize in perm || d.sizeAligned(n)))
         && (d.hasDrv(n) ==> d.checkPerm(n, perm, shared))
         && (d.hasDrv(n) ==>
               forall e | e in g.edges && g.edges[e].parent == Bds(n) && g.edges[e].bs.Some? ::
                 Granted(d, n, Some(e), g.edges[e], perm, shared))
  }

  lemma AllowsMeans(a: EdgeState, b: EdgeState)
    ensures Allows(a, b) <==> b.perm <= a.shared
  {
    if b.perm * a.shared == b.perm {
      forall p | p in b.perm
        ensures p in a.shared
      {
        assert p in b.perm * a.shared;
      }
    }
  }

  lemma CompatibleMeans(g: Graph, n: Node)
    ensures Compatible(g, n) <==>
            forall a, b | a in g.edges && b in g.edges && a != b && g.edges[a].bs == g.edges[b].bs == Some(n) ::
              g.edges[b].perm <= g.edges[a].shared
  {
    forall a, b | a in g.edges && b in g.edges
      ensures Allows(g.edges[a], g.edges[b]) <==> g.edges[b].perm <= g.edges[a].shared
    {
      AllowsMeans(g.edges[a], g.edges[b]);
    }
    forall e
      ensures e in Parents(g, n) <==> e in g.edges && g.edges[e].bs == Some(n)
    {
    }
  }

  lemma SettledMeans(d: Drivers, g: Graph, n: Node)
    ensures NodeSettled(d, g, n) <==>
            (d.hasDrv(n) ==>
               forall e | e in g.edges && g.edges[e].parent == Bds(n) && g.edges[e].bs.Some? ::
                 Granted(d, n, Some(e), g.edges[e], CumPerm(g, n), CumShared(g, n)))
  {
    hide CumPerm, CumShared;
    forall e | e in g.edges && g.edges[e].parent == Bds(n) && g.edges[e].bs.Some?
      ensures EdgeSettled(d, g, e) <==>
              (d.hasDrv(n) ==> Granted(d, n, Some(e), g.edges[e], CumPerm(g, n), CumShared(g, n)))
      ensures e in Children(g, n)
    {
      EveryPermIsAll(g.edges[e].shared);
    }
  }

  lemma DoneMeans(d: Drivers, g: Graph, n: Node)
    ensures Done(d, g, n) <==> Balanced(d, g, n)
  {
    CompatibleMeans(g, n);
    SettledMeans(d, g, n);
    DemandsAre(g, n);
    AcceptsMeans(d, n, CumPerm(g, n), CumShared(g, n));
    hide CumPerm, CumShared, Compatible, NodeSettled, NodeAccepts, Granted;
    forall perm, shared | Demands(g, n, perm, shared)
      ensures perm == CumPerm(g, n) && shared == CumShared(g, n)
    {
      DemandsUnique(g, n, perm, shared);
    }
    hide Demands;
  }

  /** r is g but for the permissions on the child edges of nodes in ns that have a driver. */
  predicate DiffersBelow(d: Drivers, g: Graph, r: Graph, ns: set<Node>) {
    && r.nodes == g.nodes && r.edges.Keys == g.edges.Keys
    && forall e | e in g.edges ::
         || r.edges[e] == g.edges[e]
         || (&& r.edges[e].(perm := {}, shared := {}) == g.edges[e].(perm := {}, shared := {})
             && g.edges[e].parent.Bds? && g.edges[e].parent.node in ns && d.hasDrv(g.edges[e].parent.node)
             && g.edges[e].bs.Some?)
  }

  lemma ComputedMeans(d: Drivers, g: Graph, r: Graph, ns: set<Node>)
    ensures DiffersOnComputed(d, g, r, ns) <==> DiffersBelow(d, g, r, ns)
  {
    if DiffersBelow(d, g, r, ns) {
      forall e | e in g.edges
        ensures r.edges[e] == g.edges[e].(perm := r.edges[e].perm, shared := r.edges[e].shared)
      {
      }
    }
  }

  /** A solution changes nothing but the permissions on the child edges of the nodes in ns, and
      there the equations hold; and whatever does so is a solution. */
  lemma SolutionMeans(d: Drivers, g: Graph, r: Graph, ns: set<Node>)
    ensures Solution(d, g, r, ns) <==> DiffersBelow(d, g, r, ns) && forall n | n in ns :: Balanced(d, r, n)
  {
    ComputedMeans(d, g, r, ns);
    forall n
      ensures Done(d, r, n) <==> Balanced(d, r, n)
    {
      DoneMeans(d, r, n);
    }
    hide Done, Balanced, DiffersBelow, DiffersOnComputed;
  }

  // ----- laws of the solution -----

  /** The driver of n hands its demands on, as filters do. */
  ghost predicate PassesOn(d: Drivers, n: Node) {
    d.hasDrv(n) && forall e, slot, perm, shared :: d.childPerm(n, e, slot, perm, shared) == (perm, shared)
  }

  /** Below a driver that hands its demands on, a child is asked for exactly what the parents
      ask for, and shared at least what they share. */
  lemma PassedOn(d: Drivers, g: Graph, n: Node, e: Edge, p: Perm)
    requires Done(d, g, n) && PassesOn(d, n) && e in g.edges && g.edges[e].parent == Bds(n) && g.edges[e].bs.Some?
    ensures p in g.edges[e].perm <==> exists x :: x in g.edges && g.edges[x].bs == Some(n) && p in g.edges[x].perm
    ensures (forall x | x in g.edges && g.edges[x].bs == Some(n) :: p in g.edges[x].shared) ==> p in g.edges[e].shared
  {
    SettledMeans(d, g, n);
    DemandsAre(g, n);
    hide CumPerm, CumShared;
  }

  /** Some parent asks p of n. */
  ghost predicate IsAsked(g: Graph, n: Node, p: Perm) {
    exists e :: e in g.edges && g.edges[e].bs == Some(n) && p in g.edges[e].perm
  }

  /** Every driver below n hands its demands on, and every node there is done. */
  ghost predicate AllPassOn(d: Drivers, g: Graph, n: Node) {
    forall v | Reach(Adj(g), n, v) :: PassesOn(d, v) && Done(d, g, v)
  }

  /** What some parent asks of a node is asked of everything below it, if the drivers there hand
      their demands on. */
  lemma DemandReachesDown(d: Drivers, g: Graph, n: Node, m: Node, p: Perm)
    requires AllPassOn(d, g, n) && IsAsked(g, n, p) && Reach(Adj(g), n, m)
    ensures IsAsked(g, m, p)
  {
    var path :| IsPath(Adj(g), n, path, m);
    DemandAlongPath(d, g, n, path, m, p);
  }

  lemma {:induction false} DemandAlongPath(d: Drivers, g: Graph, n: Node, path: seq<Node>, m: Node, p: Perm)
    requires AllPassOn(d, g, n) && IsAsked(g, n, p) && IsPath(Adj(g), n, path, m)
    ensures IsAsked(g, m, p)
    decreases |path|
  {
    if path != [] {
      var v := path[0];
      ReachSelf(Adj(g), n);
      var e := AdjacentHasEdge(g, n, v);
      PassedOn(d, g, n, e, p);
      hide PassesOn, Done;
      forall w | Reach(Adj(g), v, w)
        ensures PassesOn(d, w) && Done(d, g, w)
      {
        ReachEdge(Adj(g), n, v);
        ReachTrans(Adj(g), n, v, w);
      }
      DemandAlongPath(d, g, v, path[1..], m, p);
    }
  }

  /** An edge to a force-share node stands in no other parent's way. */
  lemma ForceShareYields(d: Drivers, g: Graph, n: Node, e: Edge, x: Edge)
    requires Done(d, g, n) && d.hasDrv(n) && e in g.edges && x in g.edges
    requires g.edges[e].parent == Bds(n) && g.edges[e].bs.Some? && d.forceShare(g.edges[e].bs.value)
    ensures g.edges[x].perm <= g.edges[e].shared
  {
    SettledMeans(d, g, n);
    EveryPermIsAll(g.edges[e].shared);
  }
}
