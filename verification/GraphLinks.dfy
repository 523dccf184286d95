/** What the operations of block.c leave behind, read off the edges and the nodes: who is linked
    to whom, over which slot, and who inherits from whom. */
module GraphLinks {
  import opened Options
  import opened Reachability
  import opened BlockGraph
  import opened GraphEdit
  import opened Permissions
  import opened GraphSpec

  /** Permissions aside, the edge is as it was. */
  predicate AsBefore(a: EdgeState, b: EdgeState) {
    b.(perm := {}, shared := {}) == a.(perm := {}, shared := {})
  }

  /** An edge of the node parent to child, neither frozen nor bound to stay. */
  predicate Joins(st: EdgeState, parent: Node, child: Node) {
    st.parent == Bds(parent) && st.bs == Some(child) && !st.frozen && !st.stayAtNode
  }

  /** Of the two slots, the given one holds e now, and the other is as it was. */
  predicate SlotHolds(before: NodeState, after: NodeState, slot: Slot, e: Option<Edge>) {
    && after.file == (if slot.FileSlot? then e else before.file)
    && after.backing == (if slot.BackingSlot? then e else before.backing)
  }

  /** The slot of parent holds e, and nothing else changes in any node. */
  predicate OnlySlot(g: Graph, r: Graph, parent: Node, slot: Slot, e: Option<Edge>) {
    && r.nodes.Keys == g.nodes.Keys && parent in g.nodes
    && SlotHolds(g.nodes[parent], r.nodes[parent], slot, e)
    && r.nodes[parent].inheritsFrom == g.nodes[parent].inheritsFrom
    && forall n | n in g.nodes && n != parent :: r.nodes[n] == g.nodes[n]
  }

  /** r has the edges of g, as they were, and e. */
  predicate Gains(g: Graph, r: Graph, e: Edge) {
    && r.edges.Keys == g.edges.Keys + {e}
    && forall x | x in g.edges :: AsBefore(g.edges[x], r.edges[x])
  }

  /** r has the edges of g, as they were, but not e, and no slot holds e. */
  predicate Loses(g: Graph, r: Graph, e: Edge) {
    && r.edges.Keys == g.edges.Keys - {e} && r.nodes.Keys == g.nodes.Keys
    && (forall x | x in r.edges :: AsBefore(g.edges[x], r.edges[x]))
    && (forall n | n in g.nodes ::
          && r.nodes[n].file == (if g.nodes[n].file == Some(e) then None else g.nodes[n].file)
          && r.nodes[n].backing == (if g.nodes[n].backing == Some(e) then None else g.nodes[n].backing))
  }

  /** The slot in which the driver of parent looks for its filtered or COW child. */
  predicate UsesBacking(d: Drivers, parent: Node, isBacking: bool) {
    if d.isFilter(parent) then d.filteredChildIsBacking(parent) else isBacking
  }

  lemma AttachedFields(d: Drivers, g: Graph, e: Edge, parent: Node, child: Node, slot: Slot)
    requires e !in g.edges && parent in g.nodes
    ensures var a := Attached(d, g, e, parent, child, slot);
            && e in a.edges && a.edges == g.edges[e := a.edges[e]]
            && Joins(a.edges[e], parent, child) && a.edges[e].slot == slot
            && OnlySlot(g, a, parent, slot, Some(e))
  {
    hide CumPerm, CumShared;
  }

  lemma AttachedGrants(d: Drivers, g: Graph, e: Edge, parent: Node, child: Node, slot: Slot, perm: Perms, shared: Perms)
    requires e !in g.edges && Demands(g, parent, perm, shared)
    ensures var a := Attached(d, g, e, parent, child, slot);
            e in a.edges && Granted(d, parent, None, a.edges[e], perm, shared)
  {
    DemandsUnique(g, parent, perm, shared);
    EveryPermIsAll(PERM_ALL);
    hide CumPerm, CumShared, Demands;
  }

  lemma SolutionFields(d: Drivers, g: Graph, r: Graph, ns: set<Node>)
    requires Solution(d, g, r, ns)
    ensures r.nodes == g.nodes && r.edges.Keys == g.edges.Keys
    ensures forall x | x in g.edges :: AsBefore(g.edges[x], r.edges[x])
  {
  }

  lemma AttachStays(d: Drivers, g: Graph, x: Graph, e: Edge, parent: Node, child: Node, slot: Slot)
    requires e !in g.edges && parent in g.nodes
    requires var r := Attached(d, g, e, parent, child, slot); Solution(d, r, x, Subtrees(r, [parent]))
    ensures Gains(g, x, e) && Joins(x.edges[e], parent, child) && x.edges[e].slot == slot
    ensures OnlySlot(g, x, parent, slot, Some(e))
  {
    var r := Attached(d, g, e, parent, child, slot);
    AttachedFields(d, g, e, parent, child, slot);
    SolutionFields(d, r, x, Subtrees(r, [parent]));
    hide Attached, Solution, Subtrees;
  }

  /** A refresh leaves alone what something that is not a node asks for. */
  lemma RootStays(d: Drivers, g: Graph, x: Graph, e: Edge, child: Node, stayAtNode: bool, perm: Perms, shared: Perms)
    requires e !in g.edges
    requires var r := DoGraph(g, Attach(e, RootEdge(stayAtNode, perm, shared), child));
             Solution(d, r, x, Subtrees(r, [child]))
    ensures Gains(g, x, e) && x.nodes == g.nodes
    ensures x.edges[e] == EdgeState(Outside, NoSlot, stayAtNode, false, Some(child), perm, shared)
  {
    var r := DoGraph(g, Attach(e, RootEdge(stayAtNode, perm, shared), child));
    assert r.nodes == g.nodes && r.edges.Keys == g.edges.Keys + {e};
    SolutionFields(d, r, x, Subtrees(r, [child]));
    assert !Computed(d, r, Subtrees(r, [child]), e);
    hide Subtrees, Done;
  }

  /** A refresh below the end of an edge leaves the edge itself alone. */
  lemma AskedStays(d: Drivers, g: Graph, x: Graph, e: Edge, perm: Perms, shared: Perms)
    requires Acyclic(Adj(g)) && e in g.edges && g.edges[e].bs.Some?
    requires var r := SetEdgePerm(g, e, perm, shared); Solution(d, r, x, Subtrees(r, [g.edges[e].bs.value]))
    ensures x.nodes == g.nodes && x.edges.Keys == g.edges.Keys
    ensures x.edges[e] == g.edges[e].(perm := perm, shared := shared)
  {
    var r := SetEdgePerm(g, e, perm, shared);
    var b := g.edges[e].bs.value;
    assert SameShape(g, r);
    SameShapeSameLists(g, r);
    hide Acyclic, Done;
    if Links(r.edges[e]) && r.edges[e].parent.node in Subtrees(r, [b]) {
      var v := g.edges[e].parent.node;
      var i :| 0 <= i < |[b]| && Reach(Adj(r), [b][i], v);
      ChildIsAdjacent(g, e, v);
      NoWayBack(Adj(g), v, b);
    }
    assert !Computed(d, r, Subtrees(r, [b]), e);
    hide Subtrees;
  }

  /** The edge x belongs to a node that n reaches. */
  ghost predicate OwnedBelow(g: Graph, n: Node, x: Edge)
    requires x in g.edges
  {
    g.edges[x].parent.Bds? && Reach(Adj(g), n, g.edges[x].parent.node)
  }

  /** Where the edge x ends when from is replaced by to: edges that are bound to stay, and those
      of nodes below to, are left alone. */
  ghost function EndAfter(g: Graph, x: Edge, from: Node, to: Node): Option<Node>
    requires x in g.edges
  {
    if g.edges[x].bs == Some(from) && !g.edges[x].stayAtNode && !OwnedBelow(g, to, x) then Some(to) else g.edges[x].bs
  }

  lemma SubtreeMeans(g: Graph, to: Node, x: Edge)
    requires x in g.edges && g.edges[x].bs.Some?
    ensures InSubtree(g, to, x) <==> OwnedBelow(g, to, x)
  {
    if OwnedBelow(g, to, x) {
      assert IsChildOf(g, x, g.edges[x].parent.node);
    }
  }

  /** Replacing a node moves exactly the ends that EndAfter says. */
  lemma RedirectedFields(g: Graph, from: Node, to: Node, x: Edge)
    requires x in g.edges
    ensures var r := Redirected(g, from, to);
            r.nodes == g.nodes && x in r.edges && r.edges[x] == g.edges[x].(bs := EndAfter(g, x, from, to))
  {
    if g.edges[x].bs.Some? {
      SubtreeMeans(g, to, x);
    }
    hide InSubtree, OwnedBelow;
  }

  /** When a node may be replaced: every edge that has to move can, and the others may be left. */
  lemma MayRedirectMeans(g: Graph, from: Node, to: Node, autoSkip: bool)
    ensures MayRedirect(g, from, to, autoSkip) <==>
            forall x | x in g.edges && g.edges[x].bs == Some(from) ::
              if g.edges[x].stayAtNode || OwnedBelow(g, to, x) then autoSkip else !g.edges[x].frozen
  {
    forall x | x in g.edges && g.edges[x].bs == Some(from)
      ensures InSubtree(g, to, x) <==> OwnedBelow(g, to, x)
      ensures x in Parents(g, from)
    {
      SubtreeMeans(g, to, x);
    }
    hide InSubtree, OwnedBelow;
  }

  /** The new link of bdrv_append does not matter for which parents move. */
  lemma AppendMoves(d: Drivers, g: Graph, e: Edge, bsNew: Node, bsTop: Node, slot: Slot, x: Edge)
    requires Acyclic(Adj(g)) && e !in g.edges && x in g.edges && g.edges[x].bs == Some(bsTop)
    requires !Reach(Adj(g), bsTop, bsNew)
    ensures var a := Attached(d, g, e, bsNew, bsTop, slot);
            x in a.edges && (OwnedBelow(a, bsNew, x) <==> OwnedBelow(g, bsNew, x))
  {
    var a := Attached(d, g, e, bsNew, bsTop, slot);
    AttachedEdges(d, g, e, bsNew, bsTop, slot);
    AttachedAdj(d, g, e, bsNew, bsTop, slot);
    hide Attached, Acyclic;
    if g.edges[x].parent.Bds? {
      var v := g.edges[x].parent.node;
      if Reach(Adj(g), bsNew, v) {
        var p :| IsPath(Adj(g), bsNew, p, v);
        PathGrows(Adj(g), Adj(a), bsNew, p, v);
      }
      if Reach(Adj(a), bsNew, v) {
        var p :| IsPath(Adj(a), bsNew, p, v);
        PathOverNewEdge(Adj(g), bsNew, bsTop, bsNew, p, v);
        ChildIsAdjacent(g, x, v);
        NoWayBack(Adj(g), v, bsTop);
        BelowIsReach(Adj(g), bsNew, v);
        ReachSelf(Adj(g), bsNew);
      }
    }
  }

  lemma AttachedAdj(d: Drivers, g: Graph, e: Edge, parent: Node, child: Node, slot: Slot)
    requires e !in g.edges
    ensures Adj(Attached(d, g, e, parent, child, slot)) == Adj(g) + {(parent, child)}
  {
    var a := Attached(d, g, e, parent, child, slot);
    AttachedEdges(d, g, e, parent, child, slot);
    hide Attached;
    forall p
      ensures p in Adj(a) <==> p in Adj(g) + {(parent, child)}
    {
      if p in Adj(g) {
        var x := AdjacentHasEdge(g, p.0, p.1);
        assert Links(a.edges[x]);
      }
      if p in Adj(a) {
        var x := AdjacentHasEdge(a, p.0, p.1);
      }
      if p == (parent, child) {
        ChildIsAdjacent(a, e, parent);
      }
    }
  }

  /** What bdrv_append leaves: the new node on top of the old one, which its parents now reach
      through it. */
  ghost predicate OnTop(d: Drivers, g: Graph, r: Graph, e: Edge, bsNew: Node, bsTop: Node) {
    && r.edges.Keys == g.edges.Keys + {e} && Joins(r.edges[e], bsNew, bsTop)
    && OnlySlot(g, r, bsNew, if UsesBacking(d, bsNew, true) then BackingSlot else FileSlot, Some(e))
    && forall x | x in g.edges :: AsBefore(g.edges[x].(bs := EndAfter(g, x, bsTop, bsNew)), r.edges[x])
  }

  lemma AppendFields(d: Drivers, g: Graph, e: Edge, bsNew: Node, bsTop: Node, x: Graph)
    requires Acyclic(Adj(g)) && e !in g.edges && bsNew in g.nodes && !Reach(Adj(g), bsTop, bsNew)
    requires var r := Redirected(Attached(d, g, e, bsNew, bsTop, SlotOf(d, bsNew, true)), bsTop, bsNew);
             Solution(d, r, x, Subtrees(r, [bsNew]))
    ensures OnTop(d, g, x, e, bsNew, bsTop)
  {
    var slot := SlotOf(d, bsNew, true);
    var a := Attached(d, g, e, bsNew, bsTop, slot);
    var r := Redirected(a, bsTop, bsNew);
    AttachedFields(d, g, e, bsNew, bsTop, slot);
    SolutionFields(d, r, x, Subtrees(r, [bsNew]));
    RedirectedEdges(a, bsTop, bsNew, e);
    hide Attached, Redirected, Solution, Subtrees, Acyclic, OwnedBelow;
    forall y | y in g.edges
      ensures r.edges[y] == g.edges[y].(bs := EndAfter(g, y, bsTop, bsNew))
    {
      RedirectedFields(a, bsTop, bsNew, y);
      if g.edges[y].bs == Some(bsTop) {
        AppendMoves(d, g, e, bsNew, bsTop, slot, y);
      }
    }
  }

  /** Whatever a node reached before bdrv_append it still reaches. */
  lemma AppendKeepsReach(d: Drivers, g: Graph, r: Graph, e: Edge, bsNew: Node, bsTop: Node, a: Node, b: Node)
    requires OnTop(d, g, r, e, bsNew, bsTop) && e !in g.edges && Reach(Adj(g), a, b)
    ensures Reach(Adj(r), a, b)
  {
    var s := ReachSet(Adj(r), a);
    ReachSelf(Adj(r), a);
    ReachSetHolds(Adj(r), a, a);
    forall x | x in Adj(g) && x.0 in s
      ensures x.1 in s
    {
      ReachSetHolds(Adj(r), a, x.0);
      var c := AdjacentHasEdge(g, x.0, x.1);
      ChildIsAdjacent(r, e, bsNew);
      ReachEdge(Adj(r), bsNew, bsTop);
      assert IsChildOf(r, c, x.0);
      ChildIsAdjacent(r, c, x.0);
      ReachEdge(Adj(r), x.0, r.edges[c].bs.value);
      ReachTrans(Adj(r), a, x.0, r.edges[c].bs.value);
      if r.edges[c].bs != g.edges[c].bs {
        ReachTrans(Adj(r), a, bsNew, bsTop);
      }
      ReachSetHolds(Adj(r), a, x.1);
    }
    ClosedHoldsReach(Adj(g), s, a, b);
    ReachSetHolds(Adj(r), a, b);
  }

  /** Detaching an edge empties the slot that holds it. */
  lemma DroppedFields(g: Graph, l: Edge)
    requires Sound(g) && l in g.edges
    ensures var r := Dropped(g, Some(l));
            && r.edges == g.edges[l := g.edges[l].(bs := None)] && Loses(g, Freed(r, {l}), l)
            && forall n | n in g.nodes :: r.nodes[n].inheritsFrom == g.nodes[n].inheritsFrom
  {
    assert EdgeSound(g, l);
    var r := Dropped(g, Some(l));
    assert r.edges == g.edges[l := g.edges[l].(bs := None)];
    forall n | n in g.nodes
      ensures && r.nodes[n].file == (if g.nodes[n].file == Some(l) then None else g.nodes[n].file)
              && r.nodes[n].backing == (if g.nodes[n].backing == Some(l) then None else g.nodes[n].backing)
              && r.nodes[n].inheritsFrom == g.nodes[n].inheritsFrom
    {
      assert SlotsSound(g, n);
    }
  }

  lemma WithoutFields(g: Graph, e: Edge)
    requires Sound(g) && e in g.edges
    ensures Loses(g, Without(g, e), e)
    ensures forall n | n in g.nodes :: Without(g, e).nodes[n].inheritsFrom == g.nodes[n].inheritsFrom
  {
    DroppedFields(g, e);
    if g.edges[e].bs.None? {
      assert SetBs(g, e, None).nodes == g.nodes;
    }
  }

  /** Losing an edge and then some permissions is losing the edge. */
  lemma LosesThenRefreshed(g: Graph, r: Graph, x: Graph, e: Edge)
    requires Loses(g, r, e) && SameShape(r, x)
    ensures Loses(g, x, e)
  {
    forall y | y in x.edges
      ensures AsBefore(g.edges[y], x.edges[y])
    {
      assert AsBefore(g.edges[y], r.edges[y]);
    }
  }

  lemma DisownedHeritage(g: Graph, root: Node, e: Edge)
    requires e in g.edges && g.edges[e].bs.Some?
    ensures Heritage(g, Disowned(g, Heirs(g, root, e)), root, Some(e), None, false)
  {
    forall n | n in g.nodes
      ensures Disowned(g, Heirs(g, root, e)).nodes[n].inheritsFrom ==
              if LosesHeritage(g, root, e, n) then None else g.nodes[n].inheritsFrom
    {
      DisownedFields(g, root, e, n);
    }
    hide LosesHeritage, Heirs, Disowned;
  }

  lemma HeritageStays(g: Graph, m: Graph, r: Graph, root: Node, e: Edge)
    requires Heritage(g, m, root, Some(e), None, false) && m.nodes.Keys == g.nodes.Keys
    requires forall n | n in r.nodes :: n in m.nodes && r.nodes[n].inheritsFrom == m.nodes[n].inheritsFrom
    ensures Heritage(g, r, root, Some(e), None, false)
  {
    hide LosesHeritage;
  }

  lemma LosesAfterDisowned(g: Graph, m: Graph, r: Graph, e: Edge)
    requires m.edges == g.edges && m.nodes.Keys == g.nodes.Keys && Loses(m, r, e)
    requires forall n | n in g.nodes :: m.nodes[n].file == g.nodes[n].file && m.nodes[n].backing == g.nodes[n].backing
    ensures Loses(g, r, e)
  {
  }

  /** n inherits from root, lies below child, and is not linked from root by another edge: its
      inherits_from is cleared when root lets go of child. */
  ghost predicate LosesHeritage(g: Graph, root: Node, child: Edge, n: Node) {
    && n in g.nodes && g.nodes[n].inheritsFrom == Some(root)
    && child in g.edges && g.edges[child].bs.Some? && Reach(Adj(g), g.edges[child].bs.value, n)
    && forall x | x in g.edges && g.edges[x].parent == Bds(root) && g.edges[x].bs == Some(n) :: x == child
  }

  lemma DisownedFields(g: Graph, root: Node, child: Edge, n: Node)
    requires child in g.edges && g.edges[child].bs.Some? && n in g.nodes
    ensures var r := Disowned(g, Heirs(g, root, child));
            && r.edges == g.edges && n in r.nodes
            && r.nodes[n] ==
               if LosesHeritage(g, root, child, n) then g.nodes[n].(inheritsFrom := None) else g.nodes[n]
  {
    if x :| x in g.edges && g.edges[x].parent == Bds(root) && g.edges[x].bs == Some(n) && x != child {
      assert IsChildOf(g, x, root);
    }
  }

  /** What bdrv_replace_node_common leaves: the ends of edges as EndAfter says, and no trace of the
      link drop. */
  ghost predicate Replaced(g: Graph, r: Graph, from: Node, to: Node, drop: Option<Edge>) {
    && r.edges.Keys == g.edges.Keys - EdgeSet(drop) && r.nodes.Keys == g.nodes.Keys
    && (forall x | x in r.edges && x in g.edges :: AsBefore(g.edges[x].(bs := EndAfter(g, x, from, to)), r.edges[x]))
    && (forall n | n in g.nodes ::
          && r.nodes[n].file == (if drop.Some? && g.nodes[n].file == drop then None else g.nodes[n].file)
          && r.nodes[n].backing == (if drop.Some? && g.nodes[n].backing == drop then None else g.nodes[n].backing)
          && r.nodes[n].inheritsFrom == g.nodes[n].inheritsFrom)
  }

  lemma ReplaceFields(d: Drivers, g: Graph, x: Graph, from: Node, to: Node, drop: Option<Edge>, ns: set<Node>)
    requires Sound(Redirected(g, from, to)) && (drop.Some? ==> drop.value in g.edges)
    requires Solution(d, Dropped(Redirected(g, from, to), drop), x, ns)
    ensures Replaced(g, Freed(x, EdgeSet(drop)), from, to, drop)
  {
    var m := Redirected(g, from, to);
    var r := Dropped(m, drop);
    RedirectedKeys(g, from, to);
    if drop.Some? {
      DroppedFields(m, drop.value);
    }
    SolutionFields(d, r, x, ns);
    forall y | y in g.edges
      ensures m.edges[y] == g.edges[y].(bs := EndAfter(g, y, from, to))
    {
      RedirectedFields(g, from, to, y);
    }
    assert drop.None? ==> r == m;
    hide Redirected, Dropped, Solution, Sound, EndAfter;
    var f := Freed(x, EdgeSet(drop));
    forall y | y in f.edges && y in g.edges
      ensures AsBefore(g.edges[y].(bs := EndAfter(g, y, from, to)), f.edges[y])
    {
      assert AsBefore(r.edges[y], x.edges[y]);
    }
  }

  /** r is g without some of the child edges of n; the others are as they were. */
  predicate Released(g: Graph, r: Graph, n: Node) {
    && r.nodes.Keys == g.nodes.Keys
    && (forall x | x in g.edges && !IsChildOf(g, x, n) :: x in r.edges && AsBefore(g.edges[x], r.edges[x]))
    && (forall x | x in r.edges :: x in g.edges && (IsChildOf(r, x, n) <==> IsChildOf(g, x, n)))
    && (forall m | m in g.nodes && m != n ::
          r.nodes[m].file == g.nodes[m].file && r.nodes[m].backing == g.nodes[m].backing)
  }

  lemma ReleasedMore(g: Graph, m: Graph, r: Graph, n: Node, e: Edge)
    requires Released(g, m, n) && IsChildOf(m, e, n) && Sound(m) && Loses(m, r, e)
    ensures Released(g, r, n)
  {
    forall v | v in g.nodes && v != n
      ensures r.nodes[v].file == g.nodes[v].file && r.nodes[v].backing == g.nodes[v].backing
    {
      assert SlotsSound(m, v);
    }
    hide Sound;
    forall x | x in g.edges && !IsChildOf(g, x, n)
      ensures x in r.edges && AsBefore(g.edges[x], r.edges[x])
    {
      assert x in m.edges && x != e;
    }
  }

  lemma FlaggedReleases(g: Graph, n: Node)
    ensures Released(g, Flagged(g, Children(g, n), false), n)
  {
  }

  lemma ChildrenThawed(g: Graph, r: Graph, n: Node)
    requires r == Flagged(g, Children(g, n), false)
    ensures forall e | e in Children(r, n) :: IsChildOf(r, e, n) && !r.edges[e].frozen
  {
  }

  lemma ChildLost(g: Graph, r: Graph, e: Edge, n: Node)
    requires Loses(g, r, e) && e in Children(g, n)
    requires forall x | x in Children(g, n) :: !g.edges[x].frozen
    ensures Children(r, n) == Children(g, n) - {e}
    ensures forall x | x in Children(r, n) :: IsChildOf(r, x, n) && !r.edges[x].frozen
  {
    forall x
      ensures x in Children(r, n) <==> x in Children(g, n) - {e}
    {
      assert x in r.edges ==> AsBefore(g.edges[x], r.edges[x]);
    }
    forall x | x in Children(r, n)
      ensures IsChildOf(r, x, n) && !r.edges[x].frozen
    {
      assert AsBefore(g.edges[x], r.edges[x]);
    }
  }

  lemma ReleasedAll(g: Graph, r: Graph, n: Node)
    requires Released(g, r, n)
    ensures forall e | e in g.edges && !IsChildOf(g, e, n) :: e in r.edges && AsBefore(g.edges[e], r.edges[e])
    ensures forall m | m in g.nodes && m != n :: m in r.nodes && SlotHolds(g.nodes[m], r.nodes[m], NoSlot, None)
  {
  }

  /** The edges once the new child, if any, has taken the place of the edge was. */
  predicate ChildEdges(g: Graph, r: Graph, e: Edge, parent: Node, child: Option<Node>, was: Option<Edge>) {
    && (forall x | x in r.edges && was != Some(x) :: x in g.edges || (child.Some? && x == e))
    && (forall x | x in g.edges && was != Some(x) :: x in r.edges && AsBefore(g.edges[x], r.edges[x]))
    && (child.Some? ==> e in r.edges && Joins(r.edges[e], parent, child.value))
  }

  /** The slots then: the old child is out of its slot, the new one is in the slot that the
      driver uses, and the others are as they were. */
  predicate ChildSlots(d: Drivers, g: Graph, r: Graph, e: Edge, parent: Node, child: Option<Node>, isBacking: bool) {
    && r.nodes.Keys == g.nodes.Keys && parent in g.nodes
    && (forall n | n in g.nodes && n != parent ::
          r.nodes[n].file == g.nodes[n].file && r.nodes[n].backing == g.nodes[n].backing)
    && var back := UsesBacking(d, parent, isBacking);
    && r.nodes[parent].backing ==
       (if child.Some? && back then Some(e) else if isBacking then None else g.nodes[parent].backing)
    && r.nodes[parent].file ==
       (if child.Some? && !back then Some(e) else if isBacking then g.nodes[parent].file else None)
  }

  /** What bdrv_set_file_or_backing_noperm leaves. */
  ghost predicate ChildSet(d: Drivers, g: Graph, r: Graph, e: Edge, parent: Node, child: Option<Node>, isBacking: bool,
      inherit: bool)
  {
    && ChildSlots(d, g, r, e, parent, child, isBacking)
    && ChildEdges(g, r, e, parent, child, if isBacking then g.nodes[parent].backing else g.nodes[parent].file)
    && Heritage(g, r, parent, if isBacking then g.nodes[parent].backing else g.nodes[parent].file, child, inherit)
  }

  /** Who inherits then: the new child from parent, if it is to, and nobody from parent by way of the
      old one. */
  ghost predicate Heritage(g: Graph, r: Graph, parent: Node, was: Option<Edge>, child: Option<Node>, inherit: bool) {
    forall n | n in g.nodes && n in r.nodes ::
      r.nodes[n].inheritsFrom ==
        if inherit && child == Some(n) then Some(parent)
        else if was.Some? && LosesHeritage(g, parent, was.value, n) then None
        else g.nodes[n].inheritsFrom
  }

  /** u is g with the edge was detached and the slot of parent empty. */
  predicate Emptied(g: Graph, u: Graph, parent: Node, was: Option<Edge>, isBacking: bool) {
    && parent in g.nodes && u.nodes.Keys == g.nodes.Keys && (was.Some? ==> was.value in g.edges)
    && u.edges == (if was.Some? then g.edges[was.value := g.edges[was.value].(bs := None)] else g.edges)
    && (forall n | n in g.nodes && n != parent ::
          u.nodes[n].file == g.nodes[n].file && u.nodes[n].backing == g.nodes[n].backing)
    && SlotHolds(g.nodes[parent], u.nodes[parent], if isBacking then BackingSlot else FileSlot, None)
  }

  /** r is u with the new edge e in the slot of parent. */
  predicate Filled(u: Graph, r: Graph, e: Edge, parent: Node, child: Node, slot: Slot) {
    && parent in u.nodes && r.nodes.Keys == u.nodes.Keys
    && e in r.edges && r.edges == u.edges[e := r.edges[e]] && Joins(r.edges[e], parent, child)
    && (forall n | n in u.nodes && n != parent ::
          r.nodes[n].file == u.nodes[n].file && r.nodes[n].backing == u.nodes[n].backing)
    && SlotHolds(u.nodes[parent], r.nodes[parent], slot, Some(e))
  }

  lemma UnsetFields(g: Graph, parent: Node, isBacking: bool)
    requires Sound(g) && parent in g.nodes
    ensures var was := SlotEdge(g, parent, isBacking);
            && (was.Some? ==> was.value in g.edges && g.edges[was.value].bs.Some?)
            && Emptied(g, Unset(g, parent, was), parent, was, isBacking)
  {
    SlotEdgeIsChild(g, parent, isBacking);
    var was := SlotEdge(g, parent, isBacking);
    if was.Some? {
      SlotIsParents(g, parent, was.value, isBacking);
      var m := Disowned(g, Heirs(g, parent, was.value));
      DisownedLists(g, Heirs(g, parent, was.value));
      SameShapeSound(g, m);
      DroppedFields(m, was.value);
      hide Dropped, Heirs, Disowned, Sound, Children, Parents, AllCompatible;
      LostIsEmptied(g, m, Dropped(m, was), parent, was.value, isBacking);
    }
  }

  /** An edge is in no other slot than the one of its parent that it is meant for. */
  lemma SlotIsParents(g: Graph, parent: Node, e: Edge, isBacking: bool)
    requires Sound(g) && parent in g.nodes && SlotEdge(g, parent, isBacking) == Some(e)
    ensures SlotEdge(g, parent, !isBacking) != Some(e)
    ensures forall n | n in g.nodes && n != parent :: g.nodes[n].file != Some(e) && g.nodes[n].backing != Some(e)
  {
    forall n | n in g.nodes
      ensures g.nodes[n].file == Some(e) || g.nodes[n].backing == Some(e) ==> n == parent
    {
      assert SlotsSound(g, n);
    }
    assert SlotsSound(g, parent);
  }

  lemma LostIsEmptied(g: Graph, m: Graph, r: Graph, parent: Node, e: Edge, isBacking: bool)
    requires m.edges == g.edges && m.nodes.Keys == g.nodes.Keys && parent in g.nodes && e in g.edges
    requires forall n | n in g.nodes :: m.nodes[n].file == g.nodes[n].file && m.nodes[n].backing == g.nodes[n].backing
    requires r.edges == m.edges[e := m.edges[e].(bs := None)] && Loses(m, Freed(r, {e}), e)
    requires SlotEdge(g, parent, isBacking) == Some(e) && SlotEdge(g, parent, !isBacking) != Some(e)
    requires forall n | n in g.nodes && n != parent :: g.nodes[n].file != Some(e) && g.nodes[n].backing != Some(e)
    ensures Emptied(g, r, parent, Some(e), isBacking)
  {
  }

  lemma UnsetHeritage(g: Graph, parent: Node, was: Option<Edge>)
    requires Sound(g) && (was.Some? ==> was.value in g.edges && g.edges[was.value].bs.Some?)
    ensures var u := Unset(g, parent, was);
            && u.nodes.Keys == g.nodes.Keys
            && forall n | n in g.nodes ::
                 u.nodes[n].inheritsFrom ==
                   if was.Some? && LosesHeritage(g, parent, was.value, n) then None else g.nodes[n].inheritsFrom
  {
    if was.Some? {
      var m := Disowned(g, Heirs(g, parent, was.value));
      DisownedLists(g, Heirs(g, parent, was.value));
      SameShapeSound(g, m);
      DroppedFields(m, was.value);
      hide Dropped, Sound, Children, Parents, AllCompatible;
      forall n | n in g.nodes
        ensures m.nodes[n].inheritsFrom ==
                if LosesHeritage(g, parent, was.value, n) then None else g.nodes[n].inheritsFrom
      {
        DisownedFields(g, parent, was.value, n);
      }
      hide Heirs, Disowned, LosesHeritage;
    }
  }

  lemma RefilledFields(d: Drivers, g: Graph, e: Edge, parent: Node, child: Node, slot: Slot, inherit: bool)
    requires e !in g.edges && parent in g.nodes && child in g.nodes
    ensures var r := Refilled(d, g, e, parent, Some(child), slot, inherit);
            && Filled(g, r, e, parent, child, slot)
            && forall n | n in g.nodes ::
                 r.nodes[n].inheritsFrom == if inherit && n == child then Some(parent) else g.nodes[n].inheritsFrom
  {
    AttachedFields(d, g, e, parent, child, slot);
    hide Attached;
  }

  lemma EmptiedIsSet(d: Drivers, g: Graph, u: Graph, e: Edge, parent: Node, was: Option<Edge>, isBacking: bool)
    requires Emptied(g, u, parent, was, isBacking)
    ensures ChildSlots(d, g, u, e, parent, None, isBacking) && ChildEdges(g, u, e, parent, None, was)
  {
  }

  lemma FilledSlots(d: Drivers, g: Graph, u: Graph, r: Graph, e: Edge, parent: Node, child: Node, was: Option<Edge>,
      isBacking: bool)
    requires Emptied(g, u, parent, was, isBacking) && Filled(u, r, e, parent, child, SlotOf(d, parent, isBacking))
    ensures ChildSlots(d, g, r, e, parent, Some(child), isBacking)
  {
  }

  lemma FilledEdges(g: Graph, u: Graph, r: Graph, e: Edge, parent: Node, child: Node, slot: Slot, was: Option<Edge>,
      isBacking: bool)
    requires Emptied(g, u, parent, was, isBacking) && Filled(u, r, e, parent, child, slot) && e !in g.edges
    ensures ChildEdges(g, r, e, parent, Some(child), was)
    ensures was.Some? ==> was.value in r.edges && r.edges[was.value].bs.None?
  {
    hide SlotHolds;
  }

  lemma SetHeritage(d: Drivers, g: Graph, e: Edge, parent: Node, child: Option<Node>, slot: Slot, inherit: bool,
      was: Option<Edge>)
    requires Sound(g) && parent in g.nodes && (child.Some? ==> child.value in g.nodes) && e !in g.edges
    requires was.Some? ==> was.value in g.edges && g.edges[was.value].bs.Some?
    ensures var filled := Refilled(d, Unset(g, parent, was), e, parent, child, slot, inherit);
            Heritage(g, filled, parent, was, child, inherit)
  {
    UnsetHeritage(g, parent, was);
    UnsetKeys(g, parent, was);
    var u := Unset(g, parent, was);
    if child.Some? {
      RefilledFields(d, u, e, parent, child.value, slot, inherit);
      hide Refilled;
    }
    hide LosesHeritage, Unset, Filled;
  }

  lemma ChildSetFields(d: Drivers, g: Graph, e: Edge, parent: Node, child: Option<Node>, isBacking: bool, inherit: bool)
    requires Sound(g) && parent in g.nodes && (child.Some? ==> child.value in g.nodes) && e !in g.edges
    ensures var was := SlotEdge(g, parent, isBacking);
            && (was.Some? ==> was.value in g.edges && g.edges[was.value].bs.Some?)
            && var r := Refilled(d, Unset(g, parent, was), e, parent, child, SlotOf(d, parent, isBacking), inherit);
            && ChildSet(d, g, r, e, parent, child, isBacking, inherit)
            && (was.Some? ==> was.value in r.edges && r.edges[was.value].bs.None?)
  {
    hide Unset, Sound, SlotHolds, Joins, AsBefore, Heritage, ChildSlots, ChildEdges, Filled;
    UnsetFields(g, parent, isBacking);
    var was := SlotEdge(g, parent, isBacking);
    var u := Unset(g, parent, was);
    var slot := SlotOf(d, parent, isBacking);
    SetHeritage(d, g, e, parent, child, slot, inherit, was);
    var r := Refilled(d, u, e, parent, child, slot, inherit);
    if child.Some? {
      assert e !in u.edges && parent in u.nodes && child.value in u.nodes;
      hide Refilled, Emptied, SlotOf;
      RefilledFields(d, u, e, parent, child.value, slot, inherit);
      FilledSlots(d, g, u, r, e, parent, child.value, was, isBacking);
      FilledEdges(g, u, r, e, parent, child.value, slot, was, isBacking);
    } else {
      EmptiedIsSet(d, g, u, e, parent, was, isBacking);
      assert was.Some? ==> u.edges[was.value].bs.None?;
    }
  }

  /** Refreshing permissions and freeing the old edge is no part of it. */
  lemma ChildSetStays(d: Drivers, g: Graph, r: Graph, x: Graph, e: Edge, parent: Node, child: Option<Node>,
      isBacking: bool, inherit: bool, ns: set<Node>)
    requires ChildSet(d, g, r, e, parent, child, isBacking, inherit) && Solution(d, r, x, ns) && e !in g.edges
    requires parent in g.nodes && SlotEdge(g, parent, isBacking) != Some(e)
    ensures ChildSet(d, g, Freed(x, EdgeSet(SlotEdge(g, parent, isBacking))), e, parent, child, isBacking, inherit)
  {
    hide Solution, ChildSlots, ChildEdges, Heritage, AsBefore;
    SolutionFields(d, r, x, ns);
    var was := SlotEdge(g, parent, isBacking);
    var f := Freed(x, EdgeSet(was));
    SameNodes(d, g, r, f, e, parent, child, isBacking, inherit, was);
    ChildEdgesStay(g, r, f, e, parent, child, was);
  }

  lemma SameNodes(d: Drivers, g: Graph, r: Graph, f: Graph, e: Edge, parent: Node, child: Option<Node>,
      isBacking: bool, inherit: bool, was: Option<Edge>)
    requires f.nodes == r.nodes && ChildSlots(d, g, r, e, parent, child, isBacking)
    requires Heritage(g, r, parent, was, child, inherit)
    ensures ChildSlots(d, g, f, e, parent, child, isBacking) && Heritage(g, f, parent, was, child, inherit)
  {
    hide LosesHeritage;
  }

  lemma ChildEdgesStay(g: Graph, r: Graph, f: Graph, e: Edge, parent: Node, child: Option<Node>, was: Option<Edge>)
    requires ChildEdges(g, r, e, parent, child, was) && f.edges.Keys == r.edges.Keys - EdgeSet(was) && was != Some(e)
    requires forall x | x in f.edges :: AsBefore(r.edges[x], f.edges[x])
    ensures ChildEdges(g, f, e, parent, child, was)
  {
    forall x | x in g.edges && was != Some(x)
      ensures x in f.edges && AsBefore(g.edges[x], f.edges[x])
    {
      assert AsBefore(g.edges[x], r.edges[x]);
    }
  }
}
