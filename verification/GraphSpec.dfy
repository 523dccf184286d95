/** What the operations of block.c make of the block graph: the graphs that result from
    redirecting parents, attaching, removing and disowning children and from adding and deleting
    nodes, and how references, permissions and acyclicity come through. */
module GraphSpec {
  import opened Options
  import opened Reachability
  import opened BlockGraph
  import opened GraphEdit
  import opened Permissions

  predicate AllCompatible(g: Graph) {
    forall n | n in g.nodes :: Compatible(g, n)
  }

  ghost predicate Healthy(g: Graph) {
    Sound(g) && Acyclic(Adj(g)) && AllCompatible(g)
  }

  /** s is what the edits ops made of start. */
  ghost predicate Edited(start: State, ops: seq<Op>, s: State) {
    && start.log == [] && Healthy(start.g) && OpsOk(start, ops)
    && s.g == DoAll(start, ops).g && s.log == DoAll(start, ops).log
  }

  lemma EditedFacts(start: State, ops: seq<Op>, s: State)
    requires Edited(start, ops, s)
    ensures Sound(s.g) && RemovedDetached(s.g, s.log)
  {
    DoAllSound(start, ops);
    DoAllKeepsRemoved(start, ops);
  }

  lemma EditedMore(start: State, ops: seq<Op>, s: State, op: Op)
    requires Edited(start, ops, s) && OpOk(s.g, s.log, op)
    ensures Edited(start, ops + [op], Do(s, op))
  {
  }

  function RemovedEdges(log: seq<Action>): set<Edge> {
    set a | a in log && a.RemoveCommit? :: a.e
  }

  lemma RemovedBy(log: seq<Action>, e: Edge)
    ensures e in RemovedEdges(log) <==> Removed(log, e)
  {
  }

  /** The edges an edit marks to be freed on commit. */
  function Marks(op: Op): set<Edge> {
    if op.Remove? then {op.e} else {}
  }

  lemma RemovedMore(s: State, op: Op)
    requires OpOk(s.g, s.log, op)
    ensures RemovedEdges(Do(s, op).log) == RemovedEdges(s.log) + Marks(op)
  {
  }

  function Freed(g: Graph, es: set<Edge>): Graph {
    g.(edges := g.edges - es)
  }

  lemma RemovedSnoc(log: seq<Action>, a: Action)
    ensures RemovedEdges(log + [a]) == RemovedEdges(log) + (if a.RemoveCommit? then {a.e} else {})
  {
  }

  /** Commit frees the removed edges and leaves the rest of the graph alone. */
  lemma {:induction false} CommitGraph(s: State)
    ensures Commit(s).g.nodes == s.g.nodes && Commit(s).g.edges == s.g.edges - RemovedEdges(s.log)
    decreases |s.log|
  {
    if s.log != [] {
      var log, a := Init(s.log), Last(s.log);
      assert s.log == log + [a];
      RemovedSnoc(log, a);
      CommitGraph(CommitOne(s.(log := log), a));
    }
  }

  /** A node whose parents were there before, with the permissions they had, has no new conflict. */
  lemma FewerParents(g: Graph, r: Graph, n: Node)
    requires Compatible(g, n)
    requires forall e | e in Parents(r, n) ::
               e in Parents(g, n) && r.edges[e].perm == g.edges[e].perm && r.edges[e].shared == g.edges[e].shared
    ensures Compatible(r, n)
  {
  }

  /** Commit leaves a healthy graph and accounts for every reference. */
  lemma CommitIsHealthy(s: State, outside: multiset<Node>)
    requires Healthy(s.g) && RemovedDetached(s.g, s.log) && RefsOk(s, outside)
    ensures Healthy(Commit(s).g) && RefsOk(Commit(s), outside) && Commit(s).log == []
  {
    CommitKeeps(s, outside);
    var r := Commit(s).g;
    forall n | n in r.nodes
      ensures Compatible(r, n)
    {
      FewerParents(s.g, r, n);
    }
  }

  // ----- what single edits do to the relation -----

  function NewPair(p: Parent, to: Option<Node>): Rel {
    if p.Bds? && to.Some? then {(p.node, to.value)} else {}
  }

  lemma SetBsAdj(g: Graph, e: Edge, to: Option<Node>)
    requires e in g.edges
    ensures Adj(SetBs(g, e, to)) <= Adj(g) + NewPair(g.edges[e].parent, to)
  {
  }

  /** Pointing an edge of u at a node that does not reach u closes no cycle. */
  lemma SetBsAcyclic(g: Graph, e: Edge, to: Option<Node>)
    requires Acyclic(Adj(g)) && e in g.edges
    requires g.edges[e].parent.Bds? && to.Some? ==> !Reach(Adj(g), to.value, g.edges[e].parent.node)
    ensures Acyclic(Adj(SetBs(g, e, to)))
  {
    SetBsAdj(g, e, to);
    var p := g.edges[e].parent;
    if p.Bds? && to.Some? {
      AddedEdgeIsAcyclic(Adj(g), p.node, to.value);
      SubsetIsAcyclic(Adj(SetBs(g, e, to)), Adj(g) + {(p.node, to.value)});
    } else {
      SubsetIsAcyclic(Adj(SetBs(g, e, to)), Adj(g));
    }
  }

  lemma NewEdgeAdj(g: Graph, e: Edge, st: EdgeState)
    requires e !in g.edges && st.bs.None?
    ensures Adj(WithEdge(g, e, st)) == Adj(g)
  {
    var r := WithEdge(g, e, st);
    forall p
      ensures p in Adj(r) <==> p in Adj(g)
    {
      if p in Adj(g) {
        var x := AdjacentHasEdge(g, p.0, p.1);
        assert Links(r.edges[x]);
      }
      if p in Adj(r) {
        var x := AdjacentHasEdge(r, p.0, p.1);
        assert Links(g.edges[x]);
      }
    }
  }

  /** The child edges of n, except those still to do, have been given their permissions. */
  predicate PartlySet(d: Drivers, g: Graph, r: Graph, n: Node, perm: Perms, shared: Perms, todo: set<Edge>) {
    && SameShape(g, r)
    && (forall e | e in g.edges && (e in todo || !IsChildOf(g, e, n)) :: r.edges[e] == g.edges[e])
    && (forall e | e in g.edges && e !in todo && IsChildOf(g, e, n) ::
          (r.edges[e].perm, r.edges[e].shared) == ChildPerm(d, g, n, e, perm, shared))
  }

  lemma SetNoneYet(d: Drivers, g: Graph, n: Node, perm: Perms, shared: Perms)
    ensures PartlySet(d, g, g, n, perm, shared, Children(g, n))
  {
  }

  lemma SetOneMore(d: Drivers, g: Graph, r: Graph, n: Node, perm: Perms, shared: Perms, todo: set<Edge>, e: Edge)
    requires PartlySet(d, g, r, n, perm, shared, todo) && todo <= Children(g, n) && e in todo
    ensures IsChildOf(r, e, n) && todo - {e} <= Children(g, n)
    ensures var (p, sh) := ChildPerm(d, r, n, e, perm, shared);
            PartlySet(d, g, SetEdgePerm(r, e, p, sh), n, perm, shared, todo - {e})
  {
  }

  // ----- redirecting parents -----

  /** What should_update_child decides. */
  ghost predicate Movable(g: Graph, c: Edge, to: Node)
    requires c in g.edges
  {
    !g.edges[c].stayAtNode && !InSubtree(g, to, c)
  }

  ghost predicate Moves(g: Graph, c: Edge, from: Node, to: Node) {
    c in g.edges && g.edges[c].bs == Some(from) && Movable(g, c, to)
  }

  /** g with the edges that may leave from pointed at to, except those still to do. */
  ghost function RedirectedBut(g: Graph, from: Node, to: Node, todo: set<Edge>): Graph {
    g.(edges := map c | c in g.edges ::
         if Moves(g, c, from, to) && c !in todo then g.edges[c].(bs := Some(to)) else g.edges[c])
  }

  ghost function Redirected(g: Graph, from: Node, to: Node): Graph {
    RedirectedBut(g, from, to, {})
  }

  /** When bdrv_replace_node_noperm succeeds. */
  ghost predicate MayRedirect(g: Graph, from: Node, to: Node, autoSkip: bool) {
    forall c | c in Parents(g, from) :: if Movable(g, c, to) then !g.edges[c].frozen else autoSkip
  }

  /** r is g with some edges outside the subtree of to pointed elsewhere. */
  ghost predicate OnlyOutsideMoved(g: Graph, r: Graph, to: Node) {
    && r.edges.Keys == g.edges.Keys
    && forall e | e in g.edges ::
         r.edges[e] == g.edges[e] ||
         (!InSubtree(g, to, e) && r.edges[e].parent == g.edges[e].parent && r.edges[e].bs.Some? && g.edges[e].bs.Some?)
  }

  /** Redirecting edges from outside the subtree of to leaves that subtree as it is. */
  lemma SubtreeStable(g: Graph, r: Graph, to: Node, c: Edge)
    requires OnlyOutsideMoved(g, r, to) && c in g.edges
    ensures InSubtree(r, to, c) <==> InSubtree(g, to, c)
  {
    forall v
      ensures Reach(Adj(r), to, v) <==> Reach(Adj(g), to, v)
    {
      SubtreeStableOneWay(g, r, to, v);
      SubtreeStableBack(g, r, to, v);
    }
    forall v | Reach(Adj(g), to, v)
      ensures IsChildOf(r, c, v) <==> IsChildOf(g, c, v)
    {
    }
  }

  /** Out of what to reaches in g, r has the edges that g has. */
  lemma SameOutEdges(g: Graph, r: Graph, to: Node, x: (Node, Node))
    requires OnlyOutsideMoved(g, r, to) && Reach(Adj(g), to, x.0)
    ensures x in Adj(r) <==> x in Adj(g)
  {
  }

  lemma SubtreeStableOneWay(g: Graph, r: Graph, to: Node, v: Node)
    requires OnlyOutsideMoved(g, r, to)
    ensures Reach(Adj(r), to, v) ==> Reach(Adj(g), to, v)
  {
    if Reach(Adj(r), to, v) {
      var s := ReachSet(Adj(g), to);
      ReachSelf(Adj(g), to);
      ReachSetHolds(Adj(g), to, to);
      ReachSetHolds(Adj(g), to, v);
      forall x | x in Adj(r) && x.0 in s
        ensures x.1 in s
      {
        ReachSetHolds(Adj(g), to, x.0);
        SameOutEdges(g, r, to, x);
        ReachEdge(Adj(g), x.0, x.1);
        ReachTrans(Adj(g), to, x.0, x.1);
        ReachSetHolds(Adj(g), to, x.1);
      }
      ClosedHoldsReach(Adj(r), s, to, v);
    }
  }

  lemma SubtreeStableBack(g: Graph, r: Graph, to: Node, v: Node)
    requires OnlyOutsideMoved(g, r, to)
    ensures Reach(Adj(g), to, v) ==> Reach(Adj(r), to, v)
  {
    if Reach(Adj(g), to, v) {
      var s := ReachSet(Adj(r), to);
      ReachSelf(Adj(r), to);
      ReachSetHolds(Adj(r), to, to);
      ReachSetHolds(Adj(r), to, v);
      forall x | x in Adj(g) && x.0 in s
        ensures x.1 in s
      {
        ReachSetHolds(Adj(r), to, x.0);
        SubtreeStableOneWay(g, r, to, x.0);
        SameOutEdges(g, r, to, x);
        ReachEdge(Adj(r), x.0, x.1);
        ReachTrans(Adj(r), to, x.0, x.1);
        ReachSetHolds(Adj(r), to, x.1);
      }
      ClosedHoldsReach(Adj(g), s, to, v);
    }
  }

  lemma RedirectNone(g: Graph, from: Node, to: Node)
    ensures RedirectedBut(g, from, to, Parents(g, from)) == g
  {
  }

  /** An edge that stays behind. */
  lemma RedirectSkip(g: Graph, from: Node, to: Node, todo: set<Edge>, c: Edge)
    requires c in todo && !Moves(g, c, from, to)
    ensures RedirectedBut(g, from, to, todo - {c}) == RedirectedBut(g, from, to, todo)
  {
  }

  /** The decision about c does not depend on which edges have been moved already. */
  lemma MovableStable(g: Graph, from: Node, to: Node, todo: set<Edge>, c: Edge)
    requires c in todo && c in Parents(g, from)
    ensures var m := RedirectedBut(g, from, to, todo);
            && m.nodes == g.nodes && c in m.edges && m.edges[c] == g.edges[c]
            && (Movable(m, c, to) <==> Movable(g, c, to))
  {
    SubtreeStable(g, RedirectedBut(g, from, to, todo), to, c);
  }

  /** One more edge is moved: the slots stay as they are and no cycle closes. */
  lemma RedirectOne(g: Graph, from: Node, to: Node, todo: set<Edge>, c: Edge)
    requires c in todo && Moves(g, c, from, to) && from != to && to in g.nodes && !g.edges[c].frozen
    requires var m := RedirectedBut(g, from, to, todo); Sound(m) && Acyclic(Adj(m)) && Movable(m, c, to)
    ensures var m := RedirectedBut(g, from, to, todo);
            && CanSetBs(m, c, Some(to)) && Acyclic(Adj(SetBs(m, c, Some(to))))
            && SetBs(m, c, Some(to)) == RedirectedBut(g, from, to, todo - {c})
  {
    var m := RedirectedBut(g, from, to, todo);
    var r := SetBs(m, c, Some(to));
    SlotsStay(m, c, to);
    assert r.edges == RedirectedBut(g, from, to, todo - {c}).edges;
    var p := m.edges[c].parent;
    if p.Bds? && Reach(Adj(m), to, p.node) {
      assert IsChildOf(m, c, p.node);
    }
    SetBsAcyclic(m, c, Some(to));
  }

  lemma SlotsStay(g: Graph, c: Edge, to: Node)
    requires Sound(g) && CanSetBs(g, c, Some(to)) && g.edges[c].bs.Some?
    ensures SetBs(g, c, Some(to)).nodes == g.nodes
  {
    forall n | n in g.nodes
      ensures SetBs(g, c, Some(to)).nodes[n] == g.nodes[n]
    {
      SetBsNode(g, c, Some(to), n);
      assert EdgeSound(g, c);
    }
  }

  // ----- attaching a child -----

  /** The edge that bdrv_attach_child_noperm creates, with the permissions that follow from
      the parent's own. */
  function NewChild(d: Drivers, g: Graph, parent: Node, child: Node, slot: Slot): EdgeState {
    var (p, sh) := d.childPerm(parent, None, slot, CumPerm(g, parent), CumShared(g, parent));
    EdgeState(Bds(parent), slot, false, false, None, p, if d.forceShare(child) then PERM_ALL else sh)
  }

  function Attached(d: Drivers, g: Graph, e: Edge, parent: Node, child: Node, slot: Slot): Graph {
    DoGraph(g, Attach(e, NewChild(d, g, parent, child, slot), child))
  }

  lemma AttachAcyclic(g: Graph, e: Edge, st: EdgeState, child: Node)
    requires Acyclic(Adj(g)) && e !in g.edges
    requires st.parent.Bds? ==> !Reach(Adj(g), child, st.parent.node)
    ensures Acyclic(Adj(DoGraph(g, Attach(e, st, child))))
  {
    var w := WithEdge(g, e, st.(bs := None));
    NewEdgeAdj(g, e, st.(bs := None));
    SetBsAcyclic(w, e, Some(child));
  }

  // ----- permissions of the whole graph after an operation -----

  /** Outside of ns, r has only edges that g has. */
  predicate SameOutside(g: Graph, r: Graph, ns: set<Node>) {
    && r.nodes.Keys == g.nodes.Keys
    && forall e | e in r.edges && r.edges[e].bs.Some? && r.edges[e].bs.value !in ns ::
         e in g.edges && g.edges[e].bs == r.edges[e].bs && g.edges[e].perm == r.edges[e].perm
           && g.edges[e].shared == r.edges[e].shared
  }

  /** A refresh of subtrees leaves no conflict anywhere if there was none before the edit and
      the edit only added parents inside those subtrees. */
  lemma RefreshedIsCompatible(d: Drivers, g: Graph, r: Graph, x: Graph, roots: seq<Node>)
    requires AllCompatible(g) && Sound(r) && SameOutside(g, r, Subtrees(r, roots))
             && Solution(d, r, x, Subtrees(r, roots))
    ensures AllCompatible(x)
  {
    var ns := Subtrees(r, roots);
    assert x.nodes.Keys == g.nodes.Keys;
    hide Compatible, Subtrees, Sound, NodeSettled, NodeAccepts;
    forall n | n in x.nodes
      ensures Compatible(x, n)
    {
      if n in ns {
        assert Done(d, x, n);
      } else {
        OutsideParents(d, g, r, x, roots, n);
        FewerParents(g, x, n);
      }
    }
  }

  /** A node outside of the refreshed subtrees has parents it had before, with what they asked for. */
  lemma OutsideParents(d: Drivers, g: Graph, r: Graph, x: Graph, roots: seq<Node>, n: Node)
    requires Sound(r) && SameOutside(g, r, Subtrees(r, roots)) && DiffersOnComputed(d, r, x, Subtrees(r, roots))
    requires n !in Subtrees(r, roots)
    ensures forall e | e in Parents(x, n) ::
              e in Parents(g, n) && x.edges[e].perm == g.edges[e].perm && x.edges[e].shared == g.edges[e].shared
  {
    hide Subtrees, Sound;
    forall e | e in Parents(x, n)
      ensures e in Parents(g, n) && x.edges[e].perm == g.edges[e].perm && x.edges[e].shared == g.edges[e].shared
    {
      SubtreesClosed(r, roots, e);
    }
  }

  lemma SubtreesClosed(g: Graph, roots: seq<Node>, e: Edge)
    requires Sound(g) && e in g.edges
    ensures Links(g.edges[e]) && g.edges[e].parent.node in Subtrees(g, roots) ==>
            g.edges[e].bs.value in Subtrees(g, roots)
  {
    if Links(g.edges[e]) && g.edges[e].parent.node in Subtrees(g, roots) {
      assert EdgeSound(g, e);
      var a, b := g.edges[e].parent.node, g.edges[e].bs.value;
      var i :| 0 <= i < |roots| && Reach(Adj(g), roots[i], a);
      ChildIsAdjacent(g, e, a);
      ReachEdge(Adj(g), a, b);
      ReachTrans(Adj(g), roots[i], a, b);
      assert InSubtrees(g, roots, b);
    }
  }

  lemma RootInSubtrees(g: Graph, roots: seq<Node>, i: nat)
    requires i < |roots| && roots[i] in g.nodes
    ensures roots[i] in Subtrees(g, roots)
  {
    ReachSelf(Adj(g), roots[i]);
    assert InSubtrees(g, roots, roots[i]);
  }

  lemma NothingRemoved()
    ensures RemovedEdges([]) == {}
  {
  }

  lemma FreedNone(g: Graph)
    ensures Freed(g, {}) == g
  {
  }

  lemma FreedIsGone(was: Option<Edge>)
    ensures was.Some? ==> forall g :: was.value !in Freed(g, EdgeSet(was)).edges
  {
  }

  lemma AttachedEdges(d: Drivers, g: Graph, e: Edge, parent: Node, child: Node, slot: Slot)
    requires e !in g.edges
    ensures var a := Attached(d, g, e, parent, child, slot);
            && a.edges.Keys == g.edges.Keys + {e} && a.nodes.Keys == g.nodes.Keys
            && IsChildOf(a, e, parent) && a.edges[e].bs == Some(child)
            && forall x | x in g.edges :: a.edges[x] == g.edges[x]
  {
  }

  /** A redirection to the parent of e leaves e where it is. */
  lemma RedirectedEdges(a: Graph, from: Node, to: Node, e: Edge)
    requires IsChildOf(a, e, to)
    ensures var r := Redirected(a, from, to);
            && r.edges.Keys == a.edges.Keys && r.nodes == a.nodes && r.edges[e] == a.edges[e]
            && forall x | x in a.edges :: r.edges[x] == a.edges[x] || r.edges[x].bs == Some(to)
  {
    ReachSelf(Adj(a), to);
    assert InSubtree(a, to, e);
  }

  lemma ChildInSubtree(g: Graph, e: Edge, root: Node)
    requires IsChildOf(g, e, root) && root in g.nodes && g.edges[e].bs.value in g.nodes
    ensures root in Subtrees(g, [root]) && g.edges[e].bs.value in Subtrees(g, [root])
  {
    RootInSubtrees(g, [root], 0);
    ChildIsAdjacent(g, e, root);
    ReachEdge(Adj(g), root, g.edges[e].bs.value);
    assert Reach(Adj(g), [root][0], g.edges[e].bs.value);
    assert InSubtrees(g, [root], g.edges[e].bs.value);
  }

  /** bdrv_append adds parents only to the two nodes it joins. */
  lemma AppendOutside(d: Drivers, g: Graph, e: Edge, bsNew: Node, bsTop: Node, slot: Slot)
    requires e !in g.edges && bsNew in g.nodes && bsTop in g.nodes
    ensures var r := Redirected(Attached(d, g, e, bsNew, bsTop, slot), bsTop, bsNew);
            SameOutside(g, r, Subtrees(r, [bsNew]))
  {
    hide Attached, Redirected, Subtrees;
    var a := Attached(d, g, e, bsNew, bsTop, slot);
    AttachedEdges(d, g, e, bsNew, bsTop, slot);
    RedirectedEdges(a, bsTop, bsNew, e);
    ChildInSubtree(Redirected(a, bsTop, bsNew), e, bsNew);
  }

  /** Attaching below a root adds a parent only to a node of its subtree. */
  lemma AttachOutside(d: Drivers, g: Graph, e: Edge, parent: Node, child: Node, slot: Slot)
    requires e !in g.edges && parent in g.nodes && child in g.nodes
    ensures var r := Attached(d, g, e, parent, child, slot); SameOutside(g, r, Subtrees(r, [parent]))
  {
    hide Attached, Subtrees;
    AttachedEdges(d, g, e, parent, child, slot);
    ChildInSubtree(Attached(d, g, e, parent, child, slot), e, parent);
  }

  function EdgeSet(e: Option<Edge>): set<Edge> {
    if e.Some? then {e.value} else {}
  }

  function Dropped(g: Graph, drop: Option<Edge>): Graph {
    if drop.Some? then DoGraph(g, Remove(drop.value)) else g
  }

  lemma RedirectedKeys(g: Graph, from: Node, to: Node)
    ensures var r := Redirected(g, from, to);
            && r.edges.Keys == g.edges.Keys && r.nodes == g.nodes
            && forall x | x in g.edges :: r.edges[x] == g.edges[x] || r.edges[x] == g.edges[x].(bs := Some(to))
  {
  }

  lemma DropNone(g: Graph)
    ensures Dropped(g, None) == g
  {
  }

  lemma DroppedKeys(g: Graph, drop: Option<Edge>)
    ensures var r := Dropped(g, drop);
            && r.edges.Keys == g.edges.Keys && r.nodes.Keys == g.nodes.Keys
            && forall x | x in g.edges :: r.edges[x] == g.edges[x] || r.edges[x].bs == None
  {
  }

  /** Replacing a node adds parents only to the new node. */
  lemma ReplaceOutside(g: Graph, from: Node, to: Node, drop: Option<Edge>, roots: seq<Node>, i: nat)
    requires to in g.nodes && i < |roots| && roots[i] == to
    ensures var r := Dropped(Redirected(g, from, to), drop); SameOutside(g, r, Subtrees(r, roots))
  {
    hide Redirected, Dropped, Subtrees;
    RedirectedKeys(g, from, to);
    DroppedKeys(Redirected(g, from, to), drop);
    RootInSubtrees(Dropped(Redirected(g, from, to), drop), roots, i);
  }

  // ----- inherits_from -----

  /** root has a link to n besides child. */
  ghost predicate OtherLink(g: Graph, root: Node, child: Edge, n: Node) {
    exists c :: c != child && IsChildOf(g, c, root) && g.edges[c].bs == Some(n)
  }

  /** The nodes below child that inherit from root and that no other link of root leads to. */
  ghost function Heirs(g: Graph, root: Node, child: Edge): set<Node>
    requires child in g.edges && g.edges[child].bs.Some?
  {
    set n | n in g.nodes && g.nodes[n].inheritsFrom == Some(root) && Reach(Adj(g), g.edges[child].bs.value, n)
      && !OtherLink(g, root, child, n)
  }

  ghost function Disowned(g: Graph, ns: set<Node>): Graph {
    g.(nodes := map n | n in g.nodes :: if n in ns then g.nodes[n].(inheritsFrom := None) else g.nodes[n])
  }

  lemma DisownedAdj(g: Graph, ns: set<Node>)
    ensures Adj(Disowned(g, ns)) == Adj(g)
  {
  }

  lemma DisownOne(g: Graph, b: Node)
    requires b in g.nodes
    ensures Disowned(g, {}) == g && Disowned(g, {b}) == DoGraph(g, SetInherits(b, None))
  {
    assert Disowned(g, {}).nodes == g.nodes;
    assert Disowned(g, {b}).nodes == DoGraph(g, SetInherits(b, None)).nodes;
  }

  lemma DisownMore(g: Graph, root: Node, ns: set<Node>, c: Edge)
    requires c in g.edges && g.edges[c].bs.Some?
    ensures var m := Disowned(g, ns); Disowned(m, Heirs(m, root, c)) == Disowned(g, ns + Heirs(g, root, c))
  {
    var m := Disowned(g, ns);
    assert Adj(m) == Adj(g);
    forall n | n in g.nodes
      ensures Disowned(m, Heirs(m, root, c)).nodes[n] == Disowned(g, ns + Heirs(g, root, c)).nodes[n]
    {
      assert OtherLink(m, root, c, n) <==> OtherLink(g, root, c, n);
    }
    assert Disowned(m, Heirs(m, root, c)).nodes == Disowned(g, ns + Heirs(g, root, c)).nodes;
  }

  /** For a node below the child link c of n, being linked from root otherwise means the same
      seen from c and from the link child above n. */
  lemma OtherLinkBelow(g: Graph, root: Node, child: Edge, c: Edge, n: Node)
    requires Acyclic(Adj(g)) && child in g.edges && g.edges[child].bs.Some?
             && Below(Adj(g), root, g.edges[child].bs.value)
    requires IsChildOf(g, c, g.edges[child].bs.value) && Reach(Adj(g), g.edges[c].bs.value, n)
    ensures OtherLink(g, root, c, n) <==> OtherLink(g, root, child, n)
  {
    var b := g.edges[child].bs.value;
    ChildIsAdjacent(g, c, b);
    NoWayBack(Adj(g), b, g.edges[c].bs.value);
    if OtherLink(g, root, c, n) {
      var x :| x != c && IsChildOf(g, x, root) && g.edges[x].bs == Some(n);
      assert x != child;
    }
    if OtherLink(g, root, child, n) {
      var x :| x != child && IsChildOf(g, x, root) && g.edges[x].bs == Some(n);
      assert x != c;
    }
  }

  lemma HeirsBelow(g: Graph, root: Node, child: Edge, c: Edge)
    requires Acyclic(Adj(g)) && child in g.edges && g.edges[child].bs.Some?
             && Below(Adj(g), root, g.edges[child].bs.value)
    requires IsChildOf(g, c, g.edges[child].bs.value)
    ensures Heirs(g, root, c) <= Heirs(g, root, child)
    ensures forall n | n in Heirs(g, root, child) && Reach(Adj(g), g.edges[c].bs.value, n) :: n in Heirs(g, root, c)
    ensures Below(Adj(g), root, g.edges[c].bs.value)
    ensures ReachSet(Adj(g), g.edges[c].bs.value) < ReachSet(Adj(g), g.edges[child].bs.value)
  {
    var b := g.edges[child].bs.value;
    ChildIsAdjacent(g, c, b);
    forall n | Reach(Adj(g), g.edges[c].bs.value, n)
      ensures Reach(Adj(g), b, n) && (OtherLink(g, root, c, n) <==> OtherLink(g, root, child, n))
    {
      ReachVia(Adj(g), b, g.edges[c].bs.value, n);
      OtherLinkBelow(g, root, child, c, n);
    }
    ReachEdge(Adj(g), b, g.edges[c].bs.value);
    ReachTrans(Adj(g), root, b, g.edges[c].bs.value);
    ChildReachesLess(Adj(g), b, g.edges[c].bs.value);
  }

  /** The heirs are the child itself, maybe, and the heirs below its own children. */
  lemma HeirsAre(g: Graph, root: Node, child: Edge, ns: set<Node>)
    requires child in g.edges && g.edges[child].bs.Some? && ns <= Heirs(g, root, child)
    requires var b := g.edges[child].bs.value; b in Heirs(g, root, child) ==> b in ns
    requires forall n, c | n in Heirs(g, root, child) && IsChildOf(g, c, g.edges[child].bs.value)
             && Reach(Adj(g), g.edges[c].bs.value, n) :: n in ns
    ensures ns == Heirs(g, root, child)
  {
    var b := g.edges[child].bs.value;
    forall n | n in Heirs(g, root, child)
      ensures n in ns
    {
      if n != b {
        var m := ReachFirst(Adj(g), b, n);
        var c := AdjacentHasEdge(g, b, m);
      }
    }
  }

  lemma OwnHeir(g: Graph, root: Node, child: Edge)
    requires child in g.edges && g.edges[child].bs.Some? && g.edges[child].bs.value in g.nodes
    ensures var b := g.edges[child].bs.value;
            b in Heirs(g, root, child) <==> g.nodes[b].inheritsFrom == Some(root) && !OtherLink(g, root, child, b)
  {
    ReachSelf(Adj(g), g.edges[child].bs.value);
  }

  /** The search in bdrv_unset_inherits_from. */
  method HasOtherLink(g: Graph, root: Node, child: Edge, n: Node) returns (found: bool)
    ensures found <==> OtherLink(g, root, child, n)
  {
    var todo := Children(g, root);
    while todo != {}
      invariant todo <= Children(g, root)
      invariant forall c | c in Children(g, root) - todo :: !(c != child && g.edges[c].bs == Some(n))
      decreases |todo|
    {
      var c :| c in todo;
      if c != child && g.edges[c].bs == Some(n) {
        return true;
      }
      todo := todo - {c};
    }
    return false;
  }

  // ----- setting the file or backing child -----

  function SlotEdge(g: Graph, parent: Node, isBacking: bool): Option<Edge>
    requires parent in g.nodes
  {
    if isBacking then g.nodes[parent].backing else g.nodes[parent].file
  }

  /** Where bdrv_child_cb_attach puts a new file or backing child. */
  function SlotOf(d: Drivers, parent: Node, isBacking: bool): Slot {
    if (if d.isFilter(parent) then d.filteredChildIsBacking(parent) else isBacking) then BackingSlot else FileSlot
  }

  /** The graph once the old child was is gone, its heirs disowned. */
  ghost function Unset(g: Graph, parent: Node, was: Option<Edge>): Graph
    requires was.Some? ==> was.value in g.edges && g.edges[was.value].bs.Some?
  {
    if was.Some? then Dropped(Disowned(g, Heirs(g, parent, was.value)), was) else g
  }

  /** The graph once the new child, if any, is in place. */
  ghost function Refilled(d: Drivers, g: Graph, e: Edge, parent: Node, child: Option<Node>, slot: Slot,
      inherit: bool): Graph {
    if child.None? then g
    else
      var a := Attached(d, g, e, parent, child.value, slot);
      if inherit then DoGraph(a, SetInherits(child.value, Some(parent))) else a
  }

  /** When bdrv_set_file_or_backing_noperm gets as far as changing the graph. */
  predicate MayRefill(d: Drivers, g: Graph, parent: Node, isBacking: bool)
    requires parent in g.nodes
  {
    var was := SlotEdge(g, parent, isBacking);
    && d.hasDrv(parent)
    && (was.Some? && was.value in g.edges ==> !g.edges[was.value].frozen)
    && (d.isFilter(parent) || if isBacking then d.supportsBacking(parent) else was.Some?)
  }

  /** Why bdrv_set_file_or_backing_noperm refuses: the node has lost its driver, the old child is
      frozen, the driver takes no backing file, or it has no file child to be replaced. */
  lemma RefusalMeans(d: Drivers, g: Graph, parent: Node, isBacking: bool)
    requires Sound(g) && parent in g.nodes
    ensures !MayRefill(d, g, parent, isBacking) <==>
            || !d.hasDrv(parent)
            || (exists e :: && e in g.edges && g.edges[e].parent == Bds(parent) && g.edges[e].bs.Some?
                            && g.edges[e].slot == (if isBacking then BackingSlot else FileSlot) && g.edges[e].frozen)
            || (!d.isFilter(parent) && isBacking && !d.supportsBacking(parent))
            || (!d.isFilter(parent) && !isBacking && g.nodes[parent].file.None?)
  {
    SlotEdgeIsChild(g, parent, isBacking);
    forall e | e in g.edges && g.edges[e].parent == Bds(parent) && g.edges[e].bs.Some?
               && g.edges[e].slot == (if isBacking then BackingSlot else FileSlot)
      ensures SlotEdge(g, parent, isBacking) == Some(e)
    {
      assert EdgeSound(g, e);
    }
    hide Sound;
  }

  lemma SlotEdgeIsChild(g: Graph, parent: Node, isBacking: bool)
    requires Sound(g) && parent in g.nodes
    ensures var was := SlotEdge(g, parent, isBacking);
            was.Some? ==> && IsChildOf(g, was.value, parent)
                          && g.edges[was.value].slot == (if isBacking then BackingSlot else FileSlot)
                          && Below(Adj(g), parent, g.edges[was.value].bs.value)
  {
    assert SlotsSound(g, parent);
    var was := SlotEdge(g, parent, isBacking);
    if was.Some? {
      ChildIsAdjacent(g, was.value, parent);
      ReachEdge(Adj(g), parent, g.edges[was.value].bs.value);
    }
  }

  lemma UnsetNothing(g: Graph, parent: Node)
    ensures Unset(g, parent, None) == g
  {
  }

  /** Taking the old child out frees its slot and leaves the other one alone. */
  lemma UnsetFrees(g: Graph, parent: Node, isBacking: bool)
    requires Sound(g) && parent in g.nodes
    requires var was := SlotEdge(g, parent, isBacking); was.Some? && was.value in g.edges ==> !g.edges[was.value].frozen
    ensures var was := SlotEdge(g, parent, isBacking);
            && (was.Some? ==> was.value in g.edges && g.edges[was.value].bs.Some?)
            && var u := Unset(g, parent, was);
            && parent in u.nodes && SlotEdge(u, parent, isBacking).None?
            && SlotEdge(u, parent, !isBacking) == SlotEdge(g, parent, !isBacking)
  {
    SlotEdgeIsChild(g, parent, isBacking);
    var was := SlotEdge(g, parent, isBacking);
    if was.Some? {
      var m := Disowned(g, Heirs(g, parent, was.value));
      SameShapeSound(g, m);
      SetBsNode(m, was.value, None, parent);
      hide SetBs, Sound, Heirs;
    }
  }

  lemma UnsetKeys(g: Graph, parent: Node, was: Option<Edge>)
    requires was.Some? ==> was.value in g.edges && g.edges[was.value].bs.Some?
    ensures var r := Unset(g, parent, was);
            && r.edges.Keys == g.edges.Keys && r.nodes.Keys == g.nodes.Keys
            && forall x | x in g.edges :: r.edges[x] == g.edges[x] || r.edges[x].bs == None
  {
  }

  lemma RefilledKeys(d: Drivers, g: Graph, e: Edge, parent: Node, child: Option<Node>, slot: Slot, inherit: bool)
    requires e !in g.edges
    ensures var r := Refilled(d, g, e, parent, child, slot, inherit);
            && r.nodes.Keys == g.nodes.Keys && (forall x | x in g.edges :: x in r.edges && r.edges[x] == g.edges[x])
            && (forall x | x in r.edges && x !in g.edges :: x == e && child.Some?)
            && (child.Some? ==> IsChildOf(r, e, parent) && r.edges[e].bs == child)
  {
    if child.Some? {
      AttachedEdges(d, g, e, parent, child.value, slot);
    }
  }

  /** Setting a child adds a parent only below the node whose child it is. */
  lemma RefillOutside(d: Drivers, g: Graph, e: Edge, parent: Node, child: Option<Node>, slot: Slot, inherit: bool,
      was: Option<Edge>)
    requires e !in g.edges && parent in g.nodes && (child.Some? ==> child.value in g.nodes)
    requires was.Some? ==> was.value in g.edges && g.edges[was.value].bs.Some?
    ensures var r := Refilled(d, Unset(g, parent, was), e, parent, child, slot, inherit);
            SameOutside(g, r, Subtrees(r, [parent]))
  {
    hide Refilled, Unset, Subtrees;
    UnsetKeys(g, parent, was);
    RefilledKeys(d, Unset(g, parent, was), e, parent, child, slot, inherit);
    if child.Some? {
      ChildInSubtree(Refilled(d, Unset(g, parent, was), e, parent, child, slot, inherit), e, parent);
    }
  }

  lemma PermOutside(g: Graph, e: Edge, perm: Perms, shared: Perms)
    requires e in g.edges && g.edges[e].bs.Some? && g.edges[e].bs.value in g.nodes
    ensures var r := SetEdgePerm(g, e, perm, shared); SameOutside(g, r, Subtrees(r, [g.edges[e].bs.value]))
  {
    RootInSubtrees(SetEdgePerm(g, e, perm, shared), [g.edges[e].bs.value], 0);
  }

  lemma SubsetByDifference(a: Perms, b: Perms)
    ensures a - b == {} <==> a <= b
  {
    if a - b == {} {
      forall p | p in a
        ensures p in b
      {
        assert p !in a - b;
      }
    }
  }

  // ----- taking edges and nodes away -----

  /** g without the edge e. */
  function Without(g: Graph, e: Edge): Graph
    requires e in g.edges
  {
    Freed(SetBs(g, e, None), {e})
  }

  lemma WithoutKeys(g: Graph, e: Edge)
    requires e in g.edges
    ensures var r := Without(g, e);
            && r.edges == g.edges - {e} && r.nodes.Keys == g.nodes.Keys
            && (forall n :: Parents(r, n) == Parents(g, n) - {e} && Children(r, n) == Children(g, n) - {e})
  {
  }

  lemma WithoutHealthy(g: Graph, e: Edge)
    requires Healthy(g) && e in g.edges && !g.edges[e].frozen
    ensures Healthy(Without(g, e))
  {
    hide SetBs;
    var m := SetBs(g, e, None);
    DetachSound(g, e);
    SetBsAcyclic(g, e, None);
    FreeDetached(m, e);
    WithoutKeys(g, e);
    var r := Without(g, e);
    forall n | n in r.nodes
      ensures Compatible(r, n)
    {
      FewerParents(g, r, n);
    }
  }

  lemma DetachSound(g: Graph, e: Edge)
    requires Sound(g) && e in g.edges && !g.edges[e].frozen
    ensures Sound(SetBs(g, e, None))
  {
    if g.edges[e].bs.Some? {
      SetBsSound(g, e, None);
    } else {
      assert SetBs(g, e, None).edges == g.edges;
    }
  }

  /** The reference that the edge held is in the caller's hands. */
  lemma WithoutRefs(s: State, outside: multiset<Node>, e: Edge)
    requires RefsOk(s, outside) && e in s.g.edges
    ensures var held := if s.g.edges[e].bs.Some? then multiset{s.g.edges[e].bs.value} else multiset{};
            RefsOk(s.(g := Without(s.g, e)), outside + held)
  {
    var r := s.(g := Without(s.g, e));
    var held := if s.g.edges[e].bs.Some? then multiset{s.g.edges[e].bs.value} else multiset{};
    WithoutKeys(s.g, e);
    hide Without;
    forall n | n in r.g.nodes
      ensures RefOk(r, outside + held, n)
    {
      assert RefOk(s, outside, n);
      assert e in Parents(s.g, n) <==> s.g.edges[e].bs == Some(n);
      assert |Parents(r.g, n)| == |Parents(s.g, n)| - One(s.g.edges[e].bs == Some(n));
    }
  }

  function WithoutNode(g: Graph, n: Node): Graph {
    g.(nodes := g.nodes - {n})
  }

  /** A node without parents and children leaves a healthy graph behind. */
  lemma WithoutNodeHealthy(g: Graph, n: Node)
    requires Healthy(g) && Parents(g, n) == {} && Children(g, n) == {}
    ensures Healthy(WithoutNode(g, n))
  {
    var r := WithoutNode(g, n);
    assert Adj(r) == Adj(g);
    forall e | e in r.edges
      ensures EdgeSound(r, e)
    {
      assert EdgeSound(g, e) && e !in Parents(g, n) && e !in Children(g, n);
    }
    forall m | m in r.nodes
      ensures SlotsSound(r, m)
    {
      assert SlotsSound(g, m);
    }
    forall m | m in r.nodes
      ensures Compatible(r, m)
    {
      FewerParents(g, r, m);
    }
  }

  lemma SolutionShape(d: Drivers, g: Graph, r: Graph, ns: set<Node>)
    requires Solution(d, g, r, ns)
    ensures SameShape(g, r)
  {
  }

  lemma RefreshOnly(g: Graph, ns: set<Node>)
    ensures SameOutside(g, g, ns)
  {
  }

  // ----- the references of the whole layer -----

  /** Every reference is accounted for and belongs to a node, and exactly the nodes that are
      being deleted have none. */
  ghost predicate Counted(s: State, outside: multiset<Node>, dying: set<Node>) {
    RefsOk(s, outside) && Known(s, outside) && Alive(s.refs, dying)
  }

  /** A node that a caller holds a reference to, or for which a drop is scheduled, exists and
      is not being deleted. */
  lemma HeldIsLive(s: State, outside: multiset<Node>, dying: set<Node>, n: Node)
    requires Counted(s, outside, dying) && (n in outside || n in s.sched)
    ensures n in s.g.nodes && n !in dying
  {
    assert RefOk(s, outside, n);
  }

  lemma DyingIsFree(s: State, outside: multiset<Node>, dying: set<Node>, n: Node)
    requires Counted(s, outside, dying) && n in dying
    ensures n in s.g.nodes && Parents(s.g, n) == {} && n !in s.sched && n !in outside
  {
    assert RefOk(s, outside, n);
  }

  lemma BeginAnchors(s: State, outside: multiset<Node>, dying: set<Node>)
    requires s.log == [] && Counted(s, outside, dying)
    ensures Anchored(s.g, s.sched, outside, dying)
  {
    forall n | n in s.g.nodes && n !in dying
      ensures |Parents(s.g, n)| + s.sched[n] + outside[n] > 0
    {
      assert RefOk(s, outside, n);
    }
  }

  lemma DoKeepsCounted(s: State, op: Op, outside: multiset<Node>, dying: set<Node>)
    requires Sound(s.g) && OpOk(s.g, s.log, op) && Counted(s, outside, dying)
    requires Target(op).Some? ==> Target(op).value !in dying
    ensures Counted(Do(s, op), outside, dying)
  {
    hide RefsOk, Known, Alive, Sound, OpOk, Do;
    DoKeepsRefs(s, op, outside);
    DoKeepsKnown(s, op, outside);
    DoKeepsAlive(s, op, dying);
  }

  /** Only references change hands: between callers, and to the drops that are scheduled. */
  lemma Rebooked(s: State, outside: multiset<Node>, sched': multiset<Node>, outside': multiset<Node>, dying: set<Node>)
    requires Counted(s, outside, dying) && sched' + outside' == s.sched + outside
    ensures Counted(s.(sched := sched'), outside', dying)
  {
    var r := s.(sched := sched');
    forall n | n in r.g.nodes
      ensures RefOk(r, outside', n)
    {
      assert RefOk(s, outside, n);
      assert (sched' + outside')[n] == (s.sched + outside)[n];
    }
    forall n | n in sched' || n in outside'
      ensures n in s.g.nodes
    {
      assert n in sched' + outside';
    }
  }

  /** outside' is outside with k references more to n. */
  ghost predicate Regrouped(outside: multiset<Node>, outside': multiset<Node>, n: Node, k: int) {
    outside'[n] == outside[n] + k && forall m: Node | m != n :: outside'[m] == outside[m]
  }

  lemma RecountedRefs(s: State, outside: multiset<Node>, outside': multiset<Node>, n: Node, k: int)
    requires RefsOk(s, outside) && n in s.refs && Regrouped(outside, outside', n, k)
    ensures RefsOk(s.(refs := s.refs[n := s.refs[n] + k]), outside')
  {
    var r := s.(refs := s.refs[n := s.refs[n] + k]);
    hide Parents, Saved;
    forall m | m in r.g.nodes
      ensures RefOk(r, outside', m)
    {
      assert RefOk(s, outside, m);
    }
  }

  /** A caller takes a reference, or gives one up. */
  lemma Recounted(s: State, outside: multiset<Node>, outside': multiset<Node>, n: Node, k: int, dying: set<Node>,
      dying': set<Node>)
    requires Counted(s, outside, dying) && n in s.g.nodes && Regrouped(outside, outside', n, k) && s.refs[n] + k >= 0
    requires dying' == if s.refs[n] + k == 0 then dying + {n} else dying - {n}
    ensures Counted(s.(refs := s.refs[n := s.refs[n] + k]), outside', dying')
  {
    RecountedRefs(s, outside, outside', n, k);
    hide RefsOk, SavesKnown;
    forall m | m in outside'
      ensures m in s.g.nodes
    {
      assert m == n || m in outside;
    }
  }

  /** When a reference that a caller holds is the last one. */
  lemma LastReference(s: State, outside: multiset<Node>, dying: set<Node>, n: Node)
    requires Counted(s, outside, dying) && s.log == [] && n in outside
    ensures n in s.refs && s.refs[n] > 0
    ensures s.refs[n] == 1 <==> Parents(s.g, n) == {} && outside[n] == 1 && n !in s.sched
  {
    assert RefOk(s, outside, n);
    var c := |Parents(s.g, n)|;
    assert c == 0 <==> Parents(s.g, n) == {};
    hide RefsOk, Known, Alive, Parents;
  }

  /** Another graph with the same nodes and the same parents. */
  lemma SameCounted(s: State, g: Graph, outside: multiset<Node>, dying: set<Node>)
    requires Counted(s, outside, dying) && s.log == [] && g.nodes.Keys == s.g.nodes.Keys
    requires forall n | n in g.nodes :: Parents(g, n) == Parents(s.g, n)
    ensures Counted(s.(g := g), outside, dying)
  {
    forall n | n in g.nodes
      ensures RefOk(s.(g := g), outside, n)
    {
      assert RefOk(s, outside, n);
    }
  }

  lemma WithoutCounted(s: State, outside: multiset<Node>, dying: set<Node>, e: Edge)
    requires Sound(s.g) && Counted(s, outside, dying) && s.log == [] && e in s.g.edges
    ensures var held := if s.g.edges[e].bs.Some? then multiset{s.g.edges[e].bs.value} else multiset{};
            Counted(s.(g := Without(s.g, e)), outside + held, dying)
  {
    WithoutRefs(s, outside, e);
    WithoutKeys(s.g, e);
    assert EdgeSound(s.g, e);
    hide Without, RefsOk, Alive;
  }

  lemma EmptyIsAcyclic()
    ensures Acyclic({})
  {
  }

  /** An edge of something that is not a node. */
  function RootEdge(stayAtNode: bool, perm: Perms, shared: Perms): EdgeState {
    EdgeState(Outside, NoSlot, stayAtNode, false, None, perm, shared)
  }

  lemma RootOutside(g: Graph, e: Edge, st: EdgeState, child: Node)
    requires e !in g.edges && child in g.nodes
    ensures var r := DoGraph(g, Attach(e, st, child));
            && r.nodes.Keys == g.nodes.Keys
            && SameOutside(g, r, Subtrees(r, [child]))
  {
    hide Subtrees;
    RootInSubtrees(DoGraph(g, Attach(e, st, child)), [child], 0);
  }

  lemma EndKnown(g: Graph, e: Edge)
    requires Sound(g) && e in g.edges && g.edges[e].bs.Some?
    ensures g.edges[e].bs.value in g.nodes
  {
    assert EdgeSound(g, e);
  }

  lemma AppendSlotFree(d: Drivers, g: Graph, bsNew: Node, bsTop: Node)
    requires bsNew in g.nodes && g.nodes[bsNew].backing.None? && (d.isFilter(bsNew) ==> g.nodes[bsNew].file.None?)
    ensures SlotFree(g, NewChild(d, g, bsNew, bsTop, SlotOf(d, bsNew, true)))
  {
  }

  /** inherits_from is no part of the lists and permissions. */
  lemma DisownedLists(g: Graph, ns: set<Node>)
    ensures var r := Disowned(g, ns);
            && r.edges == g.edges && r.nodes.Keys == g.nodes.Keys
            && (forall n :: Parents(r, n) == Parents(g, n) && Children(r, n) == Children(g, n))
            && (forall n | n in g.nodes ::
                  r.nodes[n].file == g.nodes[n].file && r.nodes[n].backing == g.nodes[n].backing)
            && (AllCompatible(g) ==> AllCompatible(r))
  {
    var r := Disowned(g, ns);
    forall n
      ensures Parents(r, n) == Parents(g, n) && Children(r, n) == Children(g, n)
    {
    }
    if AllCompatible(g) {
      forall n | n in r.nodes
        ensures Compatible(r, n)
      {
        FewerParents(g, r, n);
      }
    }
  }

  // ----- the coming and going of nodes -----

  const NO_LINKS := NodeState(None, None, None)

  function WithNode(g: Graph, n: Node): Graph {
    g.(nodes := g.nodes[n := NO_LINKS])
  }

  lemma WithNodeHealthy(g: Graph, n: Node)
    requires Healthy(g) && n !in g.nodes
    ensures Healthy(WithNode(g, n)) && Parents(WithNode(g, n), n) == {}
  {
    var r := WithNode(g, n);
    assert Adj(r) == Adj(g);
    forall e | e in r.edges
      ensures EdgeSound(r, e) && r.edges[e].bs != Some(n)
    {
      assert EdgeSound(g, e);
    }
    forall m | m in r.nodes
      ensures SlotsSound(r, m) && Compatible(r, m)
    {
      if m != n {
        assert SlotsSound(g, m);
        FewerParents(g, r, m);
      }
    }
  }

  lemma WithNodeRefs(s: State, outside: multiset<Node>, n: Node)
    requires s.log == [] && Healthy(s.g) && RefsOk(s, outside) && Known(s, outside) && n !in s.g.nodes
    ensures RefsOk(s.(g := WithNode(s.g, n), refs := s.refs[n := 1]), outside + multiset{n})
  {
    var r := s.(g := WithNode(s.g, n), refs := s.refs[n := 1]);
    WithNodeHealthy(s.g, n);
    hide Healthy;
    forall m | m in r.g.nodes
      ensures RefOk(r, outside + multiset{n}, m)
    {
      if m != n {
        assert RefOk(s, outside, m);
        assert Parents(r.g, m) == Parents(s.g, m);
      }
    }
  }

  lemma WithNodeKnown(s: State, outside: multiset<Node>, dying: set<Node>, n: Node)
    requires s.log == [] && Known(s, outside) && Alive(s.refs, dying) && n !in s.g.nodes
    ensures Known(s.(g := WithNode(s.g, n), refs := s.refs[n := 1]), outside + multiset{n})
    ensures Alive(s.refs[n := 1], dying)
  {
  }

  lemma WithNodeCounted(s: State, outside: multiset<Node>, dying: set<Node>, n: Node)
    requires s.log == [] && Healthy(s.g) && Counted(s, outside, dying) && n !in s.g.nodes
    ensures Counted(s.(g := WithNode(s.g, n), refs := s.refs[n := 1]), outside + multiset{n}, dying)
  {
    hide Healthy, RefsOk, Known, Alive, WithNode;
    WithNodeRefs(s, outside, n);
    WithNodeKnown(s, outside, dying, n);
  }

  lemma WithoutNodeCounted(s: State, outside: multiset<Node>, dying: set<Node>, n: Node)
    requires s.log == [] && Counted(s, outside, dying) && n in dying
    ensures Counted(s.(g := WithoutNode(s.g, n), refs := s.refs - {n}), outside, dying - {n})
  {
    DyingIsFree(s, outside, dying, n);
    var r := s.(g := WithoutNode(s.g, n), refs := s.refs - {n});
    assert RefsOk(r, outside) by {
      hide Known, Alive;
      forall m | m in r.g.nodes
        ensures RefOk(r, outside, m)
      {
        assert RefOk(s, outside, m);
        assert Parents(r.g, m) == Parents(s.g, m);
      }
    }
    hide RefsOk, Parents;
  }

  // ----- frozen links -----

  /** g with the frozen flag of the edges es set or cleared. */
  function Flagged(g: Graph, es: set<Edge>, frozen: bool): Graph {
    g.(edges := map e | e in g.edges :: if e in es then g.edges[e].(frozen := frozen) else g.edges[e])
  }

  lemma FlaggedLists(g: Graph, es: set<Edge>, frozen: bool)
    ensures var r := Flagged(g, es, frozen);
            && r.nodes == g.nodes && r.edges.Keys == g.edges.Keys
            && (forall n :: Parents(r, n) == Parents(g, n) && Children(r, n) == Children(g, n))
            && (forall e | e in g.edges ::
                  r.edges[e] == if e in es then g.edges[e].(frozen := frozen) else g.edges[e])
  {
    var r := Flagged(g, es, frozen);
    forall n
      ensures Parents(r, n) == Parents(g, n) && Children(r, n) == Children(g, n)
    {
    }
  }

  lemma FlaggedHealthy(g: Graph, es: set<Edge>, frozen: bool)
    requires Healthy(g)
    ensures Healthy(Flagged(g, es, frozen))
  {
    var r := Flagged(g, es, frozen);
    SameShapeSound(g, r);
    FlaggedLists(g, es, frozen);
    hide Sound, Acyclic, Adj, Parents, Children;
    forall n | n in r.nodes
      ensures Compatible(r, n)
    {
      FlaggedParents(g, es, frozen, n);
      FewerParents(g, r, n);
    }
  }

  lemma FlaggedParents(g: Graph, es: set<Edge>, frozen: bool, n: Node)
    ensures var r := Flagged(g, es, frozen);
            forall e | e in Parents(r, n) ::
              e in Parents(g, n) && r.edges[e].perm == g.edges[e].perm && r.edges[e].shared == g.edges[e].shared
  {
  }

  // ----- the chain that bdrv_replace_node_common cuts -----

  /** bdrv_filter_or_cow_child */
  function FilterOrCow(d: Drivers, g: Graph, n: Node): Option<Edge> {
    if n !in g.nodes || !d.hasDrv(n) then None
    else if g.nodes[n].backing.Some? then g.nodes[n].backing
    else if d.isFilter(n) then g.nodes[n].file
    else None
  }

  /** It is the edge in the backing slot, or else that in the file slot of a filter. */
  lemma FilterOrCowMeans(d: Drivers, g: Graph, n: Node, e: Edge)
    requires Sound(g)
    ensures FilterOrCow(d, g, n) == Some(e) <==>
            && d.hasDrv(n) && e in g.edges && g.edges[e].parent == Bds(n) && g.edges[e].bs.Some?
            && (|| g.edges[e].slot.BackingSlot?
                || (&& g.edges[e].slot.FileSlot? && d.isFilter(n)
                    && forall x | x in g.edges && g.edges[x].parent == Bds(n) && g.edges[x].bs.Some? ::
                         !g.edges[x].slot.BackingSlot?))
  {
    if n in g.nodes {
      assert SlotsSound(g, n);
    }
    forall x | x in g.edges && g.edges[x].parent == Bds(n) && g.edges[x].bs.Some?
      ensures n in g.nodes && (g.edges[x].slot.BackingSlot? ==> g.nodes[n].backing == Some(x))
      ensures g.edges[x].slot.FileSlot? ==> g.nodes[n].file == Some(x)
    {
      assert EdgeSound(g, x);
    }
    hide Sound;
  }

  /** Following filtered and COW children along the edges of chain leads from a to b. */
  predicate CowChain(d: Drivers, g: Graph, a: Node, chain: seq<Edge>, b: Node)
    decreases |chain|
  {
    if chain == [] then a == b
    else && FilterOrCow(d, g, a) == Some(chain[0]) && IsChildOf(g, chain[0], a)
         && CowChain(d, g, g.edges[chain[0]].bs.value, chain[1..], b)
  }

  lemma {:induction false} ChainReaches(d: Drivers, g: Graph, a: Node, chain: seq<Edge>, b: Node)
    requires CowChain(d, g, a, chain, b)
    ensures Reach(Adj(g), a, b) && (chain != [] ==> Below(Adj(g), a, b))
    decreases |chain|
  {
    if chain == [] {
      ReachSelf(Adj(g), a);
    } else {
      var m := g.edges[chain[0]].bs.value;
      ChainReaches(d, g, m, chain[1..], b);
      ChildIsAdjacent(g, chain[0], a);
      ReachVia(Adj(g), a, m, b);
    }
  }

  /** The search for the node whose filtered or COW child is to, and that link. */
  method FindCowLink(d: Drivers, g: Graph, from: Node, to: Node, ghost chain: seq<Edge>) returns (link: Edge)
    requires Acyclic(Adj(g)) && chain != [] && CowChain(d, g, from, chain, to)
    ensures link == chain[|chain| - 1] && link in g.edges && g.edges[link].bs == Some(to)
  {
    var cur := from;
    link := FilterOrCow(d, g, cur).value;
    ghost var k := 0;
    while g.edges[link].bs != Some(to)
      invariant 0 <= k < |chain| && CowChain(d, g, cur, chain[k..], to)
      invariant FilterOrCow(d, g, cur) == Some(link) && IsChildOf(g, link, cur)
      decreases |chain| - k
    {
      assert chain[k..][1..] == chain[k + 1..];
      cur := g.edges[link].bs.value;
      k := k + 1;
      assert chain[k..] != [];
      link := FilterOrCow(d, g, cur).value;
    }
    assert chain[k..][1..] == chain[k + 1..];
    ChainReaches(d, g, to, chain[k + 1..], to);
    assert link == chain[k..][0];
  }

  /** The nodes in the subtrees of some roots. */
  ghost function Subtrees(g: Graph, roots: seq<Node>): set<Node> {
    set n | n in g.nodes && InSubtrees(g, roots, n)
  }

  ghost predicate InSubtrees(g: Graph, roots: seq<Node>, n: Node) {
    exists i | 0 <= i < |roots| :: Reach(Adj(g), roots[i], n)
  }

  lemma ListedIsSubtrees(g: Graph, roots: seq<Node>, list: seq<Node>)
    requires forall n :: n in list <==> exists i | 0 <= i < |roots| :: Reach(Adj(g), roots[i], n)
    requires forall n | n in list :: n in g.nodes
    ensures Listed(list) == Subtrees(g, roots)
  {
  }

  lemma NoSolution(d: Drivers, g: Graph, a: Graph, list: seq<Node>, k: nat)
    requires TopoSorted(g, list) && k < |list|
    requires DiffersOnComputed(d, g, a, Listed(list)) && forall i | 0 <= i < k :: Done(d, a, list[i])
    requires !Compatible(a, list[k]) || !NodeAccepts(d, list[k], CumPerm(a, list[k]), CumShared(a, list[k]))
    ensures forall r :: !Solution(d, g, r, Listed(list))
  {
    forall r
      ensures !Solution(d, g, r, Listed(list))
    {
      if Solution(d, g, r, Listed(list)) {
        SolutionPasses(d, g, a, r, list, k);
      }
    }
  }

  lemma PassStep(d: Drivers, g: Graph, m: Graph, r: Graph, list: seq<Node>, k: nat)
    requires k < |list| && TopoSorted(m, list) && DiffersOnComputed(d, g, m, Listed(list))
    requires forall i | 0 <= i < k :: Done(d, m, list[i])
    requires Compatible(m, list[k]) && NodeAccepts(d, list[k], CumPerm(m, list[k]), CumShared(m, list[k]))
    requires RefreshedNode(d, m, r, list[k])
    ensures TopoSorted(r, list) && DiffersOnComputed(d, g, r, Listed(list))
    ensures forall i | 0 <= i < k + 1 :: Done(d, r, list[i])
  {
    SameShapeSorted(m, r, list);
    forall i | 0 <= i < k + 1
      ensures Done(d, r, list[i])
    {
      assert list[..k + 1][i] == list[i];
      RefreshCompletes(d, m, r, list, k, list[i]);
    }
  }
}
