/** The block graph of block.c: nodes joined by BdrvChild edges, and its searches.

    The children and parents lists of a node are the sets of attached edges at its two
    ends; a loop over a list takes its elements in an arbitrary order. */
module BlockGraph {
  import opened Options
  import opened Reachability

  type Edge = nat

  datatype Perm = ConsistentRead | WritePerm | WriteUnchanged | Resize

  type Perms = set<Perm>

  const PERM_ALL: Perms := {ConsistentRead, WritePerm, WriteUnchanged, Resize}

  /** Which of the parent's two distinguished slots an edge goes into, decided by its role
      and the parent's driver (bdrv_child_cb_attach). */
  datatype Slot = NoSlot | FileSlot | BackingSlot

  /** The owner of an edge: a node, or a BlockBackend, a job or an export. */
  datatype Parent = Bds(node: Node) | Outside

  /** A BdrvChild.  An edge that points nowhere is in no list. */
  datatype EdgeState = EdgeState(
    parent: Parent,
    slot: Slot,
    stayAtNode: bool,
    frozen: bool,
    bs: Option<Node>,
    perm: Perms,
    shared: Perms)

  /** The fields of a BlockDriverState that graph edits change. */
  datatype NodeState = NodeState(file: Option<Edge>, backing: Option<Edge>, inheritsFrom: Option<Node>)

  datatype Graph = Graph(nodes: map<Node, NodeState>, edges: map<Edge, EdgeState>)

  predicate IsChildOf(g: Graph, e: Edge, n: Node) {
    e in g.edges && g.edges[e].parent == Bds(n) && g.edges[e].bs.Some?
  }

  function Children(g: Graph, n: Node): set<Edge> {
    set e | e in g.edges && IsChildOf(g, e, n)
  }

  function Parents(g: Graph, n: Node): set<Edge> {
    set e | e in g.edges && g.edges[e].bs == Some(n)
  }

  predicate Links(st: EdgeState) {
    st.parent.Bds? && st.bs.Some?
  }

  /** The parent-child relation between nodes. */
  function Adj(g: Graph): Rel {
    set e | e in g.edges && Links(g.edges[e]) :: (g.edges[e].parent.node, g.edges[e].bs.value)
  }

  lemma ChildIsAdjacent(g: Graph, e: Edge, n: Node)
    requires IsChildOf(g, e, n)
    ensures (n, g.edges[e].bs.value) in Adj(g)
  {
  }

  lemma AdjacentHasEdge(g: Graph, a: Node, b: Node) returns (e: Edge)
    requires (a, b) in Adj(g)
    ensures IsChildOf(g, e, a) && g.edges[e].bs == Some(b)
  {
    e :| e in g.edges && Links(g.edges[e]) && (g.edges[e].parent.node, g.edges[e].bs.value) == (a, b);
  }

  /** Every attached edge joins nodes of the graph, and a node's slots hold exactly the
      attached edges meant for them. */
  predicate Sound(g: Graph) {
    && (forall e | e in g.edges :: EdgeSound(g, e))
    && (forall n | n in g.nodes :: SlotsSound(g, n))
  }

  predicate EdgeSound(g: Graph, e: Edge)
    requires e in g.edges
  {
    var st := g.edges[e];
    && (st.bs.Some? ==> st.bs.value in g.nodes)
    && (Links(st) ==>
          && st.parent.node in g.nodes
          && (st.slot.FileSlot? ==> g.nodes[st.parent.node].file == Some(e))
          && (st.slot.BackingSlot? ==> g.nodes[st.parent.node].backing == Some(e)))
  }

  predicate SlotsSound(g: Graph, n: Node)
    requires n in g.nodes
  {
    && (g.nodes[n].file.Some? ==>
          IsChildOf(g, g.nodes[n].file.value, n) && g.edges[g.nodes[n].file.value].slot.FileSlot?)
    && (g.nodes[n].backing.Some? ==>
          IsChildOf(g, g.nodes[n].backing.value, n) && g.edges[g.nodes[n].backing.value].slot.BackingSlot?)
  }

  // ----- searches -----

  /** bdrv_recurse_has_child decides reachability. */
  method HasChild(g: Graph, bs: Node, child: Node) returns (found: bool)
    requires Acyclic(Adj(g))
    ensures found <==> Reach(Adj(g), bs, child)
    decreases ReachSet(Adj(g), bs)
  {
    if bs == child {
      ReachSelf(Adj(g), bs);
      return true;
    }
    var todo := Children(g, bs);
    while todo != {}
      invariant todo <= Children(g, bs)
      invariant forall e | e in Children(g, bs) && e !in todo :: !Reach(Adj(g), g.edges[e].bs.value, child)
      decreases |todo|
    {
      var e :| e in todo;
      var c := g.edges[e].bs.value;
      ChildIsAdjacent(g, e, bs);
      ChildReachesLess(Adj(g), bs, c);
      found := HasChild(g, c, child);
      if found {
        ReachVia(Adj(g), bs, c, child);
        return;
      }
      todo := todo - {e};
    }
    found := false;
    NotBelow(g, bs, child);
  }

  lemma NotBelow(g: Graph, bs: Node, child: Node)
    requires bs != child
    requires forall e | e in Children(g, bs) :: !Reach(Adj(g), g.edges[e].bs.value, child)
    ensures !Reach(Adj(g), bs, child)
  {
    if Reach(Adj(g), bs, child) {
      var b := ReachFirst(Adj(g), bs, child);
      var e := AdjacentHasEdge(g, bs, b);
    }
  }

  /** Whether edge c is in the children list of a node that to reaches. */
  ghost predicate InSubtree(g: Graph, to: Node, c: Edge) {
    exists v :: Reach(Adj(g), to, v) && IsChildOf(g, c, v)
  }

  /** should_update_child: the edge may move and is nowhere in the subtree of to. */
  method ShouldUpdateChild(g: Graph, c: Edge, to: Node) returns (ret: bool)
    requires Sound(g) && c in g.edges && to in g.nodes
    ensures ret <==> !g.edges[c].stayAtNode && !InSubtree(g, to, c)
  {
    if g.edges[c].stayAtNode {
      return false;
    }
    ret := true;
    var found, queue := {to}, [to];
    ReachSelf(Adj(g), to);
    while queue != []
      invariant to in found && found <= g.nodes.Keys
      invariant forall v | v in queue :: v in found
      invariant forall v | v in found :: Reach(Adj(g), to, v)
      invariant !ret ==> InSubtree(g, to, c)
      invariant ret ==> forall v, e | v in found && v !in queue && IsChildOf(g, e, v) ::
                          e != c && g.edges[e].bs.value in found
      decreases g.nodes.Keys - found, |queue|
    {
      var v := queue[0];
      queue := queue[1..];
      assert forall u | u in found && u !in queue && u != v :: u !in [v] + queue;
      ret, found, queue := VisitChildren(g, c, to, v, ret, found, queue);
    }
    if ret {
      forall v | Reach(Adj(g), to, v)
        ensures !IsChildOf(g, c, v)
      {
        FoundIsClosed(g, found);
        ClosedHoldsReach(Adj(g), found, to, v);
      }
    }
  }

  lemma FoundIsClosed(g: Graph, found: set<Node>)
    requires forall v, e | v in found && IsChildOf(g, e, v) :: g.edges[e].bs.value in found
    ensures forall x | x in Adj(g) && x.0 in found :: x.1 in found
  {
  }

  lemma ChildKnown(g: Graph, e: Edge, v: Node, to: Node)
    requires Sound(g) && IsChildOf(g, e, v) && Reach(Adj(g), to, v)
    ensures g.edges[e].bs.value in g.nodes && Reach(Adj(g), to, g.edges[e].bs.value)
  {
    assert EdgeSound(g, e);
    ChildIsAdjacent(g, e, v);
    ReachEdge(Adj(g), v, g.edges[e].bs.value);
    ReachTrans(Adj(g), to, v, g.edges[e].bs.value);
  }

  lemma ChildInSubtreeOf(g: Graph, to: Node, v: Node, c: Edge)
    requires Reach(Adj(g), to, v) && IsChildOf(g, c, v)
    ensures InSubtree(g, to, c)
  {
  }

  /** The inner loop: queue the unseen children of v, stopping at c. */
  method VisitChildren(g: Graph, c: Edge, ghost to: Node, v: Node, ret0: bool, found0: set<Node>, queue0: seq<Node>)
      returns (ret: bool, found: set<Node>, queue: seq<Node>)
    requires Sound(g) && v in found0 && found0 <= g.nodes.Keys
    requires forall u | u in queue0 :: u in found0
    requires forall u | u in found0 :: Reach(Adj(g), to, u)
    requires !ret0 ==> InSubtree(g, to, c)
    ensures found0 <= found <= g.nodes.Keys && queue0 <= queue
    ensures found == found0 ==> queue == queue0
    ensures forall u | u in queue :: u in found
    ensures forall u | u in found && u !in found0 :: u in queue
    ensures forall u | u in found :: Reach(Adj(g), to, u)
    ensures !ret ==> InSubtree(g, to, c)
    ensures ret ==> ret0 && forall e | IsChildOf(g, e, v) :: e != c && g.edges[e].bs.value in found
  {
    hide Reach, InSubtree, Sound, Adj;
    ret, found, queue := ret0, found0, queue0;
    var todo := Children(g, v);
    while todo != {}
      invariant todo <= Children(g, v)
      invariant ret == ret0
      invariant found0 <= found <= g.nodes.Keys && queue0 <= queue
      invariant found == found0 ==> queue == queue0
      invariant forall u | u in queue :: u in found
      invariant forall u | u in found && u !in found0 :: u in queue
      invariant forall u | u in found :: Reach(Adj(g), to, u)
      invariant forall e | e in Children(g, v) && e !in todo :: e != c && g.edges[e].bs.value in found
      decreases |todo|
    {
      var c2 :| c2 in todo;
      if c2 == c {
        ret := false;
        ChildInSubtreeOf(g, to, v, c);
        return;
      }
      todo := todo - {c2};
      var u := g.edges[c2].bs.value;
      if u !in found {
        ChildKnown(g, c2, v, to);
        queue := queue + [u];
        found := found + {u};
      }
    }
  }

  // ----- the topological sort -----

  /** Duplicate-free, holding the children of its members, every parent before its children. */
  predicate TopoSorted(g: Graph, list: seq<Node>) {
    && (forall i, j | 0 <= i < j < |list| :: list[i] != list[j])
    && (forall e | e in g.edges && Links(g.edges[e]) && g.edges[e].parent.node in list :: g.edges[e].bs.value in list)
    && (forall i, j | 0 <= i < |list| && 0 <= j < |list| && (list[i], list[j]) in Adj(g) :: i < j)
  }

  lemma SortedIsClosed(g: Graph, list: seq<Node>, a: Node, b: Node)
    requires TopoSorted(g, list) && a in list && Reach(Adj(g), a, b)
    ensures b in list
  {
    var s := set n | n in list;
    forall x | x in Adj(g) && x.0 in s
      ensures x.1 in s
    {
      var e := AdjacentHasEdge(g, x.0, x.1);
    }
    ClosedHoldsReach(Adj(g), s, a, b);
  }

  /** Prepending a node that is not yet listed but whose children are. */
  lemma PrependSorted(g: Graph, list: seq<Node>, bs: Node)
    requires TopoSorted(g, list) && bs !in list
    requires forall e | IsChildOf(g, e, bs) :: g.edges[e].bs.value in list
    ensures TopoSorted(g, [bs] + list)
  {
  }

  /** bdrv_topological_dfs.  found holds the listed nodes and those whose call is still in
      progress; each of the latter is above bs.  The result lists, besides what was listed,
      exactly what bs reaches. */
  method TopologicalDfs(g: Graph, list: seq<Node>, found: set<Node>, bs: Node, ghost above: set<Node>)
      returns (list': seq<Node>, found': set<Node>)
    requires Sound(g) && Acyclic(Adj(g)) && bs in g.nodes && found <= g.nodes.Keys
    requires TopoSorted(g, list)
    requires forall n :: n in found <==> n in list || n in above
    requires forall n | n in above :: n !in list && Below(Adj(g), n, bs)
    ensures TopoSorted(g, list') && found <= found' <= g.nodes.Keys
    ensures forall n :: n in found' <==> n in list' || n in above
    ensures forall n | n in above :: n !in list'
    ensures forall n :: n in list' <==> n in list || Reach(Adj(g), bs, n)
    decreases g.nodes.Keys - found, 0
  {
    ReachSelf(Adj(g), bs);
    if bs in found {
      assert bs in list;
      forall n | Reach(Adj(g), bs, n)
        ensures n in list
      {
        SortedIsClosed(g, list, bs, n);
      }
      return list, found;
    }
    list', found' := DfsChildren(g, list, found + {bs}, bs, above + {bs});
    PrependSorted(g, list', bs);
    assert forall n :: n in [bs] + list' <==> n == bs || n in list';
    list' := [bs] + list';
  }

  /** The loop over the children of bs. */
  method DfsChildren(g: Graph, list: seq<Node>, found: set<Node>, bs: Node, ghost above: set<Node>)
      returns (list': seq<Node>, found': set<Node>)
    requires Sound(g) && Acyclic(Adj(g)) && bs in g.nodes && found <= g.nodes.Keys
    requires TopoSorted(g, list) && bs in above
    requires forall n :: n in found <==> n in list || n in above
    requires forall n | n in above :: n !in list && Reach(Adj(g), n, bs)
    ensures TopoSorted(g, list') && found <= found' <= g.nodes.Keys
    ensures forall n :: n in found' <==> n in list' || n in above
    ensures forall n | n in above :: n !in list'
    ensures forall n :: n in list' <==> n in list || (n != bs && Reach(Adj(g), bs, n))
    ensures forall e | IsChildOf(g, e, bs) :: g.edges[e].bs.value in list'
    decreases g.nodes.Keys - found, 1
  {
    hide TopoSorted, Sound, Acyclic, Reach, Below, Adj;
    list', found' := list, found;
    var todo := Children(g, bs);
    while todo != {}
      invariant todo <= Children(g, bs)
      invariant TopoSorted(g, list') && found <= found' <= g.nodes.Keys
      invariant forall n :: n in found' <==> n in list' || n in above
      invariant forall n | n in above :: n !in list'
      invariant forall n | n in list :: n in list'
      invariant forall n | n in list' && n !in list :: n != bs && Reach(Adj(g), bs, n)
      invariant forall e | e in Children(g, bs) && e !in todo :: g.edges[e].bs.value in list'
      decreases |todo|
    {
      var e :| e in todo;
      var c := g.edges[e].bs.value;
      ReachSelf(Adj(g), bs);
      ChildKnown(g, e, bs, bs);
      ChildIsAdjacent(g, e, bs);
      AboveChild(Adj(g), above, bs, c);
      ReachSelf(Adj(g), c);
      list', found' := TopologicalDfs(g, list', found', c, above);
      todo := todo - {e};
    }
    AllBelowListed(g, list', bs);
  }

  /** What is above bs is above its child c, and c reaches less than bs. */
  lemma AboveChild(r: Rel, above: set<Node>, bs: Node, c: Node)
    requires Acyclic(r) && (bs, c) in r && forall n | n in above :: Reach(r, n, bs)
    ensures forall n | n in above :: Below(r, n, c)
    ensures forall n | Reach(r, c, n) :: n != bs && Reach(r, bs, n)
  {
    ReachEdge(r, bs, c);
    NoWayBack(r, bs, c);
    forall n | n in above
      ensures Below(r, n, c)
    {
      ReachTrans(r, n, bs, c);
    }
    forall n | Reach(r, c, n)
      ensures n != bs && Reach(r, bs, n)
    {
      ReachVia(r, bs, c, n);
    }
  }

  lemma AllBelowListed(g: Graph, list: seq<Node>, bs: Node)
    requires TopoSorted(g, list) && forall e | e in Children(g, bs) :: g.edges[e].bs.value in list
    ensures forall n | n != bs && Reach(Adj(g), bs, n) :: n in list
  {
    forall n | n != bs && Reach(Adj(g), bs, n)
      ensures n in list
    {
      var b := ReachFirst(Adj(g), bs, n);
      var e := AdjacentHasEdge(g, bs, b);
      assert e in Children(g, bs);
      SortedIsClosed(g, list, b, n);
    }
  }

  /** The first half of bdrv_list_refresh_perms: the subtrees of all roots, sorted. */
  method SortSubtrees(g: Graph, roots: seq<Node>) returns (list: seq<Node>)
    requires Sound(g) && Acyclic(Adj(g)) && forall n | n in roots :: n in g.nodes
    ensures TopoSorted(g, list)
    ensures forall n :: n in list <==> exists i | 0 <= i < |roots| :: Reach(Adj(g), roots[i], n)
    ensures forall n | n in list :: n in g.nodes
  {
    list := [];
    var found: set<Node> := {};
    var k := 0;
    while k < |roots|
      invariant 0 <= k <= |roots| && TopoSorted(g, list) && found <= g.nodes.Keys
      invariant forall n :: n in found <==> n in list
      invariant forall n :: n in list <==> exists i | 0 <= i < k :: Reach(Adj(g), roots[i], n)
    {
      list, found := TopologicalDfs(g, list, found, roots[k], {});
      k := k + 1;
    }
  }
}
