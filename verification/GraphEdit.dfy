/** Transactional edits of the block graph (block.c), with their undo actions and the
    reference counts they move around.

    A transaction is the list of actions added to it, oldest first.  As in
    util/transactions.c, commit and abort run the actions newest first. */
module GraphEdit {
  import opened Options
  import opened Reachability
  import opened BlockGraph

  datatype Action =
    | SetPermUndo(e: Edge, perm: Perms, shared: Perms)
    | ReplaceUndo(e: Edge, oldBs: Option<Node>)
    | AttachUndo(e: Edge)
    | RemoveCommit(e: Edge)
    | InheritsUndo(n: Node, was: Option<Node>)

  /** refs are the nodes' reference counts; sched the references that a bottom half will drop. */
  datatype State = State(g: Graph, log: seq<Action>, refs: map<Node, int>, sched: multiset<Node>)

  // ----- bdrv_replace_child_noperm with the attach and detach callbacks -----

  function ClearSlot(g: Graph, e: Edge): Graph
    requires e in g.edges
  {
    var p := g.edges[e].parent;
    if p.Bds? && p.node in g.nodes then
      var ns := g.nodes[p.node];
      g.(nodes := g.nodes[p.node :=
          if ns.backing == Some(e) then ns.(backing := None) else if ns.file == Some(e) then ns.(file := None) else ns])
    else g
  }

  function FillSlot(g: Graph, e: Edge): Graph
    requires e in g.edges
  {
    var p := g.edges[e].parent;
    if p.Bds? && p.node in g.nodes then
      var ns := g.nodes[p.node];
      g.(nodes := g.nodes[p.node :=
          match g.edges[e].slot
          case BackingSlot => ns.(backing := Some(e))
          case FileSlot => ns.(file := Some(e))
          case NoSlot => ns])
    else g
  }

  function SetBs(g: Graph, e: Edge, to: Option<Node>): (r: Graph)
    requires e in g.edges
    ensures e in r.edges && r.edges == g.edges[e := g.edges[e].(bs := to)] && r.nodes.Keys == g.nodes.Keys
  {
    var g1 := if g.edges[e].bs.Some? then ClearSlot(g, e) else g;
    var g2 := g1.(edges := g1.edges[e := g1.edges[e].(bs := to)]);
    if to.Some? then FillSlot(g2, e) else g2
  }

  /** What bdrv_child_cb_attach asserts: the slot the edge is meant for is free. */
  predicate SlotFree(g: Graph, st: EdgeState) {
    st.parent.Bds? ==>
      && st.parent.node in g.nodes
      && (st.slot.FileSlot? ==> g.nodes[st.parent.node].file.None?)
      && (st.slot.BackingSlot? ==> g.nodes[st.parent.node].backing.None?)
  }

  /** What bdrv_replace_child_noperm asserts before it points an edge somewhere else. */
  predicate CanSetBs(g: Graph, e: Edge, to: Option<Node>) {
    && e in g.edges && g.edges[e].bs != to && !g.edges[e].frozen
    && (to.Some? ==> to.value in g.nodes)
    && (g.edges[e].bs.None? ==> SlotFree(g, g.edges[e]))
  }

  /** The node state after SetBs: only the parent's slot for this edge changes. */
  function NodeAfter(g: Graph, e: Edge, to: Option<Node>, n: Node): NodeState
    requires e in g.edges && n in g.nodes
  {
    var st, ns := g.edges[e], g.nodes[n];
    var here := if to.Some? then Some(e) else None;
    if st.parent != Bds(n) then ns
    else match st.slot
      case FileSlot => ns.(file := here)
      case BackingSlot => ns.(backing := here)
      case NoSlot => ns
  }

  lemma SetBsNode(g: Graph, e: Edge, to: Option<Node>, n: Node)
    requires Sound(g) && CanSetBs(g, e, to) && n in g.nodes
    ensures SetBs(g, e, to).nodes[n] == NodeAfter(g, e, to, n)
  {
    assert EdgeSound(g, e) && SlotsSound(g, n);
  }

  lemma SetBsSound(g: Graph, e: Edge, to: Option<Node>)
    requires Sound(g) && CanSetBs(g, e, to)
    ensures Sound(SetBs(g, e, to))
  {
    var r := SetBs(g, e, to);
    forall x | x in r.edges
      ensures EdgeSound(r, x)
    {
      SetBsEdgeSound(g, e, to, x);
    }
    forall n | n in r.nodes
      ensures SlotsSound(r, n)
    {
      SetBsSlotsSound(g, e, to, n);
    }
  }

  lemma SetBsEdgeSound(g: Graph, e: Edge, to: Option<Node>, x: Edge)
    requires Sound(g) && CanSetBs(g, e, to) && x in g.edges
    ensures EdgeSound(SetBs(g, e, to), x)
  {
    assert EdgeSound(g, x) && EdgeSound(g, e);
    var p := g.edges[x].parent;
    if p.Bds? && p.node in g.nodes {
      SetBsNode(g, e, to, p.node);
    }
  }

  lemma SetBsSlotsSound(g: Graph, e: Edge, to: Option<Node>, n: Node)
    requires Sound(g) && CanSetBs(g, e, to) && n in g.nodes
    ensures SlotsSound(SetBs(g, e, to), n)
  {
    SetBsNode(g, e, to, n);
    assert SlotsSound(g, n) && EdgeSound(g, e);
  }

  /** Pointing an edge back undoes everything, slots included. */
  lemma SetBsBack(g: Graph, e: Edge, to: Option<Node>)
    requires Sound(g) && CanSetBs(g, e, to)
    ensures SetBs(SetBs(g, e, to), e, g.edges[e].bs) == g
  {
    hide SetBs;
    hide Sound;
    var b := SetBs(SetBs(g, e, to), e, g.edges[e].bs);
    forall n | n in g.nodes
      ensures b.nodes[n] == g.nodes[n]
    {
      SetBsBackNode(g, e, to, n);
    }
    assert b.edges == g.edges;
    assert b.nodes == g.nodes;
  }

  lemma SetBsBackNode(g: Graph, e: Edge, to: Option<Node>, n: Node)
    requires Sound(g) && CanSetBs(g, e, to) && n in g.nodes
    ensures SetBs(SetBs(g, e, to), e, g.edges[e].bs).nodes[n] == g.nodes[n]
  {
    SetBsSound(g, e, to);
    CanGoBack(g, e, to);
    SetBsNode(g, e, to, n);
    SetBsNode(SetBs(g, e, to), e, g.edges[e].bs, n);
    assert EdgeSound(g, e) && SlotsSound(g, n);
  }

  lemma CanGoBack(g: Graph, e: Edge, to: Option<Node>)
    requires Sound(g) && CanSetBs(g, e, to)
    ensures CanSetBs(SetBs(g, e, to), e, g.edges[e].bs)
  {
  }

  // ----- the edits -----

  datatype Op =
    | SetPerm(e: Edge, perm: Perms, shared: Perms)
    | Replace(e: Edge, to: Option<Node>)
    | Attach(e: Edge, st: EdgeState, child: Node)
    | Remove(e: Edge)
    | SetInherits(n: Node, from: Option<Node>)

  predicate Removed(log: seq<Action>, e: Edge) {
    RemoveCommit(e) in log
  }

  /** What the source asserts, or knows of its arguments, before each edit. */
  predicate OpOk(g: Graph, log: seq<Action>, op: Op) {
    match op
    case SetPerm(e, _, _) => e in g.edges
    case Replace(e, to) => CanSetBs(g, e, to) && !Removed(log, e)
    case Attach(e, st, child) => e !in g.edges && !Removed(log, e) && child in g.nodes && SlotFree(g, st) && !st.frozen
    case Remove(e) => e in g.edges && !Removed(log, e) && (g.edges[e].bs.Some? ==> !g.edges[e].frozen)
    case SetInherits(n, _) => n in g.nodes
  }

  function WithEdge(g: Graph, e: Edge, st: EdgeState): Graph {
    g.(edges := g.edges[e := st])
  }

  /** bdrv_child_set_perm, bdrv_replace_child_tran, bdrv_attach_child_common,
      bdrv_remove_child and bdrv_set_inherits_from, on the graph. */
  function DoGraph(g: Graph, op: Op): Graph {
    match op
    case SetPerm(e, perm, shared) =>
      if e in g.edges then WithEdge(g, e, g.edges[e].(perm := perm, shared := shared)) else g
    case Replace(e, to) => if e in g.edges then SetBs(g, e, to) else g
    case Attach(e, st, child) => SetBs(WithEdge(g, e, st.(bs := None)), e, Some(child))
    case Remove(e) => if e in g.edges && g.edges[e].bs.Some? then SetBs(g, e, None) else g
    case SetInherits(n, from) =>
      if n in g.nodes then g.(nodes := g.nodes[n := g.nodes[n].(inheritsFrom := from)]) else g
  }

  /** The actions an edit adds to the transaction. */
  function LogOf(g: Graph, op: Op): seq<Action>
    requires OpOk(g, [], op)
  {
    match op
    case SetPerm(e, _, _) => [SetPermUndo(e, g.edges[e].perm, g.edges[e].shared)]
    case Replace(e, _) => [ReplaceUndo(e, g.edges[e].bs)]
    case Attach(e, _, _) => [AttachUndo(e)]
    case Remove(e) => (if g.edges[e].bs.Some? then [ReplaceUndo(e, g.edges[e].bs)] else []) + [RemoveCommit(e)]
    case SetInherits(n, _) => [InheritsUndo(n, g.nodes[n].inheritsFrom)]
  }

  function AddRef(refs: map<Node, int>, n: Option<Node>, d: int): map<Node, int> {
    if n.Some? && n.value in refs then refs[n.value := refs[n.value] + d] else refs
  }

  /** An edit, with the reference it takes: bdrv_ref on the new end of the edge. */
  function Do(s: State, op: Op): State
    requires OpOk(s.g, s.log, op)
  {
    State(DoGraph(s.g, op), s.log + LogOf(s.g, op),
          match op
          case Replace(_, to) => AddRef(s.refs, to, 1)
          case Attach(_, _, child) => AddRef(s.refs, Some(child), 1)
          case _ => s.refs,
          s.sched)
  }

  // ----- abort and commit -----

  function UndoGraph(g: Graph, a: Action): Graph {
    match a
    case SetPermUndo(e, perm, shared) =>
      if e in g.edges then WithEdge(g, e, g.edges[e].(perm := perm, shared := shared)) else g
    case ReplaceUndo(e, oldBs) => if e in g.edges then SetBs(g, e, oldBs) else g
    case AttachUndo(e) => if e in g.edges then var d := SetBs(g, e, None); d.(edges := d.edges - {e}) else g
    case RemoveCommit(_) => g
    case InheritsUndo(n, was) => if n in g.nodes then g.(nodes := g.nodes[n := g.nodes[n].(inheritsFrom := was)]) else g
  }

  /** An abort callback: undoing a replacement drops the new end's reference at once, undoing
      an attachment schedules it. */
  function Undo(s: State, a: Action): State {
    State(UndoGraph(s.g, a), s.log,
          if a.ReplaceUndo? && a.e in s.g.edges then AddRef(s.refs, s.g.edges[a.e].bs, -1) else s.refs,
          if a.AttachUndo? && a.e in s.g.edges && s.g.edges[a.e].bs.Some?
            then s.sched + multiset{s.g.edges[a.e].bs.value} else s.sched)
  }

  function Init(log: seq<Action>): seq<Action>
    requires log != []
  {
    log[..|log| - 1]
  }

  function Last(log: seq<Action>): Action
    requires log != []
  {
    log[|log| - 1]
  }

  function Abort(s: State): State
    decreases |s.log|
  {
    if s.log == [] then s else Abort(UndoLast(s))
  }

  /** A commit callback: the old end of a replaced edge loses its reference later, and a
      removed edge is freed. */
  function CommitOne(s: State, a: Action): State {
    s.(g := if a.RemoveCommit? then s.g.(edges := s.g.edges - {a.e}) else s.g,
       sched := if a.ReplaceUndo? && a.oldBs.Some? then s.sched + multiset{a.oldBs.value} else s.sched)
  }

  function Commit(s: State): State
    decreases |s.log|
  {
    if s.log == [] then s else Commit(CommitOne(s.(log := Init(s.log)), Last(s.log)))
  }

  // ----- undo restores the graph -----

  lemma WithEdgeSound(g: Graph, e: Edge, st: EdgeState)
    requires Sound(g) && st.bs.None? && (e in g.edges ==> g.edges[e].bs.None?)
    ensures Sound(WithEdge(g, e, st))
  {
  }

  /** Edits of permissions and of inherits_from leave the shape of the graph alone. */
  lemma SameShapeSound(g: Graph, r: Graph)
    requires Sound(g) && r.edges.Keys == g.edges.Keys && r.nodes.Keys == g.nodes.Keys
    requires forall e | e in g.edges ::
               && r.edges[e].parent == g.edges[e].parent && r.edges[e].slot == g.edges[e].slot
               && r.edges[e].bs == g.edges[e].bs
    requires forall n | n in g.nodes :: r.nodes[n].file == g.nodes[n].file && r.nodes[n].backing == g.nodes[n].backing
    ensures Sound(r) && Adj(r) == Adj(g)
  {
  }

  lemma DoSound(g: Graph, op: Op)
    requires Sound(g) && OpOk(g, [], op)
    ensures Sound(DoGraph(g, op))
  {
    match op
    case SetPerm(e, perm, shared) => SameShapeSound(g, DoGraph(g, op));
    case Replace(e, to) => SetBsSound(g, e, to);
    case Attach(e, st, child) =>
      WithEdgeSound(g, e, st.(bs := None));
      SetBsSound(WithEdge(g, e, st.(bs := None)), e, Some(child));
    case Remove(e) => if g.edges[e].bs.Some? { SetBsSound(g, e, None); }
    case SetInherits(n, from) => SameShapeSound(g, DoGraph(g, op));
  }

  function AbortGraph(g: Graph, log: seq<Action>): Graph
    decreases |log|
  {
    if log == [] then g else AbortGraph(UndoGraph(g, Last(log)), Init(log))
  }

  lemma {:induction false} AbortIsAbortGraph(s: State)
    ensures Abort(s).g == AbortGraph(s.g, s.log) && Abort(s).log == []
    decreases |s.log|
  {
    if s.log != [] {
      AbortIsAbortGraph(Undo(s.(log := Init(s.log)), Last(s.log)));
    }
  }

  /** The first action of an edit undoes its whole effect on the graph. */
  lemma UndoFirst(g: Graph, op: Op)
    requires Sound(g) && OpOk(g, [], op)
    ensures UndoGraph(DoGraph(g, op), LogOf(g, op)[0]) == g
  {
    var u := UndoGraph(DoGraph(g, op), LogOf(g, op)[0]);
    match op
    case SetPerm(e, perm, shared) => assert u.edges == g.edges;
    case Replace(e, to) => SetBsBack(g, e, to);
    case Attach(e, st, child) =>
      var w := WithEdge(g, e, st.(bs := None));
      WithEdgeSound(g, e, st.(bs := None));
      SetBsBack(w, e, Some(child));
      assert w.edges - {e} == g.edges;
    case Remove(e) => if g.edges[e].bs.Some? { SetBsBack(g, e, None); }
    case SetInherits(n, from) => assert u.nodes == g.nodes;
  }

  /** The undo actions of one edit, run right after it, give the graph back. */
  lemma UndoOfDo(g: Graph, log: seq<Action>, op: Op)
    requires Sound(g) && OpOk(g, [], op)
    ensures AbortGraph(DoGraph(g, op), log + LogOf(g, op)) == AbortGraph(g, log)
  {
    var d, acts := DoGraph(g, op), LogOf(g, op);
    UndoFirst(g, op);
    AbortOne(d, log, acts[0]);
    if |acts| == 2 {
      assert log + acts == (log + [acts[0]]) + [acts[1]];
      AbortOne(d, log + [acts[0]], acts[1]);
    } else {
      assert acts == [acts[0]];
    }
  }

  lemma AbortOne(g: Graph, log: seq<Action>, a: Action)
    ensures AbortGraph(g, log + [a]) == AbortGraph(UndoGraph(g, a), log)
  {
  }

  // ----- whole transactions -----

  predicate OpsOk(s: State, ops: seq<Op>)
    decreases |ops|, 0
  {
    ops == [] || (OpsOk(s, ops[..|ops| - 1]) && var m := DoAll(s, ops[..|ops| - 1]); OpOk(m.g, m.log, ops[|ops| - 1]))
  }

  /** The state after the edits ops, each allowed where it happens. */
  function DoAll(s: State, ops: seq<Op>): State
    requires OpsOk(s, ops)
    decreases |ops|, 1
  {
    if ops == [] then s else Do(DoAll(s, ops[..|ops| - 1]), ops[|ops| - 1])
  }

  lemma OpOkAnyLog(g: Graph, log: seq<Action>, op: Op)
    requires OpOk(g, log, op)
    ensures OpOk(g, [], op)
  {
  }

  lemma {:induction false} DoAllSound(s: State, ops: seq<Op>)
    requires Sound(s.g) && OpsOk(s, ops)
    ensures Sound(DoAll(s, ops).g) && DoAll(s, ops).g.nodes.Keys == s.g.nodes.Keys
    decreases |ops|
  {
    if ops != [] {
      DoAllSound(s, ops[..|ops| - 1]);
      DoSound(DoAll(s, ops[..|ops| - 1]).g, ops[|ops| - 1]);
    }
  }

  /** Aborting any sequence of edits gives back the edges, slots, permissions and
      inherits_from pointers there were when the transaction began. */
  lemma {:induction false} AbortRestores(s: State, ops: seq<Op>)
    requires Sound(s.g) && OpsOk(s, ops)
    ensures AbortGraph(DoAll(s, ops).g, DoAll(s, ops).log) == AbortGraph(s.g, s.log)
    ensures Abort(DoAll(s, ops)).g == Abort(s).g
    decreases |ops|
  {
    AbortIsAbortGraph(s);
    AbortIsAbortGraph(DoAll(s, ops));
    if ops != [] {
      var m := DoAll(s, ops[..|ops| - 1]);
      AbortRestores(s, ops[..|ops| - 1]);
      DoAllSound(s, ops[..|ops| - 1]);
      UndoOfDo(m.g, m.log, ops[|ops| - 1]);
    }
  }

  // ----- references are conserved -----

  predicate Saves(a: Action, n: Node) {
    a.ReplaceUndo? && a.oldBs == Some(n)
  }

  /** References to n kept by the replace actions of a live transaction. */
  function Saved(log: seq<Action>, n: Node): nat
    decreases |log|
  {
    if log == [] then 0 else Saved(Init(log), n) + One(Saves(Last(log), n))
  }

  lemma SavedSnoc(log: seq<Action>, a: Action, n: Node)
    ensures Saved(log + [a], n) == Saved(log, n) + One(Saves(a, n))
  {
  }

  /** The reference count of n is its incoming edges, plus what live replace actions hold,
      plus what is scheduled to be dropped, plus what callers outside hold. */
  predicate RefOk(s: State, outside: multiset<Node>, n: Node) {
    n in s.refs && s.refs[n] == |Parents(s.g, n)| + Saved(s.log, n) + s.sched[n] + outside[n]
  }

  predicate RefsOk(s: State, outside: multiset<Node>) {
    forall n | n in s.g.nodes :: RefOk(s, outside, n)
  }

  /** So a node with an incoming edge is never deleted. */
  lemma ParentKeepsAlive(s: State, outside: multiset<Node>, e: Edge)
    requires Sound(s.g) && RefsOk(s, outside) && e in s.g.edges && s.g.edges[e].bs.Some?
    ensures s.g.edges[e].bs.value in s.refs && s.refs[s.g.edges[e].bs.value] > 0
  {
    var n := s.g.edges[e].bs.value;
    assert EdgeSound(s.g, e);
    assert RefOk(s, outside, n);
    assert e in Parents(s.g, n);
  }

  lemma ParentsAfter(g: Graph, e: Edge, to: Option<Node>, n: Node)
    requires e in g.edges
    ensures |Parents(SetBs(g, e, to), n)| == |Parents(g, n)| - One(g.edges[e].bs == Some(n)) + One(to == Some(n))
  {
    hide SetBs;
    var r := SetBs(g, e, to);
    var rest := Parents(g, n) - {e};
    if g.edges[e].bs == Some(n) {
      assert Parents(g, n) == rest + {e};
    } else {
      assert Parents(g, n) == rest;
    }
    if to == Some(n) {
      assert Parents(r, n) == rest + {e};
    } else {
      assert Parents(r, n) == rest;
    }
  }

  lemma ParentsOfNewEdge(g: Graph, e: Edge, st: EdgeState, n: Node)
    requires e !in g.edges && st.bs.None?
    ensures Parents(WithEdge(g, e, st), n) == Parents(g, n)
  {
  }

  /** Edges that point where they pointed keep every parents list. */
  lemma SameParents(g: Graph, r: Graph, n: Node)
    requires r.edges.Keys == g.edges.Keys && forall e | e in g.edges :: r.edges[e].bs == g.edges[e].bs
    ensures Parents(r, n) == Parents(g, n)
  {
  }

  /** An edit that moves no edge and saves no reference. */
  lemma QuietKeepsRef(s: State, r: State, a: Action, outside: multiset<Node>, n: Node)
    requires RefOk(s, outside, n) && !a.ReplaceUndo?
    requires r.log == s.log + [a] && r.refs == s.refs && r.sched == s.sched
    requires r.g.edges.Keys == s.g.edges.Keys && forall e | e in s.g.edges :: r.g.edges[e].bs == s.g.edges[e].bs
    ensures RefOk(r, outside, n)
  {
    SavedSnoc(s.log, a, n);
    SameParents(s.g, r.g, n);
  }

  lemma ReplaceKeepsRef(s: State, e: Edge, to: Option<Node>, outside: multiset<Node>, n: Node)
    requires OpOk(s.g, s.log, Replace(e, to)) && RefOk(s, outside, n)
    ensures RefOk(Do(s, Replace(e, to)), outside, n)
  {
    hide SetBs, Parents;
    SavedSnoc(s.log, ReplaceUndo(e, s.g.edges[e].bs), n);
    ParentsAfter(s.g, e, to, n);
  }

  lemma AttachKeepsRef(s: State, e: Edge, st: EdgeState, child: Node, outside: multiset<Node>, n: Node)
    requires OpOk(s.g, s.log, Attach(e, st, child)) && RefOk(s, outside, n)
    ensures RefOk(Do(s, Attach(e, st, child)), outside, n)
  {
    hide SetBs, Parents, SlotFree;
    SavedSnoc(s.log, AttachUndo(e), n);
    ParentsOfNewEdge(s.g, e, st.(bs := None), n);
    ParentsAfter(WithEdge(s.g, e, st.(bs := None)), e, Some(child), n);
  }

  lemma RemoveKeepsRef(s: State, e: Edge, outside: multiset<Node>, n: Node)
    requires OpOk(s.g, s.log, Remove(e)) && RefOk(s, outside, n)
    ensures RefOk(Do(s, Remove(e)), outside, n)
  {
    hide SetBs, Parents;
    var r := Do(s, Remove(e));
    if s.g.edges[e].bs.Some? {
      var undo := ReplaceUndo(e, s.g.edges[e].bs);
      assert r.log == (s.log + [undo]) + [RemoveCommit(e)];
      SavedSnoc(s.log, undo, n);
      SavedSnoc(s.log + [undo], RemoveCommit(e), n);
      ParentsAfter(s.g, e, None, n);
    } else {
      assert r.log == s.log + [RemoveCommit(e)];
      SavedSnoc(s.log, RemoveCommit(e), n);
    }
  }

  lemma DoKeepsRef(s: State, op: Op, outside: multiset<Node>, n: Node)
    requires OpOk(s.g, s.log, op) && RefOk(s, outside, n)
    ensures RefOk(Do(s, op), outside, n)
  {
    hide RefOk, SetBs;
    match op
    case SetPerm(e, perm, shared) => QuietKeepsRef(s, Do(s, op), LogOf(s.g, op)[0], outside, n);
    case Replace(e, to) => ReplaceKeepsRef(s, e, to, outside, n);
    case Attach(e, st, child) => AttachKeepsRef(s, e, st, child, outside, n);
    case Remove(e) => RemoveKeepsRef(s, e, outside, n);
    case SetInherits(m, from) => QuietKeepsRef(s, Do(s, op), LogOf(s.g, op)[0], outside, n);
  }

  lemma DoKeepsRefs(s: State, op: Op, outside: multiset<Node>)
    requires OpOk(s.g, s.log, op) && RefsOk(s, outside)
    ensures RefsOk(Do(s, op), outside)
  {
    forall n | n in Do(s, op).g.nodes
      ensures RefOk(Do(s, op), outside, n)
    {
      DoKeepsRef(s, op, outside, n);
    }
  }

  lemma UndoKeepsRef(s: State, log: seq<Action>, a: Action, outside: multiset<Node>, n: Node)
    requires s.log == log + [a] && RefOk(s, outside, n)
    requires a.ReplaceUndo? || a.AttachUndo? ==> a.e in s.g.edges
    ensures RefOk(Undo(s.(log := log), a), outside, n)
  {
    SavedSnoc(log, a, n);
    var r := Undo(s.(log := log), a);
    match a
    case SetPermUndo(e, perm, shared) => SameParents(s.g, r.g, n);
    case ReplaceUndo(e, oldBs) => ParentsAfter(s.g, e, oldBs, n);
    case AttachUndo(e) =>
      var d := SetBs(s.g, e, None);
      ParentsAfter(s.g, e, None, n);
      assert Parents(r.g, n) == Parents(d, n);
    case RemoveCommit(e) =>
    case InheritsUndo(m, was) => SameParents(s.g, r.g, n);
  }

  lemma UndoKeepsRefs(s: State, log: seq<Action>, a: Action, outside: multiset<Node>)
    requires s.log == log + [a] && RefsOk(s, outside)
    requires a.ReplaceUndo? || a.AttachUndo? ==> a.e in s.g.edges
    ensures RefsOk(Undo(s.(log := log), a), outside)
    ensures Abort(s) == Abort(Undo(s.(log := log), a))
  {
    assert Init(s.log) == log;
    var r := Undo(s.(log := log), a);
    forall n | n in r.g.nodes
      ensures RefOk(r, outside, n)
    {
      UndoKeepsRef(s, log, a, outside, n);
    }
  }

  /** Undoing the edits one by one accounts for every reference. */
  lemma {:induction false} AbortKeepsRefs(s0: State, ops: seq<Op>, t: State, outside: multiset<Node>)
    requires Sound(s0.g) && s0.log == [] && OpsOk(s0, ops)
    requires t.g == DoAll(s0, ops).g && t.log == DoAll(s0, ops).log && RefsOk(t, outside)
    ensures RefsOk(Abort(t), outside) && Abort(t).g == s0.g && Abort(t).log == []
    decreases |ops|
  {
    if ops != [] {
      var m, op := DoAll(s0, ops[..|ops| - 1]), ops[|ops| - 1];
      DoAllSound(s0, ops[..|ops| - 1]);
      var u := UndoOp(m, op, t, outside);
      AbortKeepsRefs(s0, ops[..|ops| - 1], u, outside);
    }
  }

  lemma ActsOf(g: Graph, op: Op)
    requires OpOk(g, [], op)
    ensures var acts := LogOf(g, op);
            && (|acts| == 1 || (|acts| == 2 && acts[1].RemoveCommit?))
            && (acts[0].ReplaceUndo? || acts[0].AttachUndo? ==> acts[0].e in DoGraph(g, op).edges)
  {
  }

  /** Undoing the one or two actions of the newest edit. */
  lemma UndoOp(m: State, op: Op, t: State, outside: multiset<Node>) returns (u: State)
    requires Sound(m.g) && OpOk(m.g, m.log, op) && t.g == DoGraph(m.g, op) && t.log == m.log + LogOf(m.g, op)
    requires RefsOk(t, outside)
    ensures u == UndoActs(t, |LogOf(m.g, op)|)
    ensures Abort(u) == Abort(t) && u.g == m.g && u.log == m.log && RefsOk(u, outside)
  {
    UndoFirst(m.g, op);
    ActsOf(m.g, op);
    var acts := LogOf(m.g, op);
    if |acts| == 2 {
      assert t.log == (m.log + [acts[0]]) + [acts[1]];
      UndoKeepsRefs(t, m.log + [acts[0]], acts[1], outside);
      var t1 := Undo(t.(log := m.log + [acts[0]]), acts[1]);
      UndoKeepsRefs(t1, m.log, acts[0], outside);
      u := Undo(t1.(log := m.log), acts[0]);
      assert Init(t.log) == m.log + [acts[0]] && Init(t1.log) == m.log;
      assert UndoActs(UndoLast(UndoLast(t)), 0) == u;
    } else {
      assert t.log == m.log + [acts[0]];
      UndoKeepsRefs(t, m.log, acts[0], outside);
      u := Undo(t.(log := m.log), acts[0]);
      assert Init(t.log) == m.log;
      assert UndoActs(UndoLast(t), 0) == u;
    }
  }

  function UndoLast(s: State): State
    requires s.log != []
  {
    Undo(s.(log := Init(s.log)), Last(s.log))
  }

  /** s with its newest k actions undone. */
  function UndoActs(s: State, k: nat): State
    requires k <= |s.log|
    decreases k
  {
    if k == 0 then s else UndoActs(UndoLast(s), k - 1)
  }

  // ----- references belong to nodes, and no node is lost -----

  /** What is counted, scheduled to be dropped, held by callers or saved by a live replace
      action are nodes of the graph. */
  predicate Known(s: State, outside: multiset<Node>) {
    && s.refs.Keys == s.g.nodes.Keys
    && (forall n | n in s.sched :: n in s.g.nodes)
    && (forall n | n in outside :: n in s.g.nodes)
    && (forall a | a in s.log :: SavesKnown(s.g, a))
  }

  predicate SavesKnown(g: Graph, a: Action) {
    a.ReplaceUndo? && a.oldBs.Some? ==> a.oldBs.value in g.nodes
  }

  /** Exactly the nodes that are being deleted have no reference left. */
  predicate Alive(refs: map<Node, int>, dying: set<Node>) {
    && dying <= refs.Keys
    && forall n | n in refs :: if n in dying then refs[n] == 0 else refs[n] > 0
  }

  /** The nodes an edit adds a reference to. */
  function Target(op: Op): Option<Node> {
    match op
    case Replace(_, to) => to
    case Attach(_, _, child) => Some(child)
    case _ => None
  }

  lemma DoKeepsKnown(s: State, op: Op, outside: multiset<Node>)
    requires Sound(s.g) && OpOk(s.g, s.log, op) && Known(s, outside)
    ensures Known(Do(s, op), outside)
  {
    hide SetBs;
    var r := Do(s, op);
    forall a | a in r.log
      ensures SavesKnown(r.g, a)
    {
      if a in s.log {
        assert SavesKnown(s.g, a);
      } else if a.ReplaceUndo? {
        assert EdgeSound(s.g, a.e);
      }
    }
  }

  lemma DoKeepsAlive(s: State, op: Op, dying: set<Node>)
    requires OpOk(s.g, s.log, op) && Alive(s.refs, dying) && (Target(op).Some? ==> Target(op).value !in dying)
    ensures Alive(Do(s, op).refs, dying)
  {
  }

  /** Undoing drops references but none that is scheduled, and mentions only nodes. */
  predicate Undone(t: State, u: State, outside: multiset<Node>) {
    && Known(u, outside) && u.refs.Keys == t.refs.Keys
    && (forall n | n in t.refs :: u.refs[n] <= t.refs[n])
    && t.sched <= u.sched
  }

  lemma UndoKeepsNodes(g: Graph, a: Action)
    ensures UndoGraph(g, a).nodes.Keys == g.nodes.Keys
  {
    hide SetBs;
  }

  lemma UndoLastIsUndone(s: State, outside: multiset<Node>)
    requires Sound(s.g) && s.log != [] && Known(s, outside)
    ensures Undone(s, UndoLast(s), outside)
  {
    var r, a := UndoLast(s), Last(s.log);
    UndoKeepsNodes(s.g, a);
    if a.AttachUndo? && a.e in s.g.edges {
      assert EdgeSound(s.g, a.e);
    }
    hide UndoGraph, Sound, EdgeSound;
    forall x | x in r.log
      ensures SavesKnown(r.g, x)
    {
      assert SavesKnown(s.g, x);
    }
  }

  /** What keeps a node alive at the beginning of a transaction keeps it alive throughout. */
  predicate Anchored(g: Graph, sched: multiset<Node>, outside: multiset<Node>, dying: set<Node>) {
    forall n | n in g.nodes && n !in dying :: |Parents(g, n)| + sched[n] + outside[n] > 0
  }

  lemma DoHoldsMore(s: State, op: Op, n: Node)
    requires OpOk(s.g, s.log, op)
    ensures |Parents(Do(s, op).g, n)| + Saved(Do(s, op).log, n) >= |Parents(s.g, n)| + Saved(s.log, n)
  {
    var c := |Parents(s.g, n)| + Saved(s.log, n);
    var t := s.(refs := map[n := c], sched := multiset{});
    DoKeepsRef(t, op, multiset{}, n);
    hide Parents, Saved, SetBs;
    assert Do(t, op).g == Do(s, op).g && Do(t, op).log == Do(s, op).log;
  }

  /** No edit lets go of a node: what it takes from an edge it saves. */
  lemma {:induction false} DoAllHoldsMore(s: State, ops: seq<Op>, n: Node)
    requires OpsOk(s, ops)
    ensures |Parents(DoAll(s, ops).g, n)| + Saved(DoAll(s, ops).log, n) >= |Parents(s.g, n)| + Saved(s.log, n)
    decreases |ops|
  {
    if ops != [] {
      DoAllHoldsMore(s, ops[..|ops| - 1], n);
      DoHoldsMore(DoAll(s, ops[..|ops| - 1]), ops[|ops| - 1], n);
    }
  }

  /** Every state that an abort passes through keeps all nodes alive: the references that abort
      callbacks drop at once are never the last. */
  predicate AbortAlive(s: State, dying: set<Node>)
    decreases |s.log|
  {
    && Alive(s.refs, dying)
    && (s.log != [] ==> AbortAlive(UndoLast(s), dying))
  }

  /** The nodes of a transaction's states are alive. */
  lemma EditedIsAlive(s0: State, ops: seq<Op>, t: State, outside: multiset<Node>, dying: set<Node>)
    requires Sound(s0.g) && s0.log == [] && OpsOk(s0, ops)
    requires t.g == DoAll(s0, ops).g && t.log == DoAll(s0, ops).log && RefsOk(t, outside) && Known(t, outside)
    requires Anchored(s0.g, t.sched, outside, dying) && dying <= t.refs.Keys && forall n | n in dying :: t.refs[n] <= 0
    ensures Alive(t.refs, dying)
  {
    DoAllSound(s0, ops);
    forall n | n in t.refs
      ensures if n in dying then t.refs[n] == 0 else t.refs[n] > 0
    {
      assert RefOk(t, outside, n);
      DoAllHoldsMore(s0, ops, n);
    }
  }

  lemma {:induction false} AbortStaysAlive(s0: State, ops: seq<Op>, t: State, outside: multiset<Node>, dying: set<Node>)
    requires Sound(s0.g) && s0.log == [] && OpsOk(s0, ops)
    requires t.g == DoAll(s0, ops).g && t.log == DoAll(s0, ops).log && RefsOk(t, outside) && Known(t, outside)
    requires Anchored(s0.g, t.sched, outside, dying) && dying <= t.refs.Keys && forall n | n in dying :: t.refs[n] <= 0
    ensures AbortAlive(t, dying) && Known(Abort(t), outside)
    decreases |ops|
  {
    EditedIsAlive(s0, ops, t, outside, dying);
    if ops != [] {
      var m, op := DoAll(s0, ops[..|ops| - 1]), ops[|ops| - 1];
      DoAllSound(s0, ops[..|ops| - 1]);
      var u := UndoOp(m, op, t, outside);
      UndoneOp(m, op, t, u, outside);
      AbortStaysAlive(s0, ops[..|ops| - 1], u, outside, dying);
      AbortsThrough(m, op, t, u, dying);
    }
  }

  /** If the newest edit left two actions, undoing the newest of them changes no graph. */
  lemma SecondIsFree(m: State, op: Op, t: State)
    requires OpOk(m.g, m.log, op) && t.log == m.log + LogOf(m.g, op)
    ensures |LogOf(m.g, op)| == 1 || |LogOf(m.g, op)| == 2
    ensures |LogOf(m.g, op)| == 2 ==> UndoLast(t).g == t.g && UndoLast(t).refs == t.refs
  {
    ActsOf(m.g, op);
  }

  lemma UndoneOp(m: State, op: Op, t: State, u: State, outside: multiset<Node>)
    requires Sound(m.g) && OpOk(m.g, m.log, op) && t.g == DoGraph(m.g, op) && t.log == m.log + LogOf(m.g, op)
    requires Known(t, outside) && u == UndoActs(t, |LogOf(m.g, op)|)
    ensures Undone(t, u, outside)
  {
    DoSound(m.g, op);
    SecondIsFree(m, op, t);
    hide Sound, Known, LogOf, OpOk, DoGraph, Undo;
    var t1 := UndoLast(t);
    UndoLastIsUndone(t, outside);
    if |LogOf(m.g, op)| == 2 {
      UndoLastIsUndone(t1, outside);
      assert u == UndoActs(UndoLast(t1), 0);
    } else {
      assert u == UndoActs(t1, 0);
    }
  }

  /** An abort that is alive once the newest edit is undone is alive on the way there. */
  lemma AbortsThrough(m: State, op: Op, t: State, u: State, dying: set<Node>)
    requires OpOk(m.g, m.log, op) && t.log == m.log + LogOf(m.g, op) && u == UndoActs(t, |LogOf(m.g, op)|)
    requires Alive(t.refs, dying) && AbortAlive(u, dying)
    ensures AbortAlive(t, dying)
  {
    SecondIsFree(m, op, t);
    hide LogOf, OpOk, Undo;
    var t1 := UndoLast(t);
    if |LogOf(m.g, op)| == 2 {
      assert u == UndoActs(UndoLast(t1), 0);
      assert AbortAlive(t1, dying);
    } else {
      assert u == UndoActs(t1, 0);
    }
  }

  // ----- commit -----

  /** Edges that the transaction removed are detached. */
  predicate RemovedDetached(g: Graph, log: seq<Action>) {
    forall e | Removed(log, e) && e in g.edges :: g.edges[e].bs.None?
  }

  lemma DoKeepsRemoved(s: State, op: Op)
    requires OpOk(s.g, s.log, op) && RemovedDetached(s.g, s.log)
    ensures RemovedDetached(Do(s, op).g, Do(s, op).log)
  {
    var r := Do(s, op);
    forall e | Removed(r.log, e) && e in r.g.edges
      ensures r.g.edges[e].bs.None?
    {
      assert RemoveCommit(e) in s.log || RemoveCommit(e) in LogOf(s.g, op);
    }
  }

  lemma {:induction false} DoAllKeepsRemoved(s: State, ops: seq<Op>)
    requires OpsOk(s, ops) && RemovedDetached(s.g, s.log)
    ensures RemovedDetached(DoAll(s, ops).g, DoAll(s, ops).log)
    decreases |ops|
  {
    if ops != [] {
      DoAllKeepsRemoved(s, ops[..|ops| - 1]);
      DoKeepsRemoved(DoAll(s, ops[..|ops| - 1]), ops[|ops| - 1]);
    }
  }

  /** Freeing a detached edge changes no list and no slot. */
  lemma FreeDetached(g: Graph, e: Edge)
    requires Sound(g) && (e in g.edges ==> g.edges[e].bs.None?)
    ensures var r := g.(edges := g.edges - {e});
            && Sound(r) && Adj(r) == Adj(g)
            && forall n :: Parents(r, n) == Parents(g, n)
  {
    var r := g.(edges := g.edges - {e});
    forall x | x in r.edges
      ensures EdgeSound(r, x)
    {
      assert EdgeSound(g, x);
    }
    forall n | n in r.nodes
      ensures SlotsSound(r, n)
    {
      assert SlotsSound(g, n);
    }
    forall n
      ensures Parents(r, n) == Parents(g, n)
    {
      assert forall x | x in Parents(g, n) :: x in r.edges;
    }
    forall p | p in Adj(g)
      ensures p in Adj(r)
    {
      var x := AdjacentHasEdge(g, p.0, p.1);
      assert x in r.edges && Links(r.edges[x]);
    }
    assert Adj(r) <= Adj(g) by {
      forall p | p in Adj(r)
        ensures p in Adj(g)
      {
        var x := AdjacentHasEdge(r, p.0, p.1);
        assert Links(g.edges[x]);
      }
    }
  }

  /** Commit keeps the graph sound, its relation and its references. */
  lemma {:induction false} CommitKeeps(s: State, outside: multiset<Node>)
    requires Sound(s.g) && RemovedDetached(s.g, s.log) && RefsOk(s, outside)
    ensures var r := Commit(s);
            && Sound(r.g) && Adj(r.g) == Adj(s.g) && RefsOk(r, outside) && r.log == []
            && r.g.nodes == s.g.nodes && r.g.edges.Keys <= s.g.edges.Keys
            && (forall e | e in r.g.edges :: r.g.edges[e] == s.g.edges[e])
            && (forall e | e in s.g.edges && s.g.edges[e].bs.Some? :: e in r.g.edges)
    decreases |s.log|
  {
    if s.log != [] {
      var log, a := Init(s.log), Last(s.log);
      assert s.log == log + [a];
      var t := CommitOne(s.(log := log), a);
      if a.RemoveCommit? {
        assert Removed(s.log, a.e);
        FreeDetached(s.g, a.e);
      }
      forall n | n in t.g.nodes
        ensures RefOk(t, outside, n)
      {
        SavedSnoc(log, a, n);
        assert RefOk(s, outside, n);
        assert Parents(t.g, n) == Parents(s.g, n);
      }
      forall e | Removed(log, e) && e in t.g.edges
        ensures t.g.edges[e].bs.None?
      {
        assert Removed(s.log, e);
      }
      CommitKeeps(t, outside);
    }
  }

  /** Commit drops no reference at once, and schedules only nodes. */
  lemma {:induction false} CommitKeepsKnown(s: State, outside: multiset<Node>)
    requires Known(s, outside)
    ensures Known(Commit(s), outside) && Commit(s).refs == s.refs
    decreases |s.log|
  {
    if s.log != [] {
      var t := CommitOne(s.(log := Init(s.log)), Last(s.log));
      assert SavesKnown(s.g, Last(s.log));
      forall a | a in t.log
        ensures SavesKnown(t.g, a)
      {
        assert SavesKnown(s.g, a);
      }
      CommitKeepsKnown(t, outside);
    }
  }
}
