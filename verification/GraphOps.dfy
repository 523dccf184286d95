/** The operations of block.c that change the block graph, each one transaction: edit,
    refresh the permissions, then commit or roll back.

    Between operations the graph is sound and acyclic, its reference counts are accounted
    for, and no node has parents whose permissions conflict. */
module GraphOps {
  import opened Options
  import opened Reachability
  import opened BlockGraph
  import opened GraphEdit
  import opened Permissions
  import opened GraphSpec
  import opened GraphLinks

  class BlockLayer {
    const d: Drivers
    var s: State
    /** Where the current transaction began, and its edits. */
    ghost var start: State
    ghost var ops: seq<Op>
    /** The references that callers hold, and the nodes that are being deleted. */
    ghost var outside: multiset<Node>
    ghost var dying: set<Node>

    /** No transaction is open. */
    ghost predicate Idle()
      reads this
    {
      s.log == [] && Healthy(s.g) && Counted(s, outside, dying)
    }

    /** A transaction is open. */
    ghost predicate InTran()
      reads this
    {
      && Edited(start, ops, s) && Sound(s.g) && Acyclic(Adj(s.g))
      && Counted(s, outside, dying) && Anchored(start.g, s.sched, outside, dying)
    }

    /** A node with a reference, as callers pass them. */
    ghost predicate Live(n: Node)
      reads this
    {
      n in s.g.nodes && n !in dying
    }

    twostate predicate SameHolders()
      reads this
    {
      outside == old(outside) && dying == old(dying)
    }

    twostate predicate SameTran()
      reads this
    {
      start == old(start) && SameHolders()
    }

    /** The same transaction, with no further edge marked to be freed. */
    twostate predicate QuietTran()
      reads this
    {
      SameTran() && RemovedEdges(s.log) == RemovedEdges(old(s.log))
    }

    /** A block layer without nodes. */
    constructor (d: Drivers)
      ensures Idle() && this.d == d && s.g.nodes == map[] && s.g.edges == map[] && outside == multiset{} && dying == {}
    {
      this.d := d;
      s := State(Graph(map[], map[]), [], map[], multiset{});
      start, ops := State(Graph(map[], map[]), [], map[], multiset{}), [];
      outside, dying := multiset{}, {};
      new;
      assert Adj(s.g) == {};
      EmptyIsAcyclic();
    }

    // ----- nodes and references -----

    /** bdrv_new: a node without links, whose one reference the caller holds. */
    method NewNode(n: Node)
      requires Idle() && n !in s.g.nodes
      modifies this
      ensures Idle() && s.refs == old(s.refs)[n := 1] && s.sched == old(s.sched)
      ensures s.g == Graph(old(s.g.nodes)[n := NodeState(None, None, None)], old(s.g.edges))
      ensures outside == old(outside) + multiset{n} && dying == old(dying) && Live(n)
    {
      WithNodeHealthy(s.g, n);
      WithNodeCounted(s, outside, dying, n);
      s := s.(g := WithNode(s.g, n), refs := s.refs[n := 1]);
      outside := outside + multiset{n};
    }

    /** bdrv_ref */
    method Ref(n: Node)
      requires Idle() && Live(n)
      modifies this
      ensures Idle() && s == old(s).(refs := s.refs) && s.refs == old(s.refs)[n := old(s.refs)[n] + 1]
      ensures outside == old(outside) + multiset{n} && dying == old(dying)
    {
      assert n in s.refs && s.refs[n] > 0;
      hide Counted, Healthy;
      assert dying == dying - {n};
      Recounted(s, outside, outside + multiset{n}, n, 1, dying, dying);
      s := s.(refs := s.refs[n := s.refs[n] + 1]);
      outside := outside + multiset{n};
    }

    /** bdrv_unref: whoever drops the last reference deletes the node. */
    method Unref(n: Node)
      requires Idle() && n in outside
      modifies this
      ensures Idle() && outside == old(outside) - multiset{n} && dying == old(dying)
      ensures n !in s.g.nodes <==> old(s.refs)[n] == 1
      ensures old(s.refs)[n] == 1 <==> old(Parents(s.g, n)) == {} && old(outside)[n] == 1 && n !in old(s.sched)
      ensures if n in s.g.nodes then s.g == old(s.g) else s.g.nodes.Keys == old(s.g.nodes.Keys) - {n}
      ensures n !in s.g.nodes ==> forall e | e in s.g.edges :: s.g.edges[e].bs != Some(n) && !IsChildOf(s.g, e, n)
    {
      hide Counted, Healthy;
      HeldIsLive(s, outside, dying, n);
      LastReference(s, outside, dying, n);
      ghost var last := s.refs[n] == 1;
      assert dying - {n} == dying;
      Recounted(s, outside, outside - multiset{n}, n, -1, dying, if last then dying + {n} else dying);
      s := s.(refs := s.refs[n := s.refs[n] - 1]);
      outside := outside - multiset{n};
      if s.refs[n] == 0 {
        dying := dying + {n};
        Delete(n);
      }
    }

    /** bdrv_schedule_unref, for a reference that a caller holds. */
    method ScheduleUnref(n: Node)
      requires Idle() && n in outside
      modifies this
      ensures Idle() && outside == old(outside) - multiset{n} && dying == old(dying)
      ensures s == old(s).(sched := old(s.sched) + multiset{n})
    {
      hide Counted, Healthy;
      assert s.sched + outside == (s.sched + multiset{n}) + (outside - multiset{n});
      Rebooked(s, outside, s.sched + multiset{n}, outside - multiset{n}, dying);
      s := s.(sched := s.sched + multiset{n});
      outside := outside - multiset{n};
    }

    /** bdrv_schedule_unref_bh: the node is still there; with its last reference it is deleted. */
    method RunUnref(n: Node)
      requires Idle() && n in s.sched
      modifies this
      ensures Idle() && SameHolders() && n in old(s.g.nodes)
      ensures n !in s.g.nodes <==> old(Parents(s.g, n)) == {} && old(s.sched)[n] == 1 && n !in outside
      ensures if n in s.g.nodes then s.g == old(s.g) else s.g.nodes.Keys == old(s.g.nodes.Keys) - {n}
      ensures n !in s.g.nodes ==> forall e | e in s.g.edges :: s.g.edges[e].bs != Some(n) && !IsChildOf(s.g, e, n)
    {
      hide Counted, Healthy;
      HeldIsLive(s, outside, dying, n);
      assert s.sched + outside == (s.sched - multiset{n}) + (outside + multiset{n});
      Rebooked(s, outside, s.sched - multiset{n}, outside + multiset{n}, dying);
      s := s.(sched := s.sched - multiset{n});
      outside := outside + multiset{n};
      Unref(n);
      assert outside == old(outside);
    }

    /** bdrv_close: the driver unfreezes the children, and they are released. */
    method ReleaseChildren(n: Node)
      requires Idle()
      modifies this
      ensures Idle() && SameHolders() && Children(s.g, n) == {} && Released(old(s.g), s.g, n)
    {
      hide Counted, Sound, Acyclic, AllCompatible, Released, Loses, Children, SameShape;
      FlaggedReleases(s.g, n);
      SetFrozen(Children(s.g, n), false);
      ChildrenThawed(old(s.g), s.g, n);
      while Children(s.g, n) != {}
        invariant Idle() && SameHolders() && Released(old(s.g), s.g, n)
        invariant forall e | e in Children(s.g, n) :: IsChildOf(s.g, e, n) && !s.g.edges[e].frozen
        decreases |Children(s.g, n)|
      {
        var e :| e in Children(s.g, n);
        ghost var g := s.g;
        UnrefChild(n, e);
        ReleasedMore(old(s.g), g, s.g, n, e);
        ChildLost(g, s.g, e, n);
      }
    }

    /** bdrv_delete: the children are released and the node is gone. */
    method Delete(n: Node)
      requires Idle() && n in dying
      modifies this
      ensures Idle() && outside == old(outside) && dying == old(dying) - {n}
      ensures s.g.nodes.Keys == old(s.g.nodes.Keys) - {n}
      ensures forall e | e in s.g.edges :: s.g.edges[e].bs != Some(n) && !IsChildOf(s.g, e, n)
      ensures forall e | e in old(s.g).edges && !IsChildOf(old(s.g), e, n) ::
                e in s.g.edges && AsBefore(old(s.g).edges[e], s.g.edges[e])
      ensures forall m | m in s.g.nodes ::
                m in old(s.g).nodes && SlotHolds(old(s.g).nodes[m], s.g.nodes[m], NoSlot, None)
    {
      hide Counted, Healthy, AsBefore, SlotHolds;
      ReleaseChildren(n);
      ReleasedAll(old(s.g), s.g, n);
      DyingIsFree(s, outside, dying, n);
      WithoutNodeHealthy(s.g, n);
      WithoutNodeCounted(s, outside, dying, n);
      assert forall e | e in s.g.edges :: e !in Parents(s.g, n) && e !in Children(s.g, n);
      hide Released;
      s := s.(g := WithoutNode(s.g, n), refs := s.refs - {n});
      dying := dying - {n};
    }

    /** The assignments of bdrv_freeze_backing_chain and bdrv_unfreeze_backing_chain. */
    method SetFrozen(es: set<Edge>, frozen: bool)
      requires Idle()
      modifies this
      ensures Idle() && SameHolders() && s == old(s).(g := Flagged(old(s.g), es, frozen))
      ensures s.g.nodes == old(s.g).nodes && s.g.edges.Keys == old(s.g).edges.Keys
      ensures forall e | e in s.g.edges ::
                s.g.edges[e] == if e in es then old(s.g).edges[e].(frozen := frozen) else old(s.g).edges[e]
    {
      hide Counted, Healthy, Flagged;
      FlaggedHealthy(s.g, es, frozen);
      FlaggedLists(s.g, es, frozen);
      SameCounted(s, Flagged(s.g, es, frozen), outside, dying);
      s := s.(g := Flagged(s.g, es, frozen));
    }

    // ----- transactions -----

    /** tran_new */
    method Begin()
      requires Idle()
      modifies this
      ensures InTran() && s == old(s) && start == old(s) && SameHolders()
    {
      BeginAnchors(s, outside, dying);
      start, ops := s, [];
    }

    /** One edit, recorded in the transaction. */
    method Apply(op: Op)
      requires InTran() && OpOk(s.g, s.log, op) && Acyclic(Adj(DoGraph(s.g, op)))
      requires Target(op).Some? ==> Live(Target(op).value)
      modifies this
      ensures InTran() && s == Do(old(s), op) && SameTran()
      ensures RemovedEdges(s.log) == RemovedEdges(old(s.log)) + Marks(op)
    {
      hide Edited, Counted, Anchored, Sound, Acyclic, RemovedEdges;
      EditedMore(start, ops, s, op);
      OpOkAnyLog(s.g, s.log, op);
      DoSound(s.g, op);
      DoKeepsCounted(s, op, outside, dying);
      RemovedMore(s, op);
      s := Do(s, op);
      ops := ops + [op];
    }

    /** tran_abort: newest first.  No callback drops the last reference to a node. */
    method AbortAll()
      requires InTran()
      modifies this
      ensures Idle() && s.g == old(start.g) && SameHolders()
    {
      AbortKeepsRefs(start, ops, s, outside);
      AbortStaysAlive(start, ops, s, outside, dying);
      hide RefsOk, Known, Sound, Acyclic, AllCompatible, DoAll, OpsOk, Anchored;
      while s.log != []
        invariant Abort(s) == Abort(old(s)) && AbortAlive(s, dying)
        invariant SameTran()
        decreases |s.log|
      {
        s := UndoLast(s);
        assert Alive(s.refs, dying);
      }
    }

    /** tran_commit: newest first. */
    method CommitAll()
      requires InTran() && AllCompatible(s.g)
      modifies this
      ensures Idle() && SameHolders()
      ensures s.g == Freed(old(s.g), RemovedEdges(old(s.log)))
    {
      hide Edited, RefsOk, Known, Sound, Acyclic, AllCompatible, RemovedDetached, RemovedEdges, Anchored;
      EditedFacts(start, ops, s);
      CommitIsHealthy(s, outside);
      CommitKeepsKnown(s, outside);
      CommitGraph(s);
      while s.log != []
        invariant Commit(s) == Commit(old(s))
        invariant SameHolders()
        decreases |s.log|
      {
        s := CommitOne(s.(log := Init(s.log)), Last(s.log));
      }
    }

    /** tran_finalize */
    method Finalize(ok: bool)
      requires InTran() && (ok ==> AllCompatible(s.g))
      modifies this
      ensures Idle() && SameHolders()
      ensures s.g == if ok then Freed(old(s.g), RemovedEdges(old(s.log))) else old(start.g)
    {
      if ok {
        CommitAll();
      } else {
        AbortAll();
      }
    }

    // ----- refreshing permissions -----

    /** bdrv_child_set_perm */
    method SetChildPerm(e: Edge, perm: Perms, shared: Perms)
      requires InTran() && e in s.g.edges
      modifies this
      ensures InTran() && QuietTran()
      ensures s.g == SetEdgePerm(old(s.g), e, perm, shared)
    {
      SameShapeSound(s.g, DoGraph(s.g, SetPerm(e, perm, shared)));
      hide Edited, Counted, Anchored, Acyclic, RemovedEdges, Sound;
      Apply(SetPerm(e, perm, shared));
    }

    /** The loop over the children of n. */
    method SetChildrenPerms(n: Node, perm: Perms, shared: Perms)
      requires InTran()
      modifies this
      ensures InTran() && QuietTran()
      ensures PartlySet(d, old(s.g), s.g, n, perm, shared, {})
    {
      hide InTran, Children, PartlySet, ChildPerm, SetEdgePerm, RemovedEdges;
      var todo := Children(s.g, n);
      ghost var g := s.g;
      SetNoneYet(d, g, n, perm, shared);
      while todo != {}
        invariant todo <= Children(g, n) && PartlySet(d, g, s.g, n, perm, shared, todo)
        invariant InTran() && QuietTran()
        decreases |todo|
      {
        var e :| e in todo;
        SetOneMore(d, g, s.g, n, perm, shared, todo, e);
        var (p, sh) := ChildPerm(d, s.g, n, e, perm, shared);
        SetChildPerm(e, p, sh);
        todo := todo - {e};
      }
    }

    /** bdrv_node_refresh_perm for a node that no two parents disagree on. */
    method RefreshNode(n: Node) returns (ok: bool)
      requires InTran()
      modifies this
      ensures InTran() && QuietTran()
      ensures ok <==> NodeAccepts(d, n, CumPerm(old(s.g), n), CumShared(old(s.g), n))
      ensures ok ==> RefreshedNode(d, old(s.g), s.g, n)
      ensures !ok ==> s.g == old(s.g)
    {
      hide InTran, RemovedEdges;
      var perm, shared := GetCumulativePerm(s.g, n);
      if perm * {WritePerm, WriteUnchanged} != {} {
        if !d.writable(n) {
          return false;
        }
        if Resize !in perm && !d.sizeAligned(n) {
          return false;
        }
      }
      if !d.hasDrv(n) {
        return true;
      }
      if !d.checkPerm(n, perm, shared) {
        return false;
      }
      SetChildrenPerms(n, perm, shared);
      return true;
    }

    /** bdrv_do_refresh_perms: one pass over a sorted list finds the one solution, or there is none. */
    method RefreshList(list: seq<Node>) returns (ok: bool)
      requires InTran() && TopoSorted(s.g, list)
      modifies this
      ensures InTran() && QuietTran()
      ensures ok <==> exists r :: Solution(d, old(s.g), r, Listed(list))
      ensures ok ==> Solution(d, old(s.g), s.g, Listed(list))
      ensures DiffersOnComputed(d, old(s.g), s.g, Listed(list))
    {
      hide InTran, RemovedEdges, TopoSorted, RefreshedNode, Compatible, NodeAccepts;
      ghost var g := s.g;
      var k := 0;
      while k < |list|
        invariant 0 <= k <= |list| && DiffersOnComputed(d, g, s.g, Listed(list)) && TopoSorted(s.g, list)
        invariant forall i | 0 <= i < k :: Done(d, s.g, list[i])
        invariant InTran() && QuietTran()
      {
        ghost var m := s.g;
        var conflict := ParentPermsConflict(s.g, list[k]);
        ok := false;
        if !conflict {
          ok := RefreshNode(list[k]);
        }
        if !ok {
          NoSolution(d, g, m, list, k);
          return;
        }
        PassStep(d, g, m, s.g, list, k);
        k := k + 1;
      }
      ok := true;
      assert Solution(d, g, s.g, Listed(list));
    }

    /** bdrv_refresh_perms and bdrv_list_refresh_perms: the subtrees of the roots. */
    method RefreshPerms(roots: seq<Node>) returns (ok: bool)
      requires InTran() && forall n | n in roots :: n in s.g.nodes
      modifies this
      ensures InTran() && QuietTran()
      ensures ok <==> exists r :: Solution(d, old(s.g), r, Subtrees(old(s.g), roots))
      ensures ok ==> Solution(d, old(s.g), s.g, Subtrees(old(s.g), roots))
      ensures DiffersOnComputed(d, old(s.g), s.g, Subtrees(old(s.g), roots))
    {
      hide Edited, Counted, Anchored, RemovedEdges, Sound, Acyclic, TopoSorted, Solution, DiffersOnComputed, Subtrees;
      var list := SortSubtrees(s.g, roots);
      ListedIsSubtrees(s.g, roots, list);
      ok := RefreshList(list);
    }

    // ----- edits without permission update -----

    /** bdrv_replace_node_noperm */
    method ReplaceNodeNoperm(from: Node, to: Node, autoSkip: bool) returns (ok: bool)
      requires InTran() && from != to && Live(to) && RemovedEdges(s.log) !! Parents(s.g, from)
      modifies this
      ensures InTran() && QuietTran()
      ensures ok <==> MayRedirect(old(s.g), from, to, autoSkip)
      ensures ok ==> s.g == Redirected(old(s.g), from, to)
    {
      hide Edited, Counted, Anchored, Sound, Acyclic, RemovedEdges, InSubtree, RedirectedBut, SetBs;
      ghost var g := s.g;
      var todo := Parents(s.g, from);
      RedirectNone(g, from, to);
      while todo != {}
        invariant todo <= Parents(g, from) && s.g == RedirectedBut(g, from, to, todo)
        invariant forall c | c in Parents(g, from) - todo :: if Movable(g, c, to) then !g.edges[c].frozen else autoSkip
        invariant InTran() && QuietTran()
        decreases |todo|
      {
        var c :| c in todo;
        MovableStable(g, from, to, todo, c);
        var update := ShouldUpdateChild(s.g, c, to);
        if !update {
          if !autoSkip {
            return false;
          }
          RedirectSkip(g, from, to, todo, c);
        } else {
          if s.g.edges[c].frozen {
            return false;
          }
          RedirectOne(g, from, to, todo, c);
          RemovedBy(s.log, c);
          Apply(Replace(c, Some(to)));
        }
        todo := todo - {c};
      }
      return true;
    }

    /** bdrv_attach_child_noperm; ctxOk says whether the two sides are in one AioContext or one
        of them could be moved to that of the other. */
    method AttachChildNoperm(e: Edge, parent: Node, child: Node, slot: Slot, ctxOk: bool) returns (ok: bool)
      requires InTran() && d.hasDrv(parent) && parent in s.g.nodes && Live(child)
      requires e !in s.g.edges && e !in RemovedEdges(s.log) && SlotFree(s.g, NewChild(d, s.g, parent, child, slot))
      modifies this
      ensures InTran() && QuietTran()
      ensures ok <==> !Reach(Adj(old(s.g)), child, parent) && ctxOk
      ensures s.g == if ok then Attached(d, old(s.g), e, parent, child, slot) else old(s.g)
      ensures ok ==> && e in s.g.edges && s.g.edges == old(s.g).edges[e := s.g.edges[e]]
                     && Joins(s.g.edges[e], parent, child) && s.g.edges[e].slot == slot
                     && OnlySlot(old(s.g), s.g, parent, slot, Some(e))
                     && forall perm, shared | Demands(old(s.g), parent, perm, shared) ::
                          Granted(d, parent, None, s.g.edges[e], perm, shared)
    {
      hide Edited, Counted, Anchored, Sound, Acyclic, RemovedEdges, SlotFree, CumPerm, CumShared, SetBs;
      var loops := HasChild(s.g, child, parent);
      if loops {
        return false;
      }
      var perm, shared := GetCumulativePerm(s.g, parent);
      var (p, sh) := d.childPerm(parent, None, slot, perm, shared);
      var st := EdgeState(Bds(parent), slot, false, false, None, p, if d.forceShare(child) then PERM_ALL else sh);
      if !ctxOk {
        return false;
      }
      AttachAcyclic(s.g, e, st, child);
      RemovedBy(s.log, e);
      Apply(Attach(e, st, child));
      AttachedFields(d, old(s.g), e, parent, child, slot);
      forall p, q | Demands(old(s.g), parent, p, q)
        ensures Granted(d, parent, None, s.g.edges[e], p, q)
      {
        AttachedGrants(d, old(s.g), e, parent, child, slot, p, q);
      }
      return true;
    }

    /** bdrv_remove_child */
    method RemoveChild(e: Edge)
      requires InTran() && e in s.g.edges && e !in RemovedEdges(s.log) && !s.g.edges[e].frozen
      modifies this
      ensures InTran() && SameTran()
      ensures s.g == Dropped(old(s.g), Some(e)) && RemovedEdges(s.log) == RemovedEdges(old(s.log)) + {e}
      ensures e in s.g.edges && s.g.edges[e].bs.None? && Loses(old(s.g), Freed(s.g, {e}), e)
    {
      hide Edited, Counted, Anchored, Sound, Acyclic, RemovedEdges, SetBs;
      DroppedFields(s.g, e);
      hide Loses;
      SetBsAcyclic(s.g, e, None);
      RemovedBy(s.log, e);
      Apply(Remove(e));
    }

    /** bdrv_set_inherits_from */
    method SetInheritsFrom(n: Node, from: Option<Node>)
      requires InTran() && n in s.g.nodes
      modifies this
      ensures InTran() && QuietTran()
      ensures s.g == DoGraph(old(s.g), SetInherits(n, from))
      ensures s.g == Graph(old(s.g).nodes[n := old(s.g).nodes[n].(inheritsFrom := from)], old(s.g).edges)
    {
      hide Edited, Counted, Anchored, Acyclic, RemovedEdges;
      SameShapeSound(s.g, DoGraph(s.g, SetInherits(n, from)));
      Apply(SetInherits(n, from));
    }

    /** The first half of bdrv_unset_inherits_from: the node right below child. */
    method UnsetOwn(root: Node, child: Edge)
      requires InTran() && child in s.g.edges && s.g.edges[child].bs.Some?
      modifies this
      ensures InTran() && QuietTran()
      ensures s.g == Disowned(old(s.g), Heirs(old(s.g), root, child) * {old(s.g).edges[child].bs.value})
    {
      hide Edited, Counted, Anchored, RemovedEdges, Heirs, Sound, Acyclic, OtherLink, Disowned, DoGraph;
      EndKnown(s.g, child);
      ghost var g := s.g;
      var b := s.g.edges[child].bs.value;
      OwnHeir(g, root, child);
      var other := HasOtherLink(s.g, root, child, b);
      DisownOne(g, b);
      if s.g.nodes[b].inheritsFrom == Some(root) && !other {
        assert Heirs(g, root, child) * {b} == {b};
        SetInheritsFrom(b, None);
      } else {
        assert Heirs(g, root, child) * {b} == {};
      }
    }

    /** bdrv_unset_inherits_from clears exactly the heirs of root below child. */
    method UnsetInheritsFrom(root: Node, child: Edge)
      requires InTran() && child in s.g.edges && s.g.edges[child].bs.Some?
      requires Below(Adj(s.g), root, s.g.edges[child].bs.value)
      modifies this
      ensures InTran() && QuietTran()
      ensures s.g == Disowned(old(s.g), Heirs(old(s.g), root, child))
      decreases ReachSet(Adj(s.g), s.g.edges[child].bs.value)
    {
      hide Edited, Counted, Anchored, RemovedEdges, Heirs, Sound, OtherLink;
      var b := s.g.edges[child].bs.value;
      ghost var g, ns := s.g, Heirs(s.g, root, child) * {b};
      UnsetOwn(root, child);
      var todo := Children(s.g, b);
      while todo != {}
        invariant todo <= Children(g, b) && s.g == Disowned(g, ns) && ns <= Heirs(g, root, child)
        invariant b in Heirs(g, root, child) ==> b in ns
        invariant forall n, c | n in Heirs(g, root, child) && c in Children(g, b) - todo &&
                                Reach(Adj(g), g.edges[c].bs.value, n) :: n in ns
        invariant InTran() && QuietTran()
        decreases |todo|
      {
        var c :| c in todo;
        HeirsBelow(g, root, child, c);
        DisownMore(g, root, ns, c);
        DisownedAdj(g, ns);
        UnsetInheritsFrom(root, c);
        ns := ns + Heirs(g, root, c);
        todo := todo - {c};
      }
      HeirsAre(g, root, child, ns);
    }

    /** The first half of bdrv_set_file_or_backing_noperm: take out the old child. */
    method UnsetChild(parent: Node, was: Edge)
      requires InTran() && IsChildOf(s.g, was, parent) && !s.g.edges[was].frozen
      modifies this
      ensures InTran() && SameTran()
      ensures s.g == Unset(old(s.g), parent, Some(was)) && RemovedEdges(s.log) == RemovedEdges(old(s.log)) + {was}
    {
      hide Edited, Counted, Anchored, Sound, Acyclic, RemovedEdges, Dropped, Heirs;
      ghost var g := s.g;
      ChildIsAdjacent(g, was, parent);
      ReachEdge(Adj(g), parent, g.edges[was].bs.value);
      EditedFacts(start, ops, s);
      RemovedBy(s.log, was);
      UnsetInheritsFrom(parent, was);
      RemoveChild(was);
    }

    /** bdrv_set_file_or_backing_noperm.  A filter must have no child in the other slot, as
        bdrv_child_cb_attach asserts. */
    method SetFileOrBackingNoperm(e: Edge, parent: Node, child: Option<Node>, isBacking: bool, inherit: bool,
        ctxOk: bool)
        returns (ok: bool)
      requires InTran() && parent in s.g.nodes && (child.Some? ==> Live(child.value))
      requires e !in s.g.edges && e !in RemovedEdges(s.log)
      requires d.isFilter(parent) && child.Some? ==> SlotEdge(s.g, parent, !isBacking).None?
      modifies this
      ensures InTran() && SameTran()
      ensures var was := SlotEdge(old(s.g), parent, isBacking);
              && (was.Some? ==> was.value in old(s.g).edges && old(s.g).edges[was.value].bs.Some?)
              && var u := Unset(old(s.g), parent, was);
              && (ok <==> && MayRefill(d, old(s.g), parent, isBacking)
                          && (child.Some? ==> !Reach(Adj(u), child.value, parent) && ctxOk))
              && (ok ==> && s.g == Refilled(d, u, e, parent, child, SlotOf(d, parent, isBacking), inherit)
                         && RemovedEdges(s.log) == RemovedEdges(old(s.log)) + EdgeSet(was)
                         && ChildSet(d, old(s.g), s.g, e, parent, child, isBacking, inherit)
                         && (was.Some? ==> was.value in s.g.edges && s.g.edges[was.value].bs.None?))
    {
      hide Edited, Counted, Anchored, Sound, Acyclic, RemovedEdges, Unset, Attached;
      hide ChildSet, Joins, OnlySlot, SlotHolds, Granted, Demands, Loses;
      ghost var g := s.g;
      ChildSetFields(d, g, e, parent, child, isBacking, inherit);
      SlotEdgeIsChild(g, parent, isBacking);
      var was := SlotEdge(s.g, parent, isBacking);
      UnsetKeys(g, parent, was);
      if !d.hasDrv(parent) {
        return false;
      }
      if was.Some? && s.g.edges[was.value].frozen {
        return false;
      }
      if isBacking && !d.isFilter(parent) && !d.supportsBacking(parent) {
        return false;
      }
      if !d.isFilter(parent) && !isBacking && was.None? {
        return false;
      }
      UnsetFrees(g, parent, isBacking);
      if was.Some? {
        UnsetChild(parent, was.value);
      } else {
        UnsetNothing(g, parent);
      }
      if child.None? {
        return true;
      }
      ok := AttachChildNoperm(e, parent, child.value, SlotOf(d, parent, isBacking), ctxOk);
      if ok && inherit {
        AttachedEdges(d, Unset(g, parent, was), e, parent, child.value, SlotOf(d, parent, isBacking));
        SetInheritsFrom(child.value, Some(parent));
      }
    }

    /** How every operation ends: if the edits were possible the permissions of the subtrees that
        gained parents are refreshed, and the transaction is committed or rolled back. */
    method Conclude(edited: bool, roots: seq<Node>) returns (ok: bool)
      requires InTran()
      requires edited ==> (forall n | n in roots :: n in s.g.nodes) && SameOutside(start.g, s.g, Subtrees(s.g, roots))
      modifies this
      ensures Idle() && SameHolders()
      ensures ok <==> edited && exists x :: Solution(d, old(s.g), x, Subtrees(old(s.g), roots))
      ensures ok ==> exists x :: Solution(d, old(s.g), x, Subtrees(old(s.g), roots)) &&
                                 s.g == Freed(x, RemovedEdges(old(s.log)))
      ensures ok && RemovedEdges(old(s.log)) == {} ==> Solution(d, old(s.g), s.g, Subtrees(old(s.g), roots))
      ensures !ok ==> s.g == old(start.g)
    {
      assert AllCompatible(start.g);
      hide Edited, Counted, Anchored, Sound, Acyclic, RemovedEdges, Solution, Subtrees;
      hide SameOutside, DiffersOnComputed, AllCompatible, Compatible;
      ok := edited;
      if ok {
        ok := RefreshPerms(roots);
      }
      if ok {
        RefreshedIsCompatible(d, start.g, old(s.g), s.g, roots);
        FreedNone(s.g);
      }
      Finalize(ok);
    }

    // ----- whole operations -----

    /** bdrv_append */
    method Append(e: Edge, bsNew: Node, bsTop: Node, ctxOk: bool) returns (ok: bool)
      requires Idle() && d.hasDrv(bsNew) && Live(bsNew) && Live(bsTop) && e !in s.g.edges
      requires s.g.nodes[bsNew].backing.None? && (d.isFilter(bsNew) ==> s.g.nodes[bsNew].file.None?)
      modifies this
      ensures Idle() && SameHolders()
      ensures var a := Attached(d, old(s.g), e, bsNew, bsTop, SlotOf(d, bsNew, true));
              var r := Redirected(a, bsTop, bsNew);
              && (ok <==> && !Reach(Adj(old(s.g)), bsTop, bsNew) && ctxOk
                          && MayRedirect(a, bsTop, bsNew, true)
                          && exists x :: Solution(d, r, x, Subtrees(r, [bsNew])))
              && (ok ==> Solution(d, r, s.g, Subtrees(r, [bsNew])))
      ensures ok ==> OnTop(d, old(s.g), s.g, e, bsNew, bsTop)
      ensures !ok ==> s.g == old(s.g)
    {
      hide OnTop, Joins, OnlySlot, Granted, Demands;
      hide Edited, Counted, Anchored, Sound, Acyclic, RemovedEdges, SlotFree, Solution, Subtrees, MayRedirect;
      hide Redirected, Attached, NewChild, SameOutside, DiffersOnComputed, AllCompatible, Compatible, SlotOf;
      var slot := SlotOf(d, bsNew, true);
      AppendSlotFree(d, s.g, bsNew, bsTop);
      NothingRemoved();
      Begin();
      ghost var g := s.g;
      ok := AttachChildNoperm(e, bsNew, bsTop, slot, ctxOk);
      if ok {
        ReachSelf(Adj(g), bsNew);
        AttachedEdges(d, g, e, bsNew, bsTop, slot);
        RedirectedEdges(s.g, bsTop, bsNew, e);
        ok := ReplaceNodeNoperm(bsTop, bsNew, true);
      }
      AppendOutside(d, g, e, bsNew, bsTop, slot);
      ok := Conclude(ok, [bsNew]);
      if ok {
        AppendFields(d, g, e, bsNew, bsTop, s.g);
      }
    }

    /** bdrv_attach_child: the caller's reference to child goes to the parent, or is dropped. */
    method AttachChild(e: Edge, parent: Node, child: Node, slot: Slot, ctxOk: bool) returns (ok: bool)
      requires Idle() && d.hasDrv(parent) && parent in s.g.nodes && child in outside
      requires e !in s.g.edges && SlotFree(s.g, NewChild(d, s.g, parent, child, slot))
      modifies this
      ensures Idle() && outside == old(outside) - multiset{child} && dying == old(dying)
      ensures var r := Attached(d, old(s.g), e, parent, child, slot);
              && (ok <==> && !Reach(Adj(old(s.g)), child, parent) && ctxOk
                          && exists x :: Solution(d, r, x, Subtrees(r, [parent])))
              && (ok ==> Solution(d, r, s.g, Subtrees(r, [parent])))
      ensures ok ==> && Gains(old(s.g), s.g, e) && Joins(s.g.edges[e], parent, child) && s.g.edges[e].slot == slot
                     && OnlySlot(old(s.g), s.g, parent, slot, Some(e))
      ensures !ok ==> s.g == old(s.g)
    {
      hide Edited, Counted, Anchored, Sound, Acyclic, RemovedEdges, SlotFree, Solution, Subtrees, Attached;
      hide NewChild, SameOutside, DiffersOnComputed, AllCompatible, Compatible, OnlySlot, Granted, Demands;
      HeldIsLive(s, outside, dying, child);
      NothingRemoved();
      Begin();
      ghost var g := s.g;
      ok := AttachChildNoperm(e, parent, child, slot, ctxOk);
      AttachedEdges(d, g, e, parent, child, slot);
      AttachOutside(d, g, e, parent, child, slot);
      ok := Conclude(ok, [parent]);
      if ok {
        AttachStays(d, g, s.g, e, parent, child, slot);
      }
      ScheduleUnref(child);
    }

    /** bdrv_root_attach_child: an edge of a BlockBackend, a job or an export. */
    method RootAttachChild(e: Edge, child: Node, stayAtNode: bool, perm: Perms, shared: Perms, ctxOk: bool)
        returns (ok: bool)
      requires Idle() && child in outside && e !in s.g.edges
      modifies this
      ensures Idle() && outside == old(outside) - multiset{child} && dying == old(dying)
      ensures var r := DoGraph(old(s.g), Attach(e, RootEdge(stayAtNode, perm, shared), child));
              && (ok <==> ctxOk && exists x :: Solution(d, r, x, Subtrees(r, [child])))
              && (ok ==> Solution(d, r, s.g, Subtrees(r, [child])))
      ensures ok ==> && Gains(old(s.g), s.g, e) && s.g.nodes == old(s.g).nodes
                     && s.g.edges[e] == EdgeState(Outside, NoSlot, stayAtNode, false, Some(child), perm, shared)
      ensures !ok ==> s.g == old(s.g)
    {
      hide Edited, Counted, Anchored, Sound, Acyclic, RemovedEdges, Solution, Subtrees, SetBs;
      hide SameOutside, DiffersOnComputed, AllCompatible, Compatible;
      HeldIsLive(s, outside, dying, child);
      NothingRemoved();
      Begin();
      ghost var g := s.g;
      if ctxOk {
        AttachAcyclic(g, e, RootEdge(stayAtNode, perm, shared), child);
        RemovedBy(s.log, e);
        Apply(Attach(e, RootEdge(stayAtNode, perm, shared), child));
        assert RemovedEdges(s.log) == {};
        RootOutside(g, e, RootEdge(stayAtNode, perm, shared), child);
      }
      ok := Conclude(ctxOk, [child]);
      if ok {
        RootStays(d, g, s.g, e, child, stayAtNode, perm, shared);
      }
      ScheduleUnref(child);
    }

    /** The link that bdrv_replace_node_common removes, if any. */
    method DetachedLink(from: Node, to: Node, detach: bool, ghost chain: seq<Edge>) returns (drop: Option<Edge>)
      requires Idle() && (detach ==> chain != [] && CowChain(d, s.g, from, chain, to))
      ensures drop == if detach then Some(chain[|chain| - 1]) else None
      ensures drop.Some? ==> drop.value in s.g.edges
    {
      hide Counted, Sound, Acyclic, AllCompatible, CowChain;
      if !detach {
        return None;
      }
      var link := FindCowLink(d, s.g, from, to, chain);
      return Some(link);
    }

    /** bdrv_replace_node_common.  With detach, to is further down the chain of from, and its
        link in that chain is removed. */
    method ReplaceNode(from: Node, to: Node, autoSkip: bool, detach: bool, ghost chain: seq<Edge>) returns (ok: bool)
      requires Idle() && from != to && from in s.g.nodes && Live(to)
      requires detach ==> && chain != [] && CowChain(d, s.g, from, chain, to)
                          && chain[|chain| - 1] in s.g.edges && !s.g.edges[chain[|chain| - 1]].frozen
      modifies this
      ensures Idle() && SameHolders()
      ensures var drop := if detach then Some(chain[|chain| - 1]) else None;
              var r := Dropped(Redirected(old(s.g), from, to), drop);
              && (ok <==> && MayRedirect(old(s.g), from, to, autoSkip)
                          && exists x :: Solution(d, r, x, Subtrees(r, [from, to])))
              && (ok ==> exists x :: Solution(d, r, x, Subtrees(r, [from, to])) && s.g == Freed(x, EdgeSet(drop)))
              && (ok ==> Replaced(old(s.g), s.g, from, to, drop))
      ensures !ok ==> s.g == old(s.g)
    {
      hide Replaced;
      hide Edited, Counted, Anchored, Sound, Acyclic, RemovedEdges, Solution, Subtrees, MayRedirect, Redirected,
           Dropped;
      hide SameOutside, DiffersOnComputed, AllCompatible, Compatible, CowChain, Parents, Adj, Loses;
      var drop := DetachedLink(from, to, detach, chain);
      NothingRemoved();
      Begin();
      ghost var g := s.g;
      RedirectedKeys(g, from, to);
      DroppedKeys(Redirected(g, from, to), drop);
      ok := ReplaceNodeNoperm(from, to, autoSkip);
      assert ok ==> Sound(Redirected(g, from, to));
      if ok {
        if drop.Some? {
          RemoveChild(drop.value);
        } else {
          DropNone(s.g);
        }
        ReplaceOutside(g, from, to, drop, [from, to], 1);
      }
      ghost var r := s.g;
      ok := Conclude(ok, [from, to]);
      if ok {
        ghost var x :| Solution(d, r, x, Subtrees(r, [from, to])) && s.g == Freed(x, EdgeSet(drop));
        ReplaceFields(d, g, x, from, to, drop, Subtrees(r, [from, to]));
      }
    }

    /** bdrv_set_backing_hd_drained; inherit says whether child inherits, over any number of
        steps, from parent. */
    method SetBackingHd(e: Edge, parent: Node, child: Option<Node>, inherit: bool, ctxOk: bool) returns (ok: bool)
      requires Idle() && parent in s.g.nodes && (child.Some? ==> Live(child.value)) && e !in s.g.edges
      requires d.isFilter(parent) && child.Some? ==> SlotEdge(s.g, parent, false).None?
      modifies this
      ensures Idle() && SameHolders()
      ensures var was := SlotEdge(old(s.g), parent, true);
              && (was.Some? ==> was.value in old(s.g).edges && old(s.g).edges[was.value].bs.Some?)
              && var u := Unset(old(s.g), parent, was);
              var r := Refilled(d, u, e, parent, child, SlotOf(d, parent, true), inherit);
              && (ok <==> && MayRefill(d, old(s.g), parent, true)
                          && (child.Some? ==> !Reach(Adj(u), child.value, parent) && ctxOk)
                          && exists x :: Solution(d, r, x, Subtrees(r, [parent])))
              && (ok ==> exists x :: Solution(d, r, x, Subtrees(r, [parent])) && s.g == Freed(x, EdgeSet(was)))
              && (ok ==> && ChildSet(d, old(s.g), s.g, e, parent, child, true, inherit)
                         && (was.Some? ==> was.value !in s.g.edges))
      ensures !ok ==> s.g == old(s.g)
    {
      hide ChildSet, Joins, Granted, Demands, Loses;
      hide Edited, Counted, Anchored, Sound, Acyclic, RemovedEdges, Solution, Subtrees, Refilled, Unset, MayRefill;
      hide SameOutside, DiffersOnComputed, AllCompatible, Compatible, SlotOf, SlotEdge, Reach, Adj;
      NothingRemoved();
      Begin();
      ghost var g := s.g;
      ghost var was := SlotEdge(g, parent, true);
      ghost var slot := SlotOf(d, parent, true);
      ok := SetFileOrBackingNoperm(e, parent, child, true, inherit, ctxOk);
      UnsetKeys(g, parent, was);
      RefilledKeys(d, Unset(g, parent, was), e, parent, child, slot, inherit);
      RefillOutside(d, g, e, parent, child, slot, inherit, was);
      assert RemovedEdges([]) + EdgeSet(was) == EdgeSet(was);
      FreedIsGone(was);
      assert was != Some(e);
      hide EdgeSet, Freed;
      ghost var r := s.g;
      ok := Conclude(ok, [parent]);
      if ok {
        ghost var x :| Solution(d, r, x, Subtrees(r, [parent])) && s.g == Freed(x, EdgeSet(was));
        ChildSetStays(d, g, r, x, e, parent, child, true, inherit, Subtrees(r, [parent]));
      }
    }

    /** bdrv_child_try_set_perm: a request that only loosens never fails, though it may be ignored. */
    method ChildTrySetPerm(e: Edge, perm: Perms, shared: Perms) returns (ret: bool)
      requires Idle() && e in s.g.edges && s.g.edges[e].bs.Some?
      modifies this
      ensures Idle() && SameHolders()
      ensures var r := SetEdgePerm(old(s.g), e, perm, shared);
              var roots := [old(s.g).edges[e].bs.value];
              var loosens := perm <= old(s.g).edges[e].perm && old(s.g).edges[e].shared <= shared;
              && (ret <==> loosens || exists x :: Solution(d, r, x, Subtrees(r, roots)))
              && if exists x :: Solution(d, r, x, Subtrees(r, roots)) then Solution(d, r, s.g, Subtrees(r, roots))
                 else s.g == old(s.g)
      ensures var r := SetEdgePerm(old(s.g), e, perm, shared);
              && s.g.edges.Keys == old(s.g).edges.Keys && s.g.nodes == old(s.g).nodes
              && ((exists x :: Solution(d, r, x, Subtrees(r, [old(s.g).edges[e].bs.value]))) ==>
                    s.g.edges[e] == old(s.g).edges[e].(perm := perm, shared := shared))
    {
      hide Edited, Counted, Anchored, Acyclic, RemovedEdges, Solution, Subtrees;
      hide SameOutside, DiffersOnComputed, AllCompatible, Compatible;
      NothingRemoved();
      Begin();
      ghost var g := s.g;
      assert EdgeSound(g, e);
      var bs := s.g.edges[e].bs.value;
      SetChildPerm(e, perm, shared);
      PermOutside(g, e, perm, shared);
      ret := Conclude(true, [bs]);
      if ret {
        AskedStays(d, g, s.g, e, perm, shared);
      }
      if !ret {
        SubsetByDifference(perm, s.g.edges[e].perm);
        SubsetByDifference(s.g.edges[e].shared, shared);
        if !(perm - s.g.edges[e].perm != {} || s.g.edges[e].shared - shared != {}) {
          ret := true;
        }
      }
    }

    /** bdrv_refresh_perms without a transaction: refresh below n if that is possible. */
    method TryRefresh(n: Node)
      requires Idle() && n in s.g.nodes
      modifies this
      ensures Idle() && SameHolders() && SameShape(old(s.g), s.g)
      ensures var ns := Subtrees(old(s.g), [n]);
              if exists x :: Solution(d, old(s.g), x, ns) then Solution(d, old(s.g), s.g, ns) else s.g == old(s.g)
    {
      hide Edited, Counted, Anchored, Acyclic, Sound, RemovedEdges, Solution, Subtrees;
      hide DiffersOnComputed, AllCompatible, Compatible;
      ghost var r := s.g;
      NothingRemoved();
      Begin();
      var ok := RefreshPerms([n]);
      if ok {
        SolutionShape(d, r, s.g, Subtrees(r, [n]));
        RefreshOnly(r, Subtrees(r, [n]));
        RefreshedIsCompatible(d, r, r, s.g, [n]);
        FreedNone(s.g);
      }
      Finalize(ok);
    }

    /** bdrv_root_unref_child: the edge goes, its reference is dropped later, and permissions
        are refreshed if they can be. */
    method RootUnrefChild(e: Edge)
      requires Idle() && e in s.g.edges && !s.g.edges[e].frozen
      modifies this
      ensures Idle() && SameHolders()
      ensures var r := Without(old(s.g), e);
              && SameShape(r, s.g)
              && (old(s.g).edges[e].bs.Some? ==>
                    var ns := Subtrees(r, [old(s.g).edges[e].bs.value]);
                    if exists x :: Solution(d, r, x, ns) then Solution(d, r, s.g, ns) else s.g == r)
              && (old(s.g).edges[e].bs.None? ==> s.g == r)
      ensures Loses(old(s.g), s.g, e)
      ensures forall n | n in s.g.nodes ::
                n in old(s.g).nodes && s.g.nodes[n].inheritsFrom == old(s.g).nodes[n].inheritsFrom
    {
      hide Counted, Acyclic, Sound, Solution, Subtrees, Without, Loses, AllCompatible, Compatible;
      var bs := s.g.edges[e].bs;
      WithoutFields(s.g, e);
      WithoutHealthy(s.g, e);
      WithoutCounted(s, outside, dying, e);
      WithoutKeys(s.g, e);
      if bs.Some? {
        EndKnown(s.g, e);
      }
      s := s.(g := Without(s.g, e));
      ghost var r := s.g;
      if bs.Some? {
        outside := outside + multiset{bs.value};
        TryRefresh(bs.value);
        ScheduleUnref(bs.value);
        assert outside == old(outside);
      } else {
        assert outside + multiset{} == outside;
        assert SameShape(r, s.g);
      }
      LosesThenRefreshed(old(s.g), r, s.g, e);
    }

    /** bdrv_unref_child: the heirs of the parent below the edge are disowned, and the edge goes. */
    method UnrefChild(parent: Node, e: Edge)
      requires Idle() && IsChildOf(s.g, e, parent) && !s.g.edges[e].frozen
      modifies this
      ensures Idle() && SameHolders()
      ensures SameShape(Without(Disowned(old(s.g), Heirs(old(s.g), parent, e)), e), s.g)
      ensures Loses(old(s.g), s.g, e) && Heritage(old(s.g), s.g, parent, Some(e), None, false)
    {
      hide Edited, Counted, Anchored, Sound, Acyclic, RemovedEdges, Without, Heirs, Compatible, Disowned, Loses;
      hide LosesHeritage, Heritage;
      ghost var g := s.g;
      DisownedHeritage(g, parent, e);
      ChildIsAdjacent(g, e, parent);
      ReachEdge(Adj(g), parent, g.edges[e].bs.value);
      NothingRemoved();
      Begin();
      UnsetInheritsFrom(parent, e);
      DisownedLists(g, Heirs(g, parent, e));
      FreedNone(s.g);
      CommitAll();
      ghost var m := s.g;
      RootUnrefChild(e);
      LosesAfterDisowned(g, m, s.g, e);
      HeritageStays(g, m, s.g, parent, e);
    }
  }
}
