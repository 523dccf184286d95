/** bdrv_try_change_aio_context and its recursion, with the callbacks of jobs and of
    BlockBackends, as methods that update the visited set, the transaction and the drain
    counters in place. */
module AioMover {
  import opened Reachability
  import opened BlockGraph
  import opened AioContext

  class Mover {
    const g: AioGraph
    var ctx: Contexts
    var quiesce: Counters
    var visited: set<Edge>
    var log: seq<Node>

    /** A graph that nobody drains, with every vertex in its AioContext. */
    constructor (g: AioGraph, ctx: Contexts)
      ensures this.g == g && this.ctx == ctx && quiesce.Keys == g.kinds.Keys
    {
      this.g, this.ctx := g, ctx;
      quiesce := map v | v in g.kinds :: 0;
      visited, log := {}, [];
    }

    /** The state of a walk from root, with the vertices in open unfinished. */
    ghost predicate Walk(root: Node, skip: set<Edge>, q0: Counters, open: set<Node>)
      reads this
    {
      && WellFormed(g) && SameCtx(g, skip, ctx) && root in ctx
      && Walked(g, skip, visited, Vertices(log), open) && Found(g, skip, root, Vertices(log))
      && Drained(g, q0, log, quiesce)
    }

    /** Add v to the transaction; a node is drained until the transaction is over. */
    method Record(v: Node, ghost root: Node, ghost skip: set<Edge>, ghost q0: Counters, ghost open: set<Node>)
      requires Walk(root, skip, q0, open + {v}) && v in g.kinds && !Refuses(g.kinds[v])
               && Reach(Joined(g, skip), root, v)
      requires forall e | e in g.edges && Touches(g.edges[e], v) :: e in visited
      modifies `log, `quiesce
      ensures Walk(root, skip, q0, open) && v in Vertices(log) && Vertices(old(log)) <= Vertices(log)
    {
      RecordOne(g, skip, root, visited, log, open, v);
      DrainOne(g, q0, log, quiesce, v);
      assert v in quiesce;
      hide Joined, SameCtx, WellFormed, Walked, Found, Reach, Refuses, Vertices, Drained;
      if g.kinds[v].Bs? {
        quiesce := quiesce[v := quiesce[v] + 1];
      }
      log := log + [v];
    }

    /** bdrv_change_aio_context */
    method Change(bs: Node, to: Ctx, ghost root: Node, ghost skip: set<Edge>, ghost q0: Counters, ghost open: set<Node>)
        returns (ok: bool)
      requires Walk(root, skip, q0, open + {bs}) && bs in g.kinds && g.kinds[bs].Bs? && Reach(Joined(g, skip), root, bs)
      modifies `visited, `log, `quiesce
      ensures old(visited) <= visited && Drained(g, q0, log, quiesce)
      ensures Vertices(old(log)) <= Vertices(log)
      ensures ok && ctx[root] != to ==> Walk(root, skip, q0, open) && bs in Vertices(log)
      ensures ctx[root] == to ==> ok && log == old(log) && quiesce == old(quiesce)
      ensures !ok ==> SomeRefuses(g, skip, root)
      decreases g.edges.Keys - visited, 3
    {
      ConnectedKeepsCtx(g, skip, ctx, root, bs);
      if ctx[bs] == to {
        return true;
      }
      hide Joined, SameCtx, WellFormed, Walked, Found, Drained, Refuses, Reach, SomeRefuses, Vertices;
      ok := ChangeParents(bs, to, root, skip, q0, open + {bs});
      if !ok {
        return;
      }
      ok := ChangeChildren(bs, to, root, skip, q0, open + {bs});
      if !ok {
        return;
      }
      BsMoves(g.kinds[bs]);
      Record(bs, root, skip, q0, open);
      return true;
    }

    /** The loop over the parents of v. */
    method ChangeParents(v: Node, to: Ctx, ghost root: Node, ghost skip: set<Edge>, ghost q0: Counters,
        ghost open: set<Node>)
        returns (ok: bool)
      requires Walk(root, skip, q0, open) && ctx[root] != to && v in open && Reach(Joined(g, skip), root, v)
      modifies `visited, `log, `quiesce
      ensures old(visited) <= visited && Drained(g, q0, log, quiesce) && Vertices(old(log)) <= Vertices(log)
      ensures ok ==> Walk(root, skip, q0, open) && forall c | c in g.edges && g.edges[c].bottom == v :: c in visited
      ensures !ok ==> SomeRefuses(g, skip, root)
      decreases g.edges.Keys - visited, 2
    {
      hide Joined, SameCtx, WellFormed, Walked, Found, Drained, Refuses, Reach, SomeRefuses, Vertices;
      var todo := set c | c in g.edges && g.edges[c].bottom == v;
      while todo != {}
        invariant todo <= g.edges.Keys && forall c | c in todo :: g.edges[c].bottom == v
        invariant forall c | c in g.edges && g.edges[c].bottom == v && c !in todo :: c in visited
        invariant Walk(root, skip, q0, open) && old(visited) <= visited && Vertices(old(log)) <= Vertices(log)
        decreases |todo|
      {
        var c :| c in todo;
        ok := ParentChange(c, to, root, skip, q0, open);
        if !ok {
          return;
        }
        todo := todo - {c};
      }
      return true;
    }

    /** The loop over the children of v. */
    method ChangeChildren(v: Node, to: Ctx, ghost root: Node, ghost skip: set<Edge>, ghost q0: Counters,
        ghost open: set<Node>)
        returns (ok: bool)
      requires Walk(root, skip, q0, open) && ctx[root] != to && v in open && Reach(Joined(g, skip), root, v)
      modifies `visited, `log, `quiesce
      ensures old(visited) <= visited && Drained(g, q0, log, quiesce) && Vertices(old(log)) <= Vertices(log)
      ensures ok ==> Walk(root, skip, q0, open) && forall c | c in g.edges && g.edges[c].top == v :: c in visited
      ensures !ok ==> SomeRefuses(g, skip, root)
      decreases g.edges.Keys - visited, 2
    {
      hide Joined, SameCtx, WellFormed, Walked, Found, Drained, Refuses, Reach, SomeRefuses, Vertices;
      var todo := set c | c in g.edges && g.edges[c].top == v;
      while todo != {}
        invariant todo <= g.edges.Keys && forall c | c in todo :: g.edges[c].top == v
        invariant forall c | c in g.edges && g.edges[c].top == v && c !in todo :: c in visited
        invariant Walk(root, skip, q0, open) && old(visited) <= visited && Vertices(old(log)) <= Vertices(log)
        decreases |todo|
      {
        var c :| c in todo;
        ok := ChildChange(c, to, root, skip, q0, open);
        if !ok {
          return;
        }
        todo := todo - {c};
      }
      return true;
    }

    /** bdrv_parent_change_aio_context with the callbacks of the three kinds of parents. */
    method ParentChange(c: Edge, to: Ctx, ghost root: Node, ghost skip: set<Edge>, ghost q0: Counters,
        ghost open: set<Node>)
        returns (ok: bool)
      requires Walk(root, skip, q0, open) && ctx[root] != to && c in g.edges
      requires g.edges[c].bottom in open && Reach(Joined(g, skip), root, g.edges[c].bottom)
      modifies `visited, `log, `quiesce
      ensures old(visited) <= visited && Drained(g, q0, log, quiesce)
      ensures Vertices(old(log)) <= Vertices(log)
      ensures ok ==> Walk(root, skip, q0, open) && c in visited
      ensures !ok ==> SomeRefuses(g, skip, root)
      decreases g.edges.Keys - visited, 1
    {
      if c in visited {
        return true;
      }
      var u := g.edges[c].top;
      Connected(g, skip, root, c);
      VisitOne(g, skip, visited, Vertices(log), open, c, u);
      TopKnown(g, c);
      hide Joined, SameCtx, WellFormed, Walked, Found, Drained, Reach, Vertices;
      visited := visited + {c};
      match g.kinds[u] {
        case Fixed =>
          return false;
        case Bs =>
          ok := Change(u, to, root, skip, q0, open);
        case Job =>
          ok := JobChange(u, to, root, skip, q0, open);
        case Blk(allows) =>
          if !allows {
            return false;
          }
          Record(u, root, skip, q0, open);
          return true;
      }
    }

    /** child_job_change_aio_ctx: the job moves with all its nodes. */
    method JobChange(j: Node, to: Ctx, ghost root: Node, ghost skip: set<Edge>, ghost q0: Counters,
        ghost open: set<Node>)
        returns (ok: bool)
      requires Walk(root, skip, q0, open + {j}) && ctx[root] != to
      requires j in g.kinds && g.kinds[j].Job? && Reach(Joined(g, skip), root, j)
      modifies `visited, `log, `quiesce
      ensures old(visited) <= visited && Drained(g, q0, log, quiesce)
      ensures Vertices(old(log)) <= Vertices(log)
      ensures ok ==> Walk(root, skip, q0, open)
      ensures !ok ==> SomeRefuses(g, skip, root)
      decreases g.edges.Keys - visited, 3
    {
      JobHasNoParents(g, j);
      hide Joined, SameCtx, WellFormed, Walked, Found, Drained, Refuses, Reach, SomeRefuses, Vertices;
      ok := ChangeChildren(j, to, root, skip, q0, open + {j});
      if !ok {
        return;
      }
      JobMoves(g.kinds[j]);
      Record(j, root, skip, q0, open);
      return true;
    }

    /** bdrv_child_change_aio_context */
    method ChildChange(c: Edge, to: Ctx, ghost root: Node, ghost skip: set<Edge>, ghost q0: Counters,
        ghost open: set<Node>)
        returns (ok: bool)
      requires Walk(root, skip, q0, open) && ctx[root] != to && c in g.edges
      requires g.edges[c].top in open && Reach(Joined(g, skip), root, g.edges[c].top)
      modifies `visited, `log, `quiesce
      ensures old(visited) <= visited && Drained(g, q0, log, quiesce)
      ensures Vertices(old(log)) <= Vertices(log)
      ensures ok ==> Walk(root, skip, q0, open) && c in visited
      ensures !ok ==> SomeRefuses(g, skip, root)
      decreases g.edges.Keys - visited, 1
    {
      if c in visited {
        return true;
      }
      Connected(g, skip, root, c);
      VisitOne(g, skip, visited, Vertices(log), open, c, g.edges[c].bottom);
      TopKnown(g, c);
      hide Joined, SameCtx, WellFormed, Walked, Found, Drained, Reach, Vertices, SomeRefuses;
      visited := visited + {c};
      ok := Change(g.edges[c].bottom, to, root, skip, q0, open);
    }

    /** The commit callbacks: everything recorded moves, every node of it while it is drained. */
    method MoveAll(to: Ctx, ghost q0: Counters)
      requires Vertices(log) <= ctx.Keys
      requires forall v | v in log && v in g.kinds && g.kinds[v].Bs? :: v in q0 && v in quiesce && quiesce[v] > q0[v]
      modifies `ctx
      ensures ctx.Keys == old(ctx.Keys)
      ensures forall v | v in ctx :: ctx[v] == if v in Vertices(log) then to else old(ctx[v])
    {
      var k := |log|;
      while k > 0
        invariant 0 <= k <= |log| && ctx.Keys == old(ctx.Keys)
        invariant forall v | v in ctx :: ctx[v] == if v in log[k..] then to else old(ctx[v])
      {
        k := k - 1;
        assert log[k] in Vertices(log) && log[k..] == [log[k]] + log[k + 1..];
        ctx := ctx[log[k] := to];
      }
      assert log[0..] == log;
    }

    /** The clean callbacks: every drain is ended. */
    method CleanAll(ghost q0: Counters)
      requires Drained(g, q0, log, quiesce)
      modifies `quiesce
      ensures quiesce == q0
    {
      var k := |log|;
      assert log[..k] == log;
      while k > 0
        invariant 0 <= k <= |log| && Drained(g, q0, log[..k], quiesce)
      {
        k := k - 1;
        assert log[k] in Vertices(log) && log[..k + 1] == log[..k] + [log[k]];
        EndDrain(g, q0, log[..k], quiesce, log[k]);
        if g.kinds[log[k]].Bs? {
          quiesce := quiesce[log[k] := quiesce[log[k]] - 1];
        }
      }
      assert log[..0] == [];
    }

    /** bdrv_try_change_aio_context: exactly the part of the graph connected to bs, over edges
        other than the ignored one, moves; if something in it cannot move, nothing does. */
    method TryChange(bs: Node, to: Ctx, ignore: set<Edge>) returns (ok: bool)
      requires WellFormed(g) && SameCtx(g, ignore, ctx) && bs in g.kinds && g.kinds[bs].Bs?
               && quiesce.Keys == g.kinds.Keys
      modifies this
      ensures ok <==> old(ctx)[bs] == to || !SomeRefuses(g, ignore, bs)
      ensures SomeRefuses(g, ignore, bs) <==>
              exists v :: && v in g.kinds && Reach(Joined(g, ignore), bs, v)
                          && (g.kinds[v] == Fixed || g.kinds[v] == Blk(false))
      ensures !ok ==> ctx == old(ctx)
      ensures ok ==> ctx.Keys == old(ctx.Keys) &&
                     forall v | v in ctx :: ctx[v] == if Reach(Joined(g, ignore), bs, v) then to else old(ctx)[v]
      ensures quiesce == old(quiesce) && SameCtx(g, ignore, ctx)
    {
      visited, log := ignore, [];
      ReachSelf(Joined(g, ignore), bs);
      ok := Change(bs, to, bs, ignore, quiesce, {});
      if ok {
        MovedIsConnected(g, ignore, visited, log, bs, ctx, to);
        DrainedMeanwhile(g, old(quiesce), log, quiesce);
        MoveAll(to, old(quiesce));
        StillSame(g, ignore, old(ctx), ctx, bs, to);
      }
      CleanAll(old(quiesce));
    }
  }

  /** bdrv_try_change_aio_context moves the node under the child that it was told to ignore. */
  method IgnoredChildMoves(from: Ctx, to: Ctx) returns (ok: bool, after: Contexts)
    ensures ok && TWICE.edges[0].bottom in after && after[TWICE.edges[0].bottom] == to
  {
    IgnoredChildCanMove();
    var m := new Mover(TWICE, map[0 := from, 1 := from]);
    ok := m.TryChange(TWICE.edges[0].top, to, {0});
    after := m.ctx;
  }
}
