/** Moving a connected part of the block graph to another AioContext
    (bdrv_try_change_aio_context in block.c, with the callbacks of block jobs and of
    BlockBackends).

    The vertices are block nodes and their other parents.  A recursive walk over edges not
    yet visited checks that every vertex can move, drains the nodes it passes and records
    what is to be moved; then everything recorded moves, or nothing does. */
module AioContext {
  import opened Reachability
  import opened BlockGraph

  /** What owns an edge: a node, a block job, a BlockBackend, or something that cannot move. */
  datatype Kind = Bs | Job | Blk(allowsChange: bool) | Fixed

  datatype AioEdge = AioEdge(top: Node, bottom: Node)

  datatype AioGraph = AioGraph(kinds: map<Node, Kind>, edges: map<Edge, AioEdge>)

  /** Edges lead to nodes, and a BlockBackend has one root. */
  predicate WellFormed(g: AioGraph) {
    && (forall e | e in g.edges ::
          g.edges[e].top in g.kinds && g.edges[e].bottom in g.kinds && g.kinds[g.edges[e].bottom].Bs?)
    && (forall e, f | e in g.edges && f in g.edges && g.edges[e].top == g.edges[f].top ::
          g.kinds[g.edges[e].top].Blk? ==> e == f)
  }

  predicate Refuses(k: Kind) {
    k.Fixed? || (k.Blk? && !k.allowsChange)
  }

  predicate Touches(x: AioEdge, v: Node) {
    x.top == v || x.bottom == v
  }

  /** Neighbours over edges that are not skipped, in both directions. */
  function Joined(g: AioGraph, skip: set<Edge>): Rel {
    (set e | e in g.edges && e !in skip :: (g.edges[e].top, g.edges[e].bottom)) +
    (set e | e in g.edges && e !in skip :: (g.edges[e].bottom, g.edges[e].top))
  }

  lemma EdgeJoins(g: AioGraph, skip: set<Edge>, e: Edge)
    requires e in g.edges && e !in skip
    ensures (g.edges[e].top, g.edges[e].bottom) in Joined(g, skip)
            && (g.edges[e].bottom, g.edges[e].top) in Joined(g, skip)
  {
  }

  lemma JoinedByEdge(g: AioGraph, skip: set<Edge>, a: Node, b: Node) returns (e: Edge)
    requires (a, b) in Joined(g, skip)
    ensures e in g.edges && e !in skip && (g.edges[e] == AioEdge(a, b) || g.edges[e] == AioEdge(b, a))
  {
    if (a, b) in (set e | e in g.edges && e !in skip :: (g.edges[e].top, g.edges[e].bottom)) {
      e :| e in g.edges && e !in skip && (g.edges[e].top, g.edges[e].bottom) == (a, b);
    } else {
      e :| e in g.edges && e !in skip && (g.edges[e].bottom, g.edges[e].top) == (a, b);
    }
  }

  type Ctx = nat

  type Contexts = map<Node, Ctx>

  /** The drain counters of the nodes. */
  type Counters = map<Node, int>

  /** The ends of every edge that is not skipped are in the same AioContext. */
  predicate SameCtx(g: AioGraph, skip: set<Edge>, ctx: Contexts) {
    && ctx.Keys == g.kinds.Keys
    && forall e | e in g.edges && e !in skip && g.edges[e].top in ctx && g.edges[e].bottom in ctx ::
         ctx[g.edges[e].top] == ctx[g.edges[e].bottom]
  }

  lemma {:induction false} PathKeepsCtx(g: AioGraph, skip: set<Edge>, ctx: Contexts, a: Node, p: seq<Node>, b: Node)
    requires WellFormed(g) && SameCtx(g, skip, ctx) && a in ctx && IsPath(Joined(g, skip), a, p, b)
    ensures b in ctx && ctx[b] == ctx[a]
    decreases |p|
  {
    if p != [] {
      var e := JoinedByEdge(g, skip, a, p[0]);
      PathKeepsCtx(g, skip, ctx, p[0], p[1..], b);
    }
  }

  /** A connected part is in one context. */
  lemma ConnectedKeepsCtx(g: AioGraph, skip: set<Edge>, ctx: Contexts, a: Node, b: Node)
    requires WellFormed(g) && SameCtx(g, skip, ctx) && a in ctx && Reach(Joined(g, skip), a, b)
    ensures b in ctx && ctx[b] == ctx[a]
  {
    var p :| IsPath(Joined(g, skip), a, p, b);
    PathKeepsCtx(g, skip, ctx, a, p, b);
  }

  lemma Connected(g: AioGraph, skip: set<Edge>, root: Node, e: Edge)
    requires e in g.edges && e !in skip
    ensures Reach(Joined(g, skip), root, g.edges[e].top) <==> Reach(Joined(g, skip), root, g.edges[e].bottom)
  {
    EdgeJoins(g, skip, e);
    ReachEdge(Joined(g, skip), g.edges[e].top, g.edges[e].bottom);
    ReachEdge(Joined(g, skip), g.edges[e].bottom, g.edges[e].top);
    if Reach(Joined(g, skip), root, g.edges[e].top) {
      ReachTrans(Joined(g, skip), root, g.edges[e].top, g.edges[e].bottom);
    }
    if Reach(Joined(g, skip), root, g.edges[e].bottom) {
      ReachTrans(Joined(g, skip), root, g.edges[e].bottom, g.edges[e].top);
    }
  }

  // ----- the invariant of the walk -----

  predicate EndsIn(x: AioEdge, s: set<Node>) {
    x.top in s && x.bottom in s
  }

  /** done has been recorded and open is being walked: both ends of a visited edge are in one
      of them, and no recorded vertex has an edge left to visit. */
  predicate Walked(g: AioGraph, skip: set<Edge>, visited: set<Edge>, done: set<Node>, open: set<Node>) {
    && skip <= visited
    && (forall e | e in visited && e !in skip && e in g.edges :: EndsIn(g.edges[e], done + open))
    && (forall v, e | v in done && e in g.edges && Touches(g.edges[e], v) :: e in visited)
  }

  /** Everything found is connected to the root and able to move. */
  ghost predicate Found(g: AioGraph, skip: set<Edge>, root: Node, done: set<Node>) {
    forall v | v in done :: v in g.kinds && Reach(Joined(g, skip), root, v) && !Refuses(g.kinds[v])
  }

  /** A finished walk has found the whole connected part. */
  lemma WalkedAll(g: AioGraph, skip: set<Edge>, visited: set<Edge>, done: set<Node>, root: Node, v: Node)
    requires Walked(g, skip, visited, done, {}) && root in done && Reach(Joined(g, skip), root, v)
    ensures v in done
  {
    forall x | x in Joined(g, skip) && x.0 in done
      ensures x.1 in done
    {
      var e := JoinedByEdge(g, skip, x.0, x.1);
      assert Touches(g.edges[e], x.0);
      assert EndsIn(g.edges[e], done + {});
    }
    ClosedHoldsReach(Joined(g, skip), done, root, v);
  }

  function Vertices(log: seq<Node>): set<Node> {
    set v | v in log
  }

  /** How often v was recorded. */
  function Times(log: seq<Node>, v: Node): nat {
    multiset(log)[v]
  }

  ghost predicate SomeRefuses(g: AioGraph, skip: set<Edge>, root: Node) {
    exists v :: v in g.kinds && Reach(Joined(g, skip), root, v) && Refuses(g.kinds[v])
  }

  /** The drain counters are those of q0, plus one for every time a node was recorded. */
  predicate Drained(g: AioGraph, q0: Counters, log: seq<Node>, q: Counters) {
    && q.Keys == q0.Keys == g.kinds.Keys && Vertices(log) <= g.kinds.Keys
    && forall v | v in q0 :: q[v] == q0[v] + if g.kinds[v].Bs? then Times(log, v) else 0
  }

  /** What is recorded is drained. */
  lemma DrainedMeanwhile(g: AioGraph, q0: Counters, log: seq<Node>, q: Counters)
    requires Drained(g, q0, log, q)
    ensures forall v | v in log && v in g.kinds && g.kinds[v].Bs? :: v in q0 && v in q && q[v] > q0[v]
  {
    forall v | v in log
      ensures Times(log, v) > 0
    {
      assert v in multiset(log);
    }
  }

  lemma DrainOne(g: AioGraph, q0: Counters, log: seq<Node>, q: Counters, v: Node)
    requires Drained(g, q0, log, q) && v in g.kinds
    ensures g.kinds[v].Bs? ==> Drained(g, q0, log + [v], q[v := q[v] + 1])
    ensures !g.kinds[v].Bs? ==> Drained(g, q0, log + [v], q)
  {
    assert multiset(log + [v]) == multiset(log) + multiset{v};
  }

  /** Recording v, all of whose edges have been visited. */
  lemma RecordOne(g: AioGraph, skip: set<Edge>, root: Node, visited: set<Edge>, log: seq<Node>, open: set<Node>,
      v: Node)
    requires Walked(g, skip, visited, Vertices(log), open + {v}) && Found(g, skip, root, Vertices(log))
    requires forall e | e in g.edges && Touches(g.edges[e], v) :: e in visited
    requires v in g.kinds && !Refuses(g.kinds[v]) && Reach(Joined(g, skip), root, v)
    ensures Walked(g, skip, visited, Vertices(log + [v]), open) && Found(g, skip, root, Vertices(log + [v]))
    ensures v in Vertices(log + [v]) && Vertices(log) <= Vertices(log + [v])
  {
    assert Vertices(log + [v]) == Vertices(log) + {v};
    assert Vertices(log) + (open + {v}) == Vertices(log + [v]) + open;
  }

  /** Visiting an edge whose other end is being walked or recorded. */
  lemma VisitOne(g: AioGraph, skip: set<Edge>, visited: set<Edge>, done: set<Node>, open: set<Node>, c: Edge, v: Node)
    requires Walked(g, skip, visited, done, open) && c in g.edges && EndsIn(g.edges[c], done + open + {v})
    ensures Walked(g, skip, visited + {c}, done, open + {v})
  {
  }

  lemma EndDrain(g: AioGraph, q0: Counters, log: seq<Node>, q: Counters, v: Node)
    requires Drained(g, q0, log + [v], q) && v in g.kinds
    ensures g.kinds[v].Bs? ==> Drained(g, q0, log, q[v := q[v] - 1])
    ensures !g.kinds[v].Bs? ==> Drained(g, q0, log, q)
  {
    assert multiset(log + [v]) == multiset(log) + multiset{v};
  }

  /** After a successful walk, what was recorded is the connected part, unless that was in
      the new context already. */
  lemma MovedIsConnected(g: AioGraph, skip: set<Edge>, visited: set<Edge>, log: seq<Node>, root: Node, ctx: Contexts,
      to: Ctx)
    requires WellFormed(g) && SameCtx(g, skip, ctx) && root in ctx
    requires ctx[root] == to ==> log == []
    requires ctx[root] != to ==>
               Walked(g, skip, visited, Vertices(log), {}) && Found(g, skip, root, Vertices(log))
                 && root in Vertices(log)
    ensures forall v | v in ctx && Reach(Joined(g, skip), root, v) :: v in Vertices(log) || ctx[v] == to
    ensures forall v | v in Vertices(log) :: v in ctx && Reach(Joined(g, skip), root, v)
    ensures ctx[root] != to ==> !SomeRefuses(g, skip, root)
  {
    forall v | Reach(Joined(g, skip), root, v)
      ensures v in Vertices(log) || (v in ctx && ctx[v] == to)
    {
      if ctx[root] == to {
        ConnectedKeepsCtx(g, skip, ctx, root, v);
      } else {
        WalkedAll(g, skip, visited, Vertices(log), root, v);
      }
    }
    forall v | ctx[root] != to && v in g.kinds && Reach(Joined(g, skip), root, v)
      ensures !Refuses(g.kinds[v])
    {
      WalkedAll(g, skip, visited, Vertices(log), root, v);
    }
  }

  /** Moving a connected part keeps the ends of every edge together. */
  lemma StillSame(g: AioGraph, skip: set<Edge>, was: Contexts, ctx: Contexts, root: Node, to: Ctx)
    requires SameCtx(g, skip, was) && ctx.Keys == was.Keys
    requires forall v | v in ctx :: ctx[v] == if Reach(Joined(g, skip), root, v) then to else was[v]
    ensures SameCtx(g, skip, ctx)
  {
    forall e | e in g.edges && e !in skip && g.edges[e].top in ctx && g.edges[e].bottom in ctx
      ensures ctx[g.edges[e].top] == ctx[g.edges[e].bottom]
    {
      Connected(g, skip, root, e);
    }
  }

  lemma BsMoves(k: Kind)
    requires k.Bs?
    ensures !Refuses(k)
  {
  }

  lemma JobMoves(k: Kind)
    requires k.Job?
    ensures !Refuses(k)
  {
  }

  /** Both ends of an edge are vertices, and the edge is the only one of a BlockBackend. */
  lemma TopKnown(g: AioGraph, c: Edge)
    requires WellFormed(g) && c in g.edges
    ensures g.edges[c].top in g.kinds && g.edges[c].bottom in g.kinds && g.kinds[g.edges[c].bottom].Bs?
    ensures g.kinds[g.edges[c].top].Blk? ==> forall e | e in g.edges && Touches(g.edges[e], g.edges[c].top) :: e == c
  {
  }

  lemma JobHasNoParents(g: AioGraph, j: Node)
    requires WellFormed(g) && j in g.kinds && !g.kinds[j].Bs?
    ensures forall e | e in g.edges :: g.edges[e].bottom != j
  {
  }

  /** Two nodes, joined twice. */
  const TWICE: AioGraph := AioGraph(map[0 := Bs, 1 := Bs], map[0 := AioEdge(0, 1), 1 := AioEdge(0, 1)])

  /** The comment on bdrv_try_change_aio_context says that the subgraph of the ignored child is
      not touched.  Another path can lead to it, and then nothing stops it from moving. */
  lemma IgnoredChildCanMove()
    ensures WellFormed(TWICE) && Reach(Joined(TWICE, {0}), TWICE.edges[0].top, TWICE.edges[0].bottom)
    ensures !SomeRefuses(TWICE, {0}, TWICE.edges[0].top)
  {
    EdgeJoins(TWICE, {0}, 1);
    ReachEdge(Joined(TWICE, {0}), 0, 1);
  }
}
