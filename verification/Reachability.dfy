/** Paths, reachability and cycles of a finite relation between block nodes. */
module Reachability {

  type Node = nat
  type Rel = set<(Node, Node)>

  /** p lists the nodes after a, in order, up to and including b. */
  predicate IsPath(r: Rel, a: Node, p: seq<Node>, b: Node)
    decreases |p|
  {
    if p == [] then a == b else (a, p[0]) in r && IsPath(r, p[0], p[1..], b)
  }

  ghost predicate Reach(r: Rel, a: Node, b: Node) {
    exists p :: IsPath(r, a, p, b)
  }

  /** Reachable over at least one step. */
  ghost predicate Below(r: Rel, a: Node, b: Node) {
    exists p :: p != [] && IsPath(r, a, p, b)
  }

  ghost predicate Acyclic(r: Rel) {
    forall a :: !Below(r, a, a)
  }

  lemma ReachSelf(r: Rel, a: Node)
    ensures Reach(r, a, a)
  {
    assert IsPath(r, a, [], a);
  }

  lemma {:induction false} PathTrans(r: Rel, a: Node, p: seq<Node>, b: Node, q: seq<Node>, c: Node)
    requires IsPath(r, a, p, b) && IsPath(r, b, q, c)
    ensures IsPath(r, a, p + q, c)
    decreases |p|
  {
    if p == [] {
      assert p + q == q;
    } else {
      PathTrans(r, p[0], p[1..], b, q, c);
      assert (p + q)[1..] == p[1..] + q;
    }
  }

  lemma ReachTrans(r: Rel, a: Node, b: Node, c: Node)
    requires Reach(r, a, b) && Reach(r, b, c)
    ensures Reach(r, a, c)
    ensures Below(r, a, b) || Below(r, b, c) ==> Below(r, a, c)
  {
    var p :| IsPath(r, a, p, b);
    var q :| IsPath(r, b, q, c);
    PathTrans(r, a, p, b, q, c);
    if Below(r, a, b) {
      p :| p != [] && IsPath(r, a, p, b);
      PathTrans(r, a, p, b, q, c);
      assert p + q != [];
    } else if Below(r, b, c) {
      q :| q != [] && IsPath(r, b, q, c);
      PathTrans(r, a, p, b, q, c);
      assert p + q != [];
    }
  }

  lemma ReachEdge(r: Rel, a: Node, b: Node)
    requires (a, b) in r
    ensures Reach(r, a, b) && Below(r, a, b)
  {
    assert IsPath(r, a, [b], b) by { assert [b][1..] == []; }
  }

  /** Over one edge and on. */
  lemma ReachVia(r: Rel, a: Node, b: Node, c: Node)
    requires (a, b) in r && Reach(r, b, c)
    ensures Reach(r, a, c) && Below(r, a, c)
  {
    ReachEdge(r, a, b);
    ReachTrans(r, a, b, c);
  }

  lemma ReachFirst(r: Rel, a: Node, c: Node) returns (b: Node)
    requires Reach(r, a, c) && a != c
    ensures (a, b) in r && Reach(r, b, c)
  {
    var p :| IsPath(r, a, p, c);
    b := p[0];
    assert IsPath(r, b, p[1..], c);
  }

  /** In an acyclic relation no child reaches back. */
  lemma NoWayBack(r: Rel, a: Node, b: Node)
    requires Acyclic(r) && (a, b) in r
    ensures !Reach(r, b, a)
  {
    if Reach(r, b, a) {
      ReachVia(r, a, b, a);
    }
  }

  /** A set that holds a and every child of its members holds all that a reaches. */
  lemma {:induction false} ClosedHoldsPath(r: Rel, s: set<Node>, a: Node, p: seq<Node>, b: Node)
    requires a in s && (forall e | e in r && e.0 in s :: e.1 in s) && IsPath(r, a, p, b)
    ensures b in s
    decreases |p|
  {
    if p != [] {
      assert (a, p[0]) in r;
      ClosedHoldsPath(r, s, p[0], p[1..], b);
    }
  }

  lemma ClosedHoldsReach(r: Rel, s: set<Node>, a: Node, b: Node)
    requires a in s && (forall e | e in r && e.0 in s :: e.1 in s) && Reach(r, a, b)
    ensures b in s
  {
    var p :| IsPath(r, a, p, b);
    ClosedHoldsPath(r, s, a, p, b);
  }

  // ----- editing a relation -----

  lemma {:induction false} PathGrows(r: Rel, r': Rel, a: Node, p: seq<Node>, b: Node)
    requires r <= r' && IsPath(r, a, p, b)
    ensures IsPath(r', a, p, b)
    decreases |p|
  {
    if p != [] {
      PathGrows(r, r', p[0], p[1..], b);
    }
  }

  lemma SubsetIsAcyclic(r: Rel, r': Rel)
    requires r <= r' && Acyclic(r')
    ensures Acyclic(r)
  {
    forall a
      ensures !Below(r, a, a)
    {
      if Below(r, a, a) {
        var p :| p != [] && IsPath(r, a, p, a);
        PathGrows(r, r', a, p, a);
        assert Below(r', a, a);
      }
    }
  }

  /** A path over one new edge (u, v), where v does not reach u, uses it at most once. */
  lemma {:induction false} PathOverNewEdge(r: Rel, u: Node, v: Node, a: Node, p: seq<Node>, b: Node)
    requires IsPath(r + {(u, v)}, a, p, b) && !Reach(r, v, u)
    ensures (p == [] && a == b) || (p != [] && Below(r, a, b)) || (Reach(r, a, u) && Reach(r, v, b))
    decreases |p|
  {
    if p != [] {
      var c := p[0];
      PathOverNewEdge(r, u, v, c, p[1..], b);
      ReachSelf(r, u);
      ReachSelf(r, v);
      ReachSelf(r, c);
      if (a, c) in r {
        ReachEdge(r, a, c);
        if Reach(r, c, u) && Reach(r, v, b) {
          ReachTrans(r, a, c, u);
        } else {
          BelowIsReach(r, c, b);
          ReachVia(r, a, c, b);
        }
      } else {
        assert a == u && c == v;
        BelowIsReach(r, v, b);
      }
    }
  }

  lemma BelowIsReach(r: Rel, a: Node, b: Node)
    ensures Below(r, a, b) ==> Reach(r, a, b)
  {
  }

  /** An edge from u to a node that does not reach u closes no cycle. */
  lemma AddedEdgeIsAcyclic(r: Rel, u: Node, v: Node)
    requires Acyclic(r) && !Reach(r, v, u)
    ensures Acyclic(r + {(u, v)})
  {
    forall a
      ensures !Below(r + {(u, v)}, a, a)
    {
      if Below(r + {(u, v)}, a, a) {
        var p :| p != [] && IsPath(r + {(u, v)}, a, p, a);
        PathOverNewEdge(r, u, v, a, p, a);
        if Reach(r, a, u) && Reach(r, v, a) {
          ReachTrans(r, v, a, u);
        }
      }
    }
  }

  // ----- a measure for recursion over children -----

  function Nodes(r: Rel): set<Node> {
    (set e | e in r :: e.0) + (set e | e in r :: e.1)
  }

  ghost function ReachSet(r: Rel, a: Node): set<Node> {
    set b | b in Nodes(r) + {a} && Reach(r, a, b)
  }

  lemma {:induction false} PathEndsInside(r: Rel, a: Node, p: seq<Node>, b: Node)
    requires IsPath(r, a, p, b)
    ensures b in Nodes(r) + {a}
    decreases |p|
  {
    if p != [] {
      PathEndsInside(r, p[0], p[1..], b);
      assert (a, p[0]) in r;
    }
  }

  lemma ReachSetHolds(r: Rel, a: Node, b: Node)
    ensures b in ReachSet(r, a) <==> Reach(r, a, b)
  {
    if Reach(r, a, b) {
      var p :| IsPath(r, a, p, b);
      PathEndsInside(r, a, p, b);
    }
  }

  /** Below an acyclic node there is less to reach. */
  lemma ChildReachesLess(r: Rel, a: Node, b: Node)
    requires Acyclic(r) && (a, b) in r
    ensures ReachSet(r, b) < ReachSet(r, a)
  {
    forall c | c in ReachSet(r, b)
      ensures c in ReachSet(r, a)
    {
      ReachVia(r, a, b, c);
      ReachSetHolds(r, a, c);
    }
    ReachSelf(r, a);
    ReachSetHolds(r, a, a);
    NoWayBack(r, a, b);
  }
}
