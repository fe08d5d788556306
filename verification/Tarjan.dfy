/** The invariants of the iterative depth-first search behind `rule_cycles`, and the
    proof that each of its steps keeps them. */
module Tarjan {
  import opened Digraph
  import opened Wrappers

  /** One entry of the work list: a node and the children its iterator has still to yield. */
  datatype Frame<N> = Frame(node: N, rest: seq<N>)

  datatype State<N> = State(
    index: map<N, nat>,
    low: map<N, nat>,
    order: seq<N>,
    stack: seq<N>,
    onStack: set<N>,
    work: seq<Frame<N>>)

  /** Some frame of the work list is exploring `n`. */
  ghost predicate Open<N>(s: State<N>, n: N) {
    exists i :: 0 <= i < |s.work| && s.work[i].node == n
  }

  /** Numbers are fresh and unique, grow along the stack, and bound `low`. */
  ghost predicate Numbered<N(!new)>(g: Graph<N>, s: State<N>) {
    && s.index.Keys == s.low.Keys
    && s.index.Keys <= g.Keys
    && (forall n :: n in s.index ==> s.low[n] <= s.index[n] < |s.order| && s.order[s.index[n]] == n)
    && s.onStack <= s.index.Keys
  }

  /** Every node of the visiting order carries its position as its number. */
  ghost predicate InOrder<N>(s: State<N>) {
    forall i :: 0 <= i < |s.order| ==> s.order[i] in s.index && s.index[s.order[i]] == i
  }

  /** `onStack` is the element set of the stack, and numbers grow along the stack. */
  ghost predicate Stacked<N(!new)>(g: Graph<N>, s: State<N>)
    requires Numbered(g, s)
  {
    && (forall n :: n in s.onStack <==> n in s.stack)
    && (forall i, j :: 0 <= i < j < |s.stack| ==> s.index[s.stack[i]] < s.index[s.stack[j]])
    && (s.stack != [] ==> s.work != [] && s.stack[0] == s.work[0].node)
  }

  /** The work list is a path of the graph, its nodes are on the stack in
      order, and the unread children of a frame are children of its node. */
  ghost predicate Spine<N(!new)>(g: Graph<N>, s: State<N>)
    requires Numbered(g, s)
  {
    && (forall i :: 0 <= i < |s.work| ==> s.work[i].node in s.onStack)
    && (forall i, j :: 0 <= i < j < |s.work| ==> s.index[s.work[i].node] < s.index[s.work[j].node])
    && (forall i, c :: 0 <= i < |s.work| && c in s.work[i].rest ==> Edge(g, s.work[i].node, c))
  }

  /** Children already read are numbered, and nothing leads out of the popped nodes. */
  ghost predicate Explored<N(!new)>(g: Graph<N>, s: State<N>)
    requires Numbered(g, s)
  {
    && (forall i, c :: 0 <= i < |s.work| && Edge(g, s.work[i].node, c) && c !in s.work[i].rest ==> c in s.index)
    && (forall n, c :: n in s.index && !Open(s, n) && Edge(g, n, c) ==> c in s.index)
    && (forall n, c :: n in s.index && n !in s.onStack && Edge(g, n, c) ==> c in s.index && c !in s.onStack)
  }

  /** An open node reaches everything stacked above it. */
  ghost predicate Downward<N(!new)>(g: Graph<N>, s: State<N>)
    requires Numbered(g, s) && Spine(g, s)
  {
    forall i, u :: 0 <= i < |s.work| && u in s.onStack && s.index[s.work[i].node] <= s.index[u]
      ==> Reach(g, s.work[i].node, u)
  }

  /** A stacked node that is no longer open reaches a node stacked below it. */
  ghost predicate Upward<N(!new)>(g: Graph<N>, s: State<N>)
    requires Numbered(g, s)
  {
    forall u :: u in s.onStack && !Open(s, u) ==> ReachesBelow(g, s, u)
  }

  ghost predicate ReachesBelow<N(!new)>(g: Graph<N>, s: State<N>, u: N)
    requires Numbered(g, s) && u in s.onStack
  {
    exists x :: x in s.onStack && s.index[x] < s.index[u] && Reach(g, u, x)
  }

  /** `low` of an open node is the number of a stacked node it reaches. */
  ghost predicate LowWitnessed<N(!new)>(g: Graph<N>, s: State<N>)
    requires Numbered(g, s) && Spine(g, s)
  {
    forall i :: 0 <= i < |s.work| ==> HasLow(g, s, s.work[i].node)
  }

  ghost predicate HasLow<N(!new)>(g: Graph<N>, s: State<N>, n: N)
    requires Numbered(g, s) && n in s.index
  {
    exists x :: x in s.onStack && s.index[x] == s.low[n] && Reach(g, n, x)
  }

  /** `u` is stacked above frame `i` and below the next frame. */
  ghost predicate Between<N(!new)>(g: Graph<N>, s: State<N>, i: int, u: N)
    requires Numbered(g, s) && Spine(g, s)
  {
    && 0 <= i < |s.work|
    && u in s.onStack
    && s.index[s.work[i].node] < s.index[u]
    && (i + 1 < |s.work| ==> s.index[u] < s.index[s.work[i + 1].node])
  }

  /** `low` of an open node bounds the stacked children read from it. */
  ghost predicate ReadBounds<N(!new)>(g: Graph<N>, s: State<N>)
    requires Numbered(g, s) && Spine(g, s)
  {
    forall i, c ::
      0 <= i < |s.work| && Edge(g, s.work[i].node, c) && c !in s.work[i].rest && c in s.onStack
      ==> s.low[s.work[i].node] <= s.index[c]
  }

  /** `low` of an open node bounds the stacked children of the closed nodes right above it. */
  ghost predicate ClosedBounds<N(!new)>(g: Graph<N>, s: State<N>)
    requires Numbered(g, s) && Spine(g, s)
  {
    forall i, u, c ::
      Between(g, s, i, u) && Edge(g, u, c) && c in s.onStack
      ==> s.low[s.work[i].node] <= s.index[c]
  }

  ghost predicate Inv<N(!new)>(g: Graph<N>, s: State<N>) {
    && Numbered(g, s)
    && InOrder(s)
    && Stacked(g, s)
    && Spine(g, s)
    && Explored(g, s)
    && Downward(g, s)
    && Upward(g, s)
    && LowWitnessed(g, s)
    && ReadBounds(g, s)
    && ClosedBounds(g, s)
  }

  /** The next child of the top frame is new: number it, stack it and start its frame. */
  ghost function Visit<N>(g: Graph<N>, s: State<N>): State<N>
    requires s.work != [] && s.work[|s.work| - 1].rest != []
    requires s.work[|s.work| - 1].rest[0] in g
  {
    var top := s.work[|s.work| - 1];
    var c := top.rest[0];
    State(
      s.index[c := |s.order|],
      s.low[c := |s.order|],
      s.order + [c],
      s.stack + [c],
      s.onStack + {c},
      s.work[|s.work| - 1 := Frame(top.node, top.rest[1..])] + [Frame(c, g[c])])
  }

  ghost predicate CanVisit<N>(g: Graph<N>, s: State<N>) {
    && s.work != []
    && s.work[|s.work| - 1].rest != []
    && s.work[|s.work| - 1].rest[0] in g
    && s.work[|s.work| - 1].rest[0] !in s.index
  }

  lemma VisitKeepsOpen<N>(g: Graph<N>, s: State<N>, n: N)
    requires CanVisit(g, s)
    ensures Open(s, n) ==> Open(Visit(g, s), n)
  {
    if Open(s, n) {
      var i :| 0 <= i < |s.work| && s.work[i].node == n;
      assert Visit(g, s).work[i].node == n;
    }
  }

  lemma VisitInOrder<N(!new)>(g: Graph<N>, s: State<N>)
    requires CanVisit(g, s) && InOrder(s)
    ensures InOrder(Visit(g, s))
  {
  }

  lemma SameOrder<N(!new)>(s: State<N>, s': State<N>)
    requires InOrder(s) && s'.order == s.order && s'.index == s.index
    ensures InOrder(s')
  {
  }

  lemma VisitNumbered<N(!new)>(g: Graph<N>, s: State<N>)
    requires CanVisit(g, s) && Numbered(g, s) && Stacked(g, s) && Spine(g, s)
    ensures Numbered(g, Visit(g, s)) && Stacked(g, Visit(g, s))
  {
    var s' := Visit(g, s);
    forall i | 0 <= i < |s.stack|
      ensures s.stack[i] in s.onStack
    {
    }
    forall n
      ensures n in s'.onStack <==> n in s'.stack
    {
      assert n in s'.stack <==> n in s.stack || n == s.work[|s.work| - 1].rest[0];
    }
  }

  lemma VisitSpine<N(!new)>(g: Graph<N>, s: State<N>)
    requires CanVisit(g, s) && Numbered(g, s) && Spine(g, s)
    requires Numbered(g, Visit(g, s))
    ensures Spine(g, Visit(g, s))
  {
    var s' := Visit(g, s);
    var top := |s.work| - 1;
    forall i | 0 <= i < |s'.work|
      ensures s'.work[i].node in s'.onStack
    {
      if i <= top {
        assert s.work[i].node in s.onStack;
      }
    }
  }

  lemma VisitExplored<N(!new)>(g: Graph<N>, s: State<N>)
    requires CanVisit(g, s) && Closed(g) && Numbered(g, s) && Spine(g, s) && Explored(g, s)
    requires Numbered(g, Visit(g, s))
    ensures Explored(g, Visit(g, s))
  {
    var s' := Visit(g, s);
    var top := |s.work| - 1;
    var c := s.work[top].rest[0];
    assert s'.work[top + 1].node == c;
    forall n {
      VisitKeepsOpen(g, s, n);
    }
    forall i, d | 0 <= i < |s'.work| && Edge(g, s'.work[i].node, d) && d !in s'.work[i].rest
      ensures d in s'.index
    {
      if i == top && d != c {
        assert s.work[top].rest == [c] + s'.work[top].rest;
      }
    }
  }

  lemma VisitDownward<N(!new)>(g: Graph<N>, s: State<N>)
    requires CanVisit(g, s) && Numbered(g, s) && Spine(g, s) && Downward(g, s)
    requires Numbered(g, Visit(g, s)) && Spine(g, Visit(g, s))
    ensures Downward(g, Visit(g, s))
  {
    hide Reach, Stacked;
    var s' := Visit(g, s);
    var top := |s.work| - 1;
    var c := s.work[top].rest[0];
    ReachSelf(g, c);
    ReachEdge(g, s.work[top].node, c);
    forall i, u | 0 <= i < |s'.work| && u in s'.onStack && s'.index[s'.work[i].node] <= s'.index[u]
      ensures Reach(g, s'.work[i].node, u)
    {
      if i <= top && u == c {
        assert s.work[top].node in s.onStack;
        ReachTrans(g, s.work[i].node, s.work[top].node, c);
      } else if i <= top {
        assert s'.work[i].node == s.work[i].node;
      }
    }
  }

  lemma VisitUpward<N(!new)>(g: Graph<N>, s: State<N>)
    requires CanVisit(g, s) && Numbered(g, s) && Upward(g, s)
    requires Numbered(g, Visit(g, s))
    ensures Upward(g, Visit(g, s))
  {
    var s' := Visit(g, s);
    forall u | u in s'.onStack && !Open(s', u)
      ensures ReachesBelow(g, s', u)
    {
      assert s'.work[|s.work|].node == s.work[|s.work| - 1].rest[0];
      VisitKeepsOpen(g, s, u);
      var x :| x in s.onStack && s.index[x] < s.index[u] && Reach(g, u, x);
      assert x in s'.onStack;
    }
  }

  lemma VisitWitness<N(!new)>(g: Graph<N>, s: State<N>)
    requires CanVisit(g, s) && Numbered(g, s) && Spine(g, s) && LowWitnessed(g, s)
    requires Numbered(g, Visit(g, s)) && Spine(g, Visit(g, s))
    ensures LowWitnessed(g, Visit(g, s))
  {
  }

  lemma VisitReadBounds<N(!new)>(g: Graph<N>, s: State<N>)
    requires CanVisit(g, s) && Numbered(g, s) && Spine(g, s) && ReadBounds(g, s)
    requires Numbered(g, Visit(g, s)) && Spine(g, Visit(g, s))
    ensures ReadBounds(g, Visit(g, s))
  {
    var s' := Visit(g, s);
    var top := |s.work| - 1;
    forall i, d | 0 <= i < |s'.work| && Edge(g, s'.work[i].node, d) && d !in s'.work[i].rest && d in s'.onStack
      ensures s'.low[s'.work[i].node] <= s'.index[d]
    {
      if i == top && d != s.work[top].rest[0] {
        assert s.work[top].rest == [s.work[top].rest[0]] + s'.work[top].rest;
      }
    }
  }

  lemma VisitClosedBounds<N(!new)>(g: Graph<N>, s: State<N>)
    requires CanVisit(g, s) && Numbered(g, s) && Spine(g, s) && Explored(g, s) && ClosedBounds(g, s)
    requires Numbered(g, Visit(g, s)) && Spine(g, Visit(g, s))
    ensures ClosedBounds(g, Visit(g, s))
  {
    var s' := Visit(g, s);
    var top := |s.work| - 1;
    assert s'.work[top + 1].node == s.work[top].rest[0];
    forall i, u, d | Between(g, s', i, u) && Edge(g, u, d) && d in s'.onStack
      ensures s'.low[s'.work[i].node] <= s'.index[d]
    {
      assert Between(g, s, i, u);
    }
  }

  lemma VisitKeepsInv<N(!new)>(g: Graph<N>, s: State<N>)
    requires Closed(g) && Inv(g, s) && CanVisit(g, s)
    ensures Inv(g, Visit(g, s))
  {
    hide Numbered, InOrder, Stacked, Spine, Explored, Downward, Upward, LowWitnessed, ReadBounds, ClosedBounds;
    VisitNumbered(g, s);
    VisitSpine(g, s);
    VisitExplored(g, s);
    VisitDownward(g, s);
    VisitUpward(g, s);
    VisitWitness(g, s);
    VisitReadBounds(g, s);
    VisitClosedBounds(g, s);
    VisitInOrder(g, s);
  }

  /** The next child of the top frame is numbered: read it, and let it lower `low` if stacked. */
  ghost function Read<N(!new)>(g: Graph<N>, s: State<N>): State<N>
    requires CanRead(g, s) && Numbered(g, s)
  {
    var top := s.work[|s.work| - 1];
    var c := top.rest[0];
    s.(low := if c in s.onStack then s.low[top.node := Min(s.low[top.node], s.index[c])] else s.low,
       work := s.work[|s.work| - 1 := Frame(top.node, top.rest[1..])])
  }

  ghost predicate CanRead<N>(g: Graph<N>, s: State<N>) {
    && s.work != []
    && s.work[|s.work| - 1].node in s.index
    && s.work[|s.work| - 1].node in s.low
    && s.work[|s.work| - 1].rest != []
    && s.work[|s.work| - 1].rest[0] in s.index
  }

  /** Reading changes only the top frame's rest and the top node's `low`, which can but fall. */
  lemma ReadFrames<N(!new)>(g: Graph<N>, s: State<N>)
    requires CanRead(g, s) && Numbered(g, s)
    ensures
      var s' := Read(g, s);
      var top := |s.work| - 1;
      && |s'.work| == |s.work|
      && (forall i :: 0 <= i < |s.work| ==> s'.work[i].node == s.work[i].node)
      && (forall i :: 0 <= i < top ==> s'.work[i].rest == s.work[i].rest)
      && (forall c :: c in s.work[top].rest <==> c == s.work[top].rest[0] || c in s'.work[top].rest)
  {
  }

  lemma ReadShape<N(!new)>(g: Graph<N>, s: State<N>)
    requires CanRead(g, s) && Numbered(g, s) && Stacked(g, s)
    ensures Numbered(g, Read(g, s)) && Stacked(g, Read(g, s))
  {
    ReadFrames(g, s);
  }

  lemma ReadSpine<N(!new)>(g: Graph<N>, s: State<N>)
    requires CanRead(g, s) && Numbered(g, s) && Spine(g, s)
    requires Numbered(g, Read(g, s))
    ensures Spine(g, Read(g, s))
  {
  }

  lemma ReadOpen<N(!new)>(g: Graph<N>, s: State<N>)
    requires CanRead(g, s) && Numbered(g, s)
    ensures forall n :: Open(Read(g, s), n) <==> Open(s, n)
  {
    ReadFrames(g, s);
    forall n | Open(s, n)
      ensures Open(Read(g, s), n)
    {
      var i :| 0 <= i < |s.work| && s.work[i].node == n;
      assert Read(g, s).work[i].node == n;
    }
  }

  lemma ReadExplored<N(!new)>(g: Graph<N>, s: State<N>)
    requires CanRead(g, s) && Numbered(g, s) && Explored(g, s)
    requires Numbered(g, Read(g, s))
    requires forall n :: Open(Read(g, s), n) <==> Open(s, n)
    ensures Explored(g, Read(g, s))
  {
  }

  lemma ReadDownward<N(!new)>(g: Graph<N>, s: State<N>)
    requires CanRead(g, s) && Numbered(g, s) && Spine(g, s) && Downward(g, s)
    requires Numbered(g, Read(g, s)) && Spine(g, Read(g, s))
    ensures Downward(g, Read(g, s))
  {
  }

  lemma ReadUpward<N(!new)>(g: Graph<N>, s: State<N>)
    requires CanRead(g, s) && Numbered(g, s) && Upward(g, s)
    requires Numbered(g, Read(g, s))
    requires forall n :: Open(Read(g, s), n) <==> Open(s, n)
    ensures Upward(g, Read(g, s))
  {
  }

  lemma ReadWitness<N(!new)>(g: Graph<N>, s: State<N>)
    requires CanRead(g, s) && Numbered(g, s) && Spine(g, s) && LowWitnessed(g, s)
    requires Numbered(g, Read(g, s)) && Spine(g, Read(g, s))
    ensures LowWitnessed(g, Read(g, s))
  {
    var s' := Read(g, s);
    var top := |s.work| - 1;
    ReachEdge(g, s.work[top].node, s.work[top].rest[0]);
    forall i | 0 <= i < |s'.work|
      ensures HasLow(g, s', s'.work[i].node)
    {
      assert s'.work[i].node == s.work[i].node;
      assert HasLow(g, s, s.work[i].node);
      var x :| x in s.onStack && s.index[x] == s.low[s.work[i].node] && Reach(g, s.work[i].node, x);
      assert x in s'.onStack;
    }
  }

  lemma ReadReadBounds<N(!new)>(g: Graph<N>, s: State<N>)
    requires CanRead(g, s) && Numbered(g, s) && Spine(g, s) && ReadBounds(g, s)
    requires Numbered(g, Read(g, s)) && Spine(g, Read(g, s))
    ensures ReadBounds(g, Read(g, s))
  {
    var s' := Read(g, s);
    var top := |s.work| - 1;
    assert s.work[top].rest == [s.work[top].rest[0]] + s'.work[top].rest;
  }

  lemma ReadClosedBounds<N(!new)>(g: Graph<N>, s: State<N>)
    requires CanRead(g, s) && Numbered(g, s) && Spine(g, s) && ClosedBounds(g, s)
    requires Numbered(g, Read(g, s)) && Spine(g, Read(g, s))
    ensures ClosedBounds(g, Read(g, s))
  {
    var s' := Read(g, s);
    forall i, u, d | Between(g, s', i, u) && Edge(g, u, d) && d in s'.onStack
      ensures s'.low[s'.work[i].node] <= s'.index[d]
    {
      assert s'.work[i].node == s.work[i].node;
      assert i + 1 < |s.work| ==> s'.work[i + 1].node == s.work[i + 1].node;
      assert Between(g, s, i, u);
    }
  }

  lemma ReadKeepsInv<N(!new)>(g: Graph<N>, s: State<N>)
    requires Inv(g, s) && CanRead(g, s)
    ensures Inv(g, Read(g, s))
  {
    hide Numbered, InOrder, Stacked, Spine, Explored, Downward, Upward, LowWitnessed, ReadBounds, ClosedBounds;
    ReadShape(g, s);
    ReadSpine(g, s);
    ReadOpen(g, s);
    ReadExplored(g, s);
    ReadDownward(g, s);
    ReadUpward(g, s);
    ReadWitness(g, s);
    ReadReadBounds(g, s);
    ReadClosedBounds(g, s);
    SameOrder(s, Read(g, s));
  }

  /** The top frame is used up: drop it and pass its `low` on to its parent. */
  ghost function Retire<N(!new)>(g: Graph<N>, s: State<N>): State<N>
    requires CanRetire(g, s) && Numbered(g, s)
  {
    var top := |s.work| - 1;
    s.(work := s.work[..top],
       low := if top > 0 then
                s.low[s.work[top - 1].node := Min(s.low[s.work[top - 1].node], s.low[s.work[top].node])]
              else s.low)
  }

  ghost predicate CanRetire<N>(g: Graph<N>, s: State<N>) {
    && s.work != []
    && (forall i :: 0 <= i < |s.work| ==> s.work[i].node in s.index && s.work[i].node in s.low)
    && s.work[|s.work| - 1].rest == []
  }

  lemma RetireOpen<N(!new)>(g: Graph<N>, s: State<N>, n: N)
    requires CanRetire(g, s) && Numbered(g, s)
    ensures Open(s, n) ==> Open(Retire(g, s), n) || n == s.work[|s.work| - 1].node
  {
  }

  lemma RetireNumbered<N(!new)>(g: Graph<N>, s: State<N>)
    requires CanRetire(g, s) && Numbered(g, s) && Spine(g, s)
    ensures Numbered(g, Retire(g, s)) && Spine(g, Retire(g, s))
  {
  }

  /** A used-up node whose `low` is smaller than its number stays on the stack. */
  lemma RetireStacked<N(!new)>(g: Graph<N>, s: State<N>)
    requires CanRetire(g, s) && Numbered(g, s) && Stacked(g, s) && Spine(g, s) && LowWitnessed(g, s)
    requires Numbered(g, Retire(g, s))
    requires s.low[s.work[|s.work| - 1].node] < s.index[s.work[|s.work| - 1].node]
    ensures Stacked(g, Retire(g, s))
  {
  }

  lemma RetireExplored<N(!new)>(g: Graph<N>, s: State<N>)
    requires CanRetire(g, s) && Numbered(g, s) && Spine(g, s) && Explored(g, s)
    requires Numbered(g, Retire(g, s))
    ensures Explored(g, Retire(g, s))
  {
    forall n {
      RetireOpen(g, s, n);
    }
  }

  lemma RetireDownward<N(!new)>(g: Graph<N>, s: State<N>)
    requires CanRetire(g, s) && Numbered(g, s) && Spine(g, s) && Downward(g, s)
    requires Numbered(g, Retire(g, s)) && Spine(g, Retire(g, s))
    ensures Downward(g, Retire(g, s))
  {
  }

  lemma RetireUpward<N(!new)>(g: Graph<N>, s: State<N>)
    requires CanRetire(g, s) && Numbered(g, s) && Spine(g, s) && Upward(g, s) && LowWitnessed(g, s)
    requires Numbered(g, Retire(g, s))
    requires s.low[s.work[|s.work| - 1].node] < s.index[s.work[|s.work| - 1].node]
    ensures Upward(g, Retire(g, s))
  {
    var s' := Retire(g, s);
    var v := s.work[|s.work| - 1].node;
    assert HasLow(g, s, v);
    forall u | u in s'.onStack && !Open(s', u)
      ensures ReachesBelow(g, s', u)
    {
      RetireOpen(g, s, u);
      assert ReachesBelow(g, s, u);
    }
  }

  lemma RetireWitness<N(!new)>(g: Graph<N>, s: State<N>)
    requires CanRetire(g, s) && Numbered(g, s) && Spine(g, s) && Downward(g, s) && LowWitnessed(g, s)
    requires Numbered(g, Retire(g, s)) && Spine(g, Retire(g, s))
    ensures LowWitnessed(g, Retire(g, s))
  {
    var s' := Retire(g, s);
    var top := |s.work| - 1;
    var v := s.work[top].node;
    assert HasLow(g, s, v);
    var y :| y in s.onStack && s.index[y] == s.low[v] && Reach(g, v, y);
    forall i | 0 <= i < |s'.work|
      ensures HasLow(g, s', s'.work[i].node)
    {
      var n := s.work[i].node;
      assert HasLow(g, s, n);
      var x :| x in s.onStack && s.index[x] == s.low[n] && Reach(g, n, x);
      ReachTrans(g, n, v, y);
      assert x in s'.onStack && y in s'.onStack;
    }
  }

  lemma RetireReadBounds<N(!new)>(g: Graph<N>, s: State<N>)
    requires CanRetire(g, s) && Numbered(g, s) && Spine(g, s) && ReadBounds(g, s)
    requires Numbered(g, Retire(g, s)) && Spine(g, Retire(g, s))
    ensures ReadBounds(g, Retire(g, s))
  {
    var s' := Retire(g, s);
    assert forall i :: 0 <= i < |s'.work| ==> s'.work[i] == s.work[i];
  }

  /** Between what was the top frame's parent and its next frame now lie the top frame's node and
      everything above it. */
  lemma RetireBetween<N(!new)>(g: Graph<N>, s: State<N>, i: int, u: N)
    requires CanRetire(g, s) && Numbered(g, s) && Spine(g, s)
    requires Numbered(g, Retire(g, s)) && Spine(g, Retire(g, s))
    requires Between(g, Retire(g, s), i, u)
    ensures Between(g, s, i, u)
      || (i == |s.work| - 2 && (u == s.work[i + 1].node || Between(g, s, i + 1, u)))
  {
    var s' := Retire(g, s);
    assert s'.work[i] == s.work[i] && (i + 1 < |s'.work| ==> s'.work[i + 1] == s.work[i + 1]);
  }

  lemma RetireClosedBounds<N(!new)>(g: Graph<N>, s: State<N>)
    requires CanRetire(g, s) && Numbered(g, s) && Spine(g, s) && ReadBounds(g, s) && ClosedBounds(g, s)
    requires Numbered(g, Retire(g, s)) && Spine(g, Retire(g, s))
    ensures ClosedBounds(g, Retire(g, s))
  {
    var s' := Retire(g, s);
    forall i, u, d | Between(g, s', i, u) && Edge(g, u, d) && d in s'.onStack
      ensures s'.low[s'.work[i].node] <= s'.index[d]
    {
      hide Spine, Numbered;
      RetireBetween(g, s, i, u);
      assert s'.work[i] == s.work[i];
      assert s'.low[s.work[i].node] <= s.low[s.work[i].node];
    }
  }

  lemma RetireKeepsInv<N(!new)>(g: Graph<N>, s: State<N>)
    requires Inv(g, s) && CanRetire(g, s)
    requires s.low[s.work[|s.work| - 1].node] < s.index[s.work[|s.work| - 1].node]
    ensures Inv(g, Retire(g, s))
  {
    hide Numbered, InOrder, Stacked, Spine, Explored, Downward, Upward, LowWitnessed, ReadBounds, ClosedBounds;
    RetireNumbered(g, s);
    RetireStacked(g, s);
    RetireExplored(g, s);
    RetireDownward(g, s);
    RetireUpward(g, s);
    RetireWitness(g, s);
    RetireReadBounds(g, s);
    RetireClosedBounds(g, s);
    SameOrder(s, Retire(g, s));
  }

  /** What is popped with the top node: everything stacked from it upwards. */
  ghost function Members<N(!new)>(g: Graph<N>, s: State<N>): set<N>
    requires CanRetire(g, s) && Numbered(g, s)
  {
    set u | u in s.onStack && s.index[s.work[|s.work| - 1].node] <= s.index[u]
  }

  /** The used-up top node kept its own number as `low`: drop its frame and pop its members. */
  ghost function Pop<N(!new)>(g: Graph<N>, s: State<N>, k: nat): State<N>
    requires CanRetire(g, s) && Numbered(g, s) && k <= |s.stack|
  {
    Retire(g, s).(stack := s.stack[..k], onStack := s.onStack - Members(g, s))
  }

  ghost predicate CanPop<N(!new)>(g: Graph<N>, s: State<N>, k: nat) {
    && CanRetire(g, s)
    && s.low[s.work[|s.work| - 1].node] == s.index[s.work[|s.work| - 1].node]
    && k < |s.stack|
    && s.stack[k] == s.work[|s.work| - 1].node
  }

  /** Every stacked node reaches the top frame's node. */
  lemma {:induction false} StackReachesTop<N(!new)>(g: Graph<N>, s: State<N>, u: N)
    requires Numbered(g, s) && Spine(g, s) && Downward(g, s) && Upward(g, s)
    requires s.work != [] && u in s.onStack
    ensures Reach(g, u, s.work[|s.work| - 1].node)
    decreases s.index[u]
  {
    hide Reach;
    var v := s.work[|s.work| - 1].node;
    if Open(s, u) {
      var i :| 0 <= i < |s.work| && s.work[i].node == u;
    } else {
      assert ReachesBelow(g, s, u);
      var x :| x in s.onStack && s.index[x] < s.index[u] && Reach(g, u, x);
      StackReachesTop(g, s, x);
      ReachTrans(g, u, x, v);
    }
  }

  /** No edge leads out of the popped nodes once the members are popped. */
  lemma PopClosed<N(!new)>(g: Graph<N>, s: State<N>, n: N, c: N)
    requires CanRetire(g, s) && Numbered(g, s) && Spine(g, s)
    requires Explored(g, s) && ReadBounds(g, s) && ClosedBounds(g, s)
    requires s.low[s.work[|s.work| - 1].node] == s.index[s.work[|s.work| - 1].node]
    requires n in s.index && n !in s.onStack - Members(g, s) && Edge(g, n, c)
    ensures c in s.index && c !in s.onStack - Members(g, s)
  {
    var top := |s.work| - 1;
    if n in s.onStack && n != s.work[top].node {
      assert !Open(s, n);
      assert Between(g, s, top, n);
    }
  }

  lemma MembersAreMutual<N(!new)>(g: Graph<N>, s: State<N>, a: N, b: N)
    requires CanRetire(g, s) && Numbered(g, s) && Spine(g, s) && Downward(g, s) && Upward(g, s)
    requires a in Members(g, s) && b in Members(g, s)
    ensures Mutual(g, a, b)
  {
    var v := s.work[|s.work| - 1].node;
    StackReachesTop(g, s, a);
    StackReachesTop(g, s, b);
    ReachTrans(g, a, v, b);
    ReachTrans(g, b, v, a);
  }

  lemma MutualIsMember<N(!new)>(g: Graph<N>, s: State<N>, a: N, b: N)
    requires CanRetire(g, s) && Numbered(g, s) && Spine(g, s)
    requires Explored(g, s) && ReadBounds(g, s) && ClosedBounds(g, s)
    requires s.low[s.work[|s.work| - 1].node] == s.index[s.work[|s.work| - 1].node]
    requires a in Members(g, s) && Mutual(g, a, b)
    ensures b in Members(g, s)
  {
    var left := s.index.Keys - s.onStack;
    var after := left + Members(g, s);
    forall n, c | n in after && Edge(g, n, c)
      ensures c in after
    {
      PopClosed(g, s, n, c);
    }
    ReachStaysInside(g, after, a, b);
    if b in left {
      ReachStaysInside(g, left, b, a);
    }
  }

  /** The members popped together are exactly one strongly connected component. */
  lemma PopsScc<N(!new)>(g: Graph<N>, s: State<N>)
    requires CanRetire(g, s) && Inv(g, s)
    requires s.low[s.work[|s.work| - 1].node] == s.index[s.work[|s.work| - 1].node]
    ensures IsScc(g, Members(g, s))
  {
    var m := Members(g, s);
    assert s.work[|s.work| - 1].node in m;
    forall a, b | a in m && b in g
      ensures b in m <==> Mutual(g, a, b)
    {
      if b in m {
        MembersAreMutual(g, s, a, b);
      } else if Mutual(g, a, b) {
        MutualIsMember(g, s, a, b);
      }
    }
  }

  lemma PopNumbered<N(!new)>(g: Graph<N>, s: State<N>, k: nat)
    requires CanPop(g, s, k) && Numbered(g, s) && Stacked(g, s) && Spine(g, s)
    ensures Numbered(g, Pop(g, s, k)) && Spine(g, Pop(g, s, k))
  {
    var s' := Pop(g, s, k);
    assert forall i :: 0 <= i < |s'.work| ==> s'.work[i] == s.work[i];
  }

  lemma PopStacked<N(!new)>(g: Graph<N>, s: State<N>, k: nat)
    requires CanPop(g, s, k) && Numbered(g, s) && Stacked(g, s)
    requires Numbered(g, Pop(g, s, k))
    ensures Stacked(g, Pop(g, s, k))
  {
    var s' := Pop(g, s, k);
    forall i | 0 <= i < |s.stack|
      ensures i < k <==> s.stack[i] in s'.onStack
    {
      assert s.stack[i] in s.onStack;
    }
    forall n
      ensures n in s'.onStack <==> n in s'.stack
    {
      if n in s'.onStack {
        var i :| 0 <= i < |s.stack| && s.stack[i] == n;
        assert s'.stack[i] == n;
      }
    }
  }

  lemma PopExplored<N(!new)>(g: Graph<N>, s: State<N>, k: nat)
    requires CanPop(g, s, k) && Numbered(g, s) && Spine(g, s)
    requires Explored(g, s) && ReadBounds(g, s) && ClosedBounds(g, s)
    requires Numbered(g, Pop(g, s, k))
    ensures Explored(g, Pop(g, s, k))
  {
    var s' := Pop(g, s, k);
    assert forall i :: 0 <= i < |s'.work| ==> s'.work[i] == s.work[i];
    forall n, c | n in s.index && Edge(g, n, c) && (n !in s'.onStack || !Open(s', n))
      ensures c in s'.index && (n !in s'.onStack ==> c !in s'.onStack)
    {
      RetireOpen(g, s, n);
      assert forall m :: Open(Retire(g, s), m) ==> Open(s', m);
      if n !in s'.onStack {
        PopClosed(g, s, n, c);
      }
    }
  }

  lemma PopReach<N(!new)>(g: Graph<N>, s: State<N>, k: nat)
    requires CanPop(g, s, k) && Numbered(g, s) && Spine(g, s)
    requires Downward(g, s) && Upward(g, s)
    requires Numbered(g, Pop(g, s, k)) && Spine(g, Pop(g, s, k))
    ensures Downward(g, Pop(g, s, k)) && Upward(g, Pop(g, s, k))
  {
    var s' := Pop(g, s, k);
    assert forall i :: 0 <= i < |s'.work| ==> s'.work[i] == s.work[i];
    PopUpward(g, s, k);
    hide Numbered, Spine, Upward, CanPop, Open;
  }

  lemma PopUpward<N(!new)>(g: Graph<N>, s: State<N>, k: nat)
    requires CanPop(g, s, k) && Numbered(g, s) && Upward(g, s)
    requires Numbered(g, Pop(g, s, k))
    ensures Upward(g, Pop(g, s, k))
  {
    var s' := Pop(g, s, k);
    forall u | u in s'.onStack && !Open(s', u)
      ensures ReachesBelow(g, s', u)
    {
      RetireOpen(g, s, u);
      assert ReachesBelow(g, s, u);
    }
  }

  lemma PopWitness<N(!new)>(g: Graph<N>, s: State<N>, k: nat)
    requires CanPop(g, s, k) && Numbered(g, s) && Spine(g, s) && LowWitnessed(g, s)
    requires Numbered(g, Pop(g, s, k)) && Spine(g, Pop(g, s, k))
    ensures LowWitnessed(g, Pop(g, s, k))
  {
  }

  lemma PopReadBounds<N(!new)>(g: Graph<N>, s: State<N>, k: nat)
    requires CanPop(g, s, k) && Numbered(g, s) && Spine(g, s) && ReadBounds(g, s)
    requires Numbered(g, Pop(g, s, k)) && Spine(g, Pop(g, s, k))
    ensures ReadBounds(g, Pop(g, s, k))
  {
    assert forall i :: 0 <= i < |s.work| - 1 ==> Pop(g, s, k).work[i] == s.work[i];
  }

  lemma PopClosedBounds<N(!new)>(g: Graph<N>, s: State<N>, k: nat)
    requires CanPop(g, s, k) && Numbered(g, s) && Spine(g, s) && ClosedBounds(g, s)
    requires Numbered(g, Pop(g, s, k)) && Spine(g, Pop(g, s, k))
    ensures ClosedBounds(g, Pop(g, s, k))
  {
    var s' := Pop(g, s, k);
    assert forall i :: 0 <= i < |s'.work| ==> s'.work[i] == s.work[i];
    forall i, u, d | Between(g, s', i, u) && Edge(g, u, d) && d in s'.onStack
      ensures s'.low[s'.work[i].node] <= s'.index[d]
    {
      assert Between(g, s, i, u);
    }
  }

  lemma PopKeepsInv<N(!new)>(g: Graph<N>, s: State<N>, k: nat)
    requires Inv(g, s) && CanPop(g, s, k)
    ensures Inv(g, Pop(g, s, k))
  {
    hide Numbered, InOrder, Stacked, Spine, Explored, Downward, Upward, LowWitnessed, ReadBounds, ClosedBounds;
    PopNumbered(g, s, k);
    PopStacked(g, s, k);
    PopExplored(g, s, k);
    PopReach(g, s, k);
    PopWitness(g, s, k);
    PopReadBounds(g, s, k);
    PopClosedBounds(g, s, k);
    SameOrder(s, Pop(g, s, k));
  }

  /** The driver starts a search at a node not numbered yet. */
  ghost function Start<N>(g: Graph<N>, s: State<N>, n: N): State<N>
    requires n in g
  {
    State(
      s.index[n := |s.order|],
      s.low[n := |s.order|],
      s.order + [n],
      s.stack + [n],
      s.onStack + {n},
      [Frame(n, g[n])])
  }

  lemma StartInOrder<N(!new)>(g: Graph<N>, s: State<N>, n: N)
    requires n in g && n !in s.index && InOrder(s)
    ensures InOrder(Start(g, s, n))
  {
  }

  lemma StartShape<N(!new)>(g: Graph<N>, s: State<N>, n: N)
    requires Closed(g) && Numbered(g, s) && Stacked(g, s) && Explored(g, s)
    requires s.work == [] && n in g && n !in s.index
    ensures Numbered(g, Start(g, s, n)) && Stacked(g, Start(g, s, n))
    ensures Spine(g, Start(g, s, n)) && Explored(g, Start(g, s, n))
  {
    IdleStackEmpty(g, s);
    assert Start(g, s, n).work[0].node == n;
  }

  lemma StartReach<N(!new)>(g: Graph<N>, s: State<N>, n: N)
    requires n in g && s.work == [] && s.onStack == {}
    requires Numbered(g, Start(g, s, n)) && Spine(g, Start(g, s, n))
    ensures Downward(g, Start(g, s, n)) && Upward(g, Start(g, s, n))
    ensures LowWitnessed(g, Start(g, s, n))
    ensures ReadBounds(g, Start(g, s, n)) && ClosedBounds(g, Start(g, s, n))
  {
    ReachSelf(g, n);
    assert Start(g, s, n).work[0].node == n;
    assert HasLow(g, Start(g, s, n), n);
  }

  lemma StartKeepsInv<N(!new)>(g: Graph<N>, s: State<N>, n: N)
    requires Closed(g) && Inv(g, s) && s.work == []
    requires n in g && n !in s.index
    ensures Inv(g, Start(g, s, n))
  {
    hide Numbered, InOrder, Stacked, Spine, Explored, Downward, Upward, LowWitnessed, ReadBounds, ClosedBounds;
    StartShape(g, s, n);
    IdleStackEmpty(g, s);
    StartReach(g, s, n);
    StartInOrder(g, s, n);
  }

  /** Between two searches the stack is empty. */
  lemma IdleStackEmpty<N(!new)>(g: Graph<N>, s: State<N>)
    requires Numbered(g, s) && Stacked(g, s) && s.work == []
    ensures s.stack == [] && s.onStack == {}
  {
  }

  /** The groups popped so far partition the numbered nodes that left the stack, and each is
      one strongly connected component. */
  ghost predicate Grouped<N(!new)>(g: Graph<N>, s: State<N>, groups: seq<set<N>>) {
    && (forall i :: 0 <= i < |groups| ==> IsScc(g, groups[i]))
    && (forall i, n :: 0 <= i < |groups| && n in groups[i] ==> n in s.index && n !in s.onStack)
    && (forall n :: n in s.index && n !in s.onStack ==> InGroup(groups, n))
    && (forall i, j :: 0 <= i < j < |groups| ==> groups[i] !! groups[j])
  }

  ghost predicate InGroup<N>(groups: seq<set<N>>, n: N) {
    exists i :: 0 <= i < |groups| && n in groups[i]
  }

  lemma PopGroups<N(!new)>(g: Graph<N>, s: State<N>, k: nat, groups: seq<set<N>>)
    requires Numbered(g, s) && CanPop(g, s, k) && Grouped(g, s, groups)
    requires IsScc(g, Members(g, s))
    ensures Grouped(g, Pop(g, s, k), groups + [Members(g, s)])
  {
    var m := Members(g, s);
    var groups' := groups + [m];
    assert groups'[|groups|] == m;
    forall n | n in s.index && n !in s.onStack - m
      ensures InGroup(groups', n)
    {
      if n !in m {
        var i :| 0 <= i < |groups| && n in groups[i];
        assert groups'[i] == groups[i];
      }
    }
  }
}
