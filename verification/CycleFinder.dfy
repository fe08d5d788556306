/** The state and loops of `rule_cycles`: an iterative search for strongly connected
    components whose work list, numbers and stacks are updated in place. */
module CycleFinder {
  import opened Digraph
  import opened Orders
  import opened Tarjan
  import opened Wrappers

  /** The sorted member lists of the groups with at least two members. */
  ghost function Listings<N(!new)>(leq: (N, N) -> bool, groups: seq<set<N>>): seq<seq<N>>
    requires TotalOrder(leq)
  {
    if groups == [] then []
    else
      var last := groups[|groups| - 1];
      Listings(leq, groups[..|groups| - 1]) + if |last| > 1 then [SortedSet(leq, last)] else []
  }

  /** `c` is the sorted member list of a group with at least two members. */
  ghost predicate Listed<N(!new)>(leq: (N, N) -> bool, groups: seq<set<N>>, c: seq<N>)
    requires TotalOrder(leq)
  {
    exists i :: 0 <= i < |groups| && |groups[i]| > 1 && c == SortedSet(leq, groups[i])
  }

  lemma {:induction false} ListingsContents<N(!new)>(leq: (N, N) -> bool, groups: seq<set<N>>, c: seq<N>)
    requires TotalOrder(leq)
    ensures c in Listings(leq, groups) <==> Listed(leq, groups, c)
  {
    if groups != [] {
      var n := |groups| - 1;
      var front := groups[..n];
      ListingsContents(leq, front, c);
      if Listed(leq, front, c) {
        var i :| 0 <= i < n && |front[i]| > 1 && c == SortedSet(leq, front[i]);
        assert groups[i] == front[i];
      }
      if Listed(leq, groups, c) {
        var i :| 0 <= i <= n && |groups[i]| > 1 && c == SortedSet(leq, groups[i]);
        assert i < n ==> front[i] == groups[i];
      }
    }
  }

  lemma {:induction false} ListingsDistinct<N(!new)>(leq: (N, N) -> bool, groups: seq<set<N>>)
    requires TotalOrder(leq)
    requires forall i, j :: 0 <= i < j < |groups| ==> groups[i] !! groups[j]
    ensures Distinct(Listings(leq, groups))
  {
    if groups != [] && |groups[|groups| - 1]| > 1 {
      var n := |groups| - 1;
      var front := groups[..n];
      var last := SortedSet(leq, groups[n]);
      ListingsDistinct(leq, front);
      var x :| x in groups[n];
      forall k | 0 <= k < |Listings(leq, front)|
        ensures Listings(leq, front)[k] != last
      {
        var c := Listings(leq, front)[k];
        ListingsContents(leq, front, c);
        var i :| 0 <= i < n && |front[i]| > 1 && c == SortedSet(leq, front[i]);
        assert groups[i] !! groups[n];
        assert x in last;
      }
    } else if groups != [] {
      ListingsDistinct(leq, groups[..|groups| - 1]);
    }
  }

  class Finder<N(!new, ==)> {
    const graph: Graph<N>
    const leq: (N, N) -> bool
    var index: map<N, nat>
    var low: map<N, nat>
    var counter: nat
    var stack: seq<N>
    var onStack: set<N>
    var components: seq<seq<N>>
    /** The numbered nodes in the order they were numbered. */
    ghost var order: seq<N>
    /** Everything popped so far, one set for each popping, singletons included. */
    ghost var groups: seq<set<N>>

    ghost function View(work: seq<Frame<N>>): State<N>
      reads this
    {
      State(index, low, order, stack, onStack, work)
    }

    ghost predicate Valid(work: seq<Frame<N>>)
      reads this
    {
      && Closed(graph)
      && TotalOrder(leq)
      && counter == |order|
      && Inv(graph, View(work))
      && Grouped(graph, View(work), groups)
      && components == Listings(leq, groups)
    }

    constructor (graph: Graph<N>, leq: (N, N) -> bool)
      requires Closed(graph) && TotalOrder(leq)
      ensures Valid([])
      ensures this.graph == graph && this.leq == leq
      ensures index == map[] && order == [] && groups == []
    {
      this.graph := graph;
      this.leq := leq;
      index := map[];
      low := map[];
      counter := 0;
      stack := [];
      onStack := {};
      components := [];
      order := [];
      groups := [];
    }

    method Number(n: N)
      modifies this
      ensures index == old(index)[n := old(counter)]
      ensures low == old(low)[n := old(counter)]
      ensures counter == old(counter) + 1
      ensures stack == old(stack) + [n]
      ensures onStack == old(onStack) + {n}
      ensures order == old(order) + [n]
      ensures components == old(components) && groups == old(groups)
    {
      index := index[n := counter];
      low := low[n := counter];
      counter := counter + 1;
      stack := stack + [n];
      onStack := onStack + {n};
      order := order + [n];
    }

    /** Pop the stack down to `current`. */
    method PopMembers(current: N, ghost k: nat) returns (members: seq<N>)
      requires k < |stack| && stack[k] == current
      requires Distinct(stack) && onStack == ToSet(stack)
      modifies this`stack, this`onStack
      ensures stack == old(stack)[..k] && onStack == ToSet(stack)
      ensures Distinct(members) && ToSet(members) == ToSet(old(stack)[k..])
    {
      members := [];
      ghost var before := stack;
      while true
        invariant k < |stack| <= |before| && stack == before[..|stack|]
        invariant onStack == ToSet(stack)
        invariant Distinct(members) && ToSet(members) == ToSet(before[|stack|..])
        decreases |stack|
      {
        hide ToSet;
        var popped := stack[|stack| - 1];
        PopOne(before, |stack|, members);
        stack := stack[..|stack| - 1];
        onStack := onStack - {popped};
        members := members + [popped];
        if popped == current {
          break;
        }
      }
    }

    /** Pop the stack down to `current`, and record the members if there are several. */
    method PopComponent(current: N, ghost k: nat)
      requires k < |stack| && stack[k] == current
      requires Distinct(stack) && onStack == ToSet(stack)
      requires TotalOrder(leq) && components == Listings(leq, groups)
      modifies this`stack, this`onStack, this`components, this`groups
      ensures stack == old(stack)[..k] && onStack == ToSet(stack)
      ensures groups == old(groups) + [ToSet(old(stack)[k..])]
      ensures components == Listings(leq, groups)
    {
      var members := PopMembers(current, k);
      hide TotalOrder, Distinct;
      groups := groups + [ToSet(members)];
      assert groups[..|groups| - 1] == old(groups) && groups[|groups| - 1] == ToSet(members);
      SetSize(members);
      if |members| > 1 {
        SortOfDistinct(leq, members);
        components := components + [Sort(leq, members)];
      }
    }

    /** The children of `n`, all still to be read. */
    function Children(n: N): seq<N>
    {
      if n in graph then graph[n] else []
    }

    /** Read the top frame's next child, which is new, and open a frame for it. */
    method Descend(work: seq<Frame<N>>) returns (deeper: seq<Frame<N>>)
      requires Valid(work) && CanVisit(graph, View(work))
      modifies this
      ensures Valid(deeper)
      ensures index.Keys == old(index.Keys) + {work[|work| - 1].rest[0]}
    {
      hide Explored, Downward, Upward, LowWitnessed, ReadBounds, ClosedBounds, Grouped;
      ghost var s := View(work);
      VisitKeepsInv(graph, s);
      var top := work[|work| - 1];
      var child := top.rest[0];
      Number(child);
      deeper := work[|work| - 1 := Frame(top.node, top.rest[1..])] + [Frame(child, Children(child))];
      assert View(deeper) == Visit(graph, s);
      GroupedKept(graph, s, View(deeper), groups);
    }

    /** Read the top frame's next child, which is already numbered. */
    method Skip(work: seq<Frame<N>>) returns (shorter: seq<Frame<N>>)
      requires Valid(work) && CanRead(graph, View(work))
      modifies this`low
      ensures Valid(shorter)
      ensures |shorter| == |work|
      ensures shorter[|work| - 1] == Frame(work[|work| - 1].node, work[|work| - 1].rest[1..])
    {
      hide Explored, Downward, Upward, LowWitnessed, ReadBounds, ClosedBounds, Grouped;
      ghost var s := View(work);
      ReadKeepsInv(graph, s);
      var top := work[|work| - 1];
      var child := top.rest[0];
      if child in onStack {
        low := low[top.node := Min(low[top.node], index[child])];
      }
      shorter := work[|work| - 1 := Frame(top.node, top.rest[1..])];
      assert View(shorter) == Read(graph, s);
      GroupedKept(graph, s, View(shorter), groups);
    }

    /** Drop the used-up top frame; pop its component if it was the component's first node. */
    method Finish(work: seq<Frame<N>>) returns (shorter: seq<Frame<N>>)
      requires Valid(work) && CanRetire(graph, View(work))
      modifies this
      ensures Valid(shorter)
      ensures shorter == work[..|work| - 1]
      ensures index == old(index)
    {
      hide Numbered, InOrder, Stacked, Spine, Explored, Downward, Upward;
      hide LowWitnessed, ReadBounds, ClosedBounds, Grouped;
      ghost var s := View(work);
      ghost var k := RetireOutcome(graph, s, groups);
      var current := work[|work| - 1].node;
      shorter := work[..|work| - 1];
      if shorter != [] {
        var parent := shorter[|shorter| - 1].node;
        low := low[parent := Min(low[parent], low[current])];
      }
      assert View(shorter) == Retire(graph, s);
      if low[current] == index[current] {
        PopComponent(current, k);
        assert View(shorter) == Pop(graph, s, k);
      }
    }

    /** Number and stack `node`, and open the first frame of a search. */
    method Begin(node: N) returns (work: seq<Frame<N>>)
      requires Valid([]) && node in graph && node !in index
      modifies this
      ensures Valid(work)
      ensures index.Keys == old(index.Keys) + {node}
    {
      hide Explored, Downward, Upward, LowWitnessed, ReadBounds, ClosedBounds, Grouped;
      ghost var s := View([]);
      StartKeepsInv(graph, s, node);
      work := [Frame(node, Children(node))];
      Number(node);
      assert View(work) == Start(graph, s, node);
      GroupedKept(graph, s, View(work), groups);
    }

    /** What the next step on a non-empty work list needs. */
    lemma TopReady(work: seq<Frame<N>>)
      requires Valid(work) && work != []
      ensures work[|work| - 1].rest == [] ==> CanRetire(graph, View(work))
      ensures work[|work| - 1].rest != [] ==>
        if work[|work| - 1].rest[0] in index then CanRead(graph, View(work)) else CanVisit(graph, View(work))
      ensures forall c :: c in work[|work| - 1].rest ==> c in graph
    {
      hide Explored, Downward, Upward, LowWitnessed, ReadBounds, ClosedBounds, Grouped;
      var top := work[|work| - 1];
      assert top.rest != [] ==> Edge(graph, top.node, top.rest[0]);
    }

    /** Search from `node` until the work list is used up. */
    method StrongConnect(node: N)
      requires Valid([])
      requires node in graph && node !in index
      modifies this
      ensures Valid([])
      ensures old(index.Keys) + {node} <= index.Keys
    {
      hide Valid, CanRead, CanRetire, CanVisit;
      var work := Begin(node);
      while work != []
        invariant Valid(work)
        invariant old(index.Keys) + {node} <= index.Keys
        decreases graph.Keys - index.Keys, |work|
      {
        ghost var k := |work|;
        ghost var unnumbered := graph.Keys - index.Keys;
        var current := work[|work| - 1].node;
        var advanced := false;
        while work[|work| - 1].rest != []
          invariant Valid(work) && !advanced
          invariant |work| == k && work[k - 1].node == current
          invariant old(index.Keys) + {node} <= index.Keys
          invariant graph.Keys - index.Keys == unnumbered
          decreases |work[|work| - 1].rest|
        {
          var child := work[|work| - 1].rest[0];
          TopReady(work);
          if child !in index {
            work := Descend(work);
            advanced := true;
            assert graph.Keys - index.Keys == unnumbered - {child} < unnumbered;
            break;
          }
          work := Skip(work);
        }
        if advanced {
          continue;
        }
        TopReady(work);
        work := Finish(work);
      }
    }

    /** Between searches the stack is empty and the visiting order lists the numbered nodes once. */
    lemma Idle()
      requires Valid([])
      ensures onStack == {}
      ensures Distinct(order) && ToSet(order) == index.Keys
    {
      hide Spine, Explored, Downward, Upward, LowWitnessed, ReadBounds, ClosedBounds, Grouped;
      IdleStackEmpty(graph, View([]));
      assert forall n :: n in index ==> order[index[n]] == n;
    }

    /** The driver loop, over all nodes in sorted order. */
    method Run()
      requires Valid([])
      modifies this
      ensures Valid([])
      ensures index.Keys == graph.Keys && onStack == {}
      ensures Distinct(order) && ToSet(order) == graph.Keys
    {
      hide *;
      var nodes := Nodes();
      for i := 0 to |nodes|
        invariant Valid([])
        invariant forall k :: 0 <= k < i ==> nodes[k] in index
      {
        if nodes[i] !in index {
          StrongConnect(nodes[i]);
        }
      }
      Idle();
      NumbersStayInside();
    }

    method Nodes() returns (nodes: seq<N>)
      requires Valid([])
      ensures StrictlySorted(leq, nodes)
      ensures forall n :: n in nodes <==> n in graph
    {
      hide Inv, Grouped;
      nodes := SortedSet(leq, graph.Keys);
    }

    lemma NumbersStayInside()
      requires Valid([])
      ensures index.Keys <= graph.Keys
    {
      hide Spine, Explored, Downward, Upward, LowWitnessed, ReadBounds, ClosedBounds, Grouped;
    }
  }

  lemma GroupedKept<N(!new)>(g: Graph<N>, s: State<N>, s': State<N>, groups: seq<set<N>>)
    requires Grouped(g, s, groups)
    requires forall n :: (n in s.index && n !in s.onStack) <==> (n in s'.index && n !in s'.onStack)
    ensures Grouped(g, s', groups)
  {
  }

  /** What dropping the top frame leads to: its node stays stacked, or its component is popped. */
  lemma RetireOutcome<N(!new)>(g: Graph<N>, s: State<N>, groups: seq<set<N>>) returns (k: nat)
    requires Inv(g, s) && CanRetire(g, s) && Grouped(g, s, groups)
    ensures
      var v := s.work[|s.work| - 1].node;
      && Retire(g, s).low[v] == s.low[v]
      && (s.low[v] != s.index[v] ==> Inv(g, Retire(g, s)) && Grouped(g, Retire(g, s), groups))
      && (s.low[v] == s.index[v] ==>
            && CanPop(g, s, k)
            && Inv(g, Pop(g, s, k))
            && Grouped(g, Pop(g, s, k), groups + [Members(g, s)])
            && Distinct(s.stack) && s.onStack == ToSet(s.stack)
            && ToSet(s.stack[k..]) == Members(g, s)
            && ToSet(s.stack[..k]) == s.onStack - Members(g, s))
  {
    hide Explored, Downward, Upward, LowWitnessed, ReadBounds, ClosedBounds, Grouped, InOrder;
    var v := s.work[|s.work| - 1].node;
    k := TopPosition(g, s);
    assert |s.work| > 1 ==> s.index[s.work[|s.work| - 2].node] < s.index[v];
    hide Numbered, Stacked, Spine;
    if s.low[v] == s.index[v] {
      PopKeepsInv(g, s, k);
      PopsScc(g, s);
      PopGroups(g, s, k, groups);
      StackSlices(g, s, k);
    } else {
      LowAtMostIndex(g, s, v);
      RetireKeepsInv(g, s);
      GroupedKept(g, s, Retire(g, s), groups);
    }
  }

  lemma LowAtMostIndex<N(!new)>(g: Graph<N>, s: State<N>, n: N)
    requires Numbered(g, s) && n in s.index
    ensures n in s.low && s.low[n] <= s.index[n]
  {
  }

  lemma TopPosition<N(!new)>(g: Graph<N>, s: State<N>) returns (k: nat)
    requires CanRetire(g, s) && Numbered(g, s) && Stacked(g, s) && Spine(g, s)
    ensures k < |s.stack| && s.stack[k] == s.work[|s.work| - 1].node
  {
    var v := s.work[|s.work| - 1].node;
    assert v in s.onStack;
    k :| 0 <= k < |s.stack| && s.stack[k] == v;
  }

  lemma StackSlices<N(!new)>(g: Graph<N>, s: State<N>, k: nat)
    requires CanPop(g, s, k) && Numbered(g, s) && Stacked(g, s)
    ensures Distinct(s.stack) && s.onStack == ToSet(s.stack)
    ensures ToSet(s.stack[k..]) == Members(g, s)
    ensures ToSet(s.stack[..k]) == s.onStack - Members(g, s)
  {
  }

  lemma PopOne<N>(before: seq<N>, n: nat, members: seq<N>)
    requires Distinct(before) && 0 < n <= |before|
    requires Distinct(members) && ToSet(members) == ToSet(before[n..])
    ensures ToSet(before[..n]) - {before[n - 1]} == ToSet(before[..n - 1])
    ensures Distinct(members + [before[n - 1]])
    ensures ToSet(members + [before[n - 1]]) == ToSet(before[n - 1..])
  {
    var x := before[n - 1];
    assert before[..n] == before[..n - 1] + [x];
    assert before[n - 1..] == [x] + before[n..];
    ToSetConcat(before[..n - 1], [x]);
    ToSetConcat(members, [x]);
    ToSetConcat([x], before[n..]);
    assert x !in ToSet(before[n..]);
    assert x in members ==> x in ToSet(members);
  }

  lemma {:induction false} SetSize<N>(s: seq<N>)
    requires Distinct(s)
    ensures |ToSet(s)| == |s|
  {
    if s != [] {
      SetSize(s[1..]);
      assert ToSet(s) == {s[0]} + ToSet(s[1..]);
    }
  }
}
