/** `rule_cycles`: every dependency cycle between workspace crates is reported, and nothing else. */
module ArchRules {
  import opened Digraph
  import opened Orders
  import opened Tarjan
  import opened CycleFinder
  import opened Sequences

  datatype Crate = Crate(name: string, relDir: string, pathDeps: map<string, string>)

  datatype Violation = Violation(rule: string, key: string, message: string, paths: seq<string>)

  type Crates = map<string, Crate>

  function EdgeTargets(crate: Crate, crates: Crates): seq<string> {
    StringsOrdered();
    SortedSet(StringLeq(), set t | t in crate.pathDeps.Values && t in crates && t != crate.name)
  }

  function DependencyGraph(crates: Crates): Graph<string> {
    map n | n in crates :: EdgeTargets(crates[n], crates)
  }

  /** Edges run between workspace crates, along declared path dependencies, never from a crate
      to its own name. */
  lemma EdgesAreDependencies(crates: Crates, a: string, b: string)
    ensures Edge(DependencyGraph(crates), a, b) <==>
      a in crates && b in crates && b in crates[a].pathDeps.Values && b != crates[a].name
    ensures Closed(DependencyGraph(crates))
  {
  }

  function Join(sep: string, parts: seq<string>): string {
    if parts == [] then ""
    else if |parts| == 1 then parts[0]
    else parts[0] + sep + Join(sep, parts[1..])
  }

  ghost predicate Known(crates: Crates, members: seq<string>) {
    forall m :: m in members ==> m in crates
  }

  ghost predicate AllKnown(crates: Crates, cycles: seq<seq<string>>) {
    forall c :: c in cycles ==> Known(crates, c)
  }

  function Manifests(crates: Crates, members: seq<string>): seq<string>
    requires Known(crates, members)
  {
    if members == [] then []
    else [crates[members[0]].relDir + "/Cargo.toml"] + Manifests(crates, members[1..])
  }

  function Report(crates: Crates, members: seq<string>): Violation
    requires Known(crates, members)
  {
    Violation(
      "cycle",
      Join("~", members),
      "dependency cycle among " + Join(", ", members) + "; cargo accepts it only "
      + "because the edges are split across lib/bin targets -- it defeats "
      + "incremental rebuild and layer reasoning",
      Manifests(crates, members))
  }

  /** `members` lists, in increasing order, a strongly connected component of several crates. */
  ghost predicate IsCycle(g: Graph<string>, members: seq<string>) {
    StrictlySorted(StringLeq(), members) && |members| >= 2 && IsScc(g, ToSet(members))
  }

  /** `cycles` lists every cycle of `g` exactly once, in increasing order. */
  ghost predicate ListsCycles(g: Graph<string>, cycles: seq<seq<string>>) {
    && StrictlySorted(Lex(StringLeq()), cycles)
    && forall c :: c in cycles <==> IsCycle(g, c)
  }

  /** What one listed cycle adds to the violations. */
  function Adds(crates: Crates, allowed: set<string>, last: seq<string>): seq<Violation>
    requires Known(crates, last)
  {
    if Join("~", last) in allowed then [] else [Report(crates, last)]
  }

  /** The violations for the listed cycles that are not on the allow list. */
  function Emit(crates: Crates, allowed: set<string>, cycles: seq<seq<string>>): seq<Violation>
    requires AllKnown(crates, cycles)
  {
    if cycles == [] then []
    else
      var last := cycles[|cycles| - 1];
      Emit(crates, allowed, cycles[..|cycles| - 1]) + Adds(crates, allowed, last)
  }

  lemma CyclesHoldCrates(crates: Crates, cycles: seq<seq<string>>)
    requires ListsCycles(DependencyGraph(crates), cycles)
    ensures AllKnown(crates, cycles)
  {
    forall c, m | c in cycles && m in c
      ensures m in crates
    {
      assert m in ToSet(c);
    }
  }

  /** Search the whole graph and sort the components found. */
  method FindCycles(g: Graph<string>) returns (cycles: seq<seq<string>>)
    requires Closed(g)
    ensures ListsCycles(g, cycles)
  {
    hide Inv, Grouped, IsCycle, Listings;
    StringsOrdered();
    var finder := new Finder(g, StringLeq());
    finder.Run();
    ComponentsAreCycles(g, finder.View([]), finder.groups);
    cycles := Sort(Lex(StringLeq()), finder.components);
    SortOfDistinct(Lex(StringLeq()), finder.components);
    assert forall c :: c in cycles <==> c in ToSet(finder.components);
  }

  method RuleCycles(crates: Crates, allowed: set<string>) returns (out: seq<Violation>)
    ensures exists cycles ::
      && ListsCycles(DependencyGraph(crates), cycles)
      && AllKnown(crates, cycles)
      && out == Emit(crates, allowed, cycles)
    ensures exists cycles, picks ::
      ListsCycles(DependencyGraph(crates), cycles) && Reported(crates, allowed, cycles, out, picks)
  {
    hide ListsCycles, DependencyGraph, Closed, Edge, Join, Report, Reported;
    EdgesAreDependencies(crates, "", "");
    var cycles := FindCycles(DependencyGraph(crates));
    CyclesHoldCrates(crates, cycles);
    out := [];
    for i := 0 to |cycles|
      invariant out == Emit(crates, allowed, cycles[..i])
    {
      var members := cycles[i];
      assert cycles[..i + 1][..i] == cycles[..i];
      if Join("~", members) in allowed {
        continue;
      }
      out := out + [Report(crates, members)];
    }
    assert cycles[..|cycles|] == cycles;
    ghost var picks := EmitReports(crates, allowed, cycles);
  }

  /** Once every node has left the stack, the recorded components are the cycles of the graph,
      each recorded once. */
  lemma ComponentsAreCycles(g: Graph<string>, s: State<string>, groups: seq<set<string>>)
    requires TotalOrder(StringLeq())
    requires Grouped(g, s, groups) && s.index.Keys == g.Keys && s.onStack == {}
    ensures Distinct(Listings(StringLeq(), groups))
    ensures forall c :: c in Listings(StringLeq(), groups) <==> IsCycle(g, c)
  {
    ListingsDistinct(StringLeq(), groups);
    forall c
      ensures c in Listings(StringLeq(), groups) <==> IsCycle(g, c)
    {
      ListingsContents(StringLeq(), groups, c);
      CycleIsListed(g, s, groups, c);
    }
  }

  lemma CycleIsListed(g: Graph<string>, s: State<string>, groups: seq<set<string>>, c: seq<string>)
    requires TotalOrder(StringLeq())
    requires Grouped(g, s, groups) && s.index.Keys == g.Keys && s.onStack == {}
    ensures Listed(StringLeq(), groups, c) <==> IsCycle(g, c)
  {
    if IsCycle(g, c) {
      assert c[0] in ToSet(c);
      assert InGroup(groups, c[0]);
      var i :| 0 <= i < |groups| && c[0] in groups[i];
      SccUnique(g, groups[i], ToSet(c), c[0]);
      assert ToSet(SortedSet(StringLeq(), groups[i])) == groups[i];
      StrictlySortedUnique(StringLeq(), c, SortedSet(StringLeq(), groups[i]));
      SetSize(c);
    }
    if Listed(StringLeq(), groups, c) {
      var i :| 0 <= i < |groups| && |groups[i]| > 1 && c == SortedSet(StringLeq(), groups[i]);
      assert ToSet(c) == groups[i];
      SetSize(c);
    }
  }

  /** Two crates share a listed cycle exactly when they differ and each reaches the other. */
  lemma SameCycleIffMutual(g: Graph<string>, cycles: seq<seq<string>>, a: string, b: string)
    requires ListsCycles(g, cycles) && a in g && b in g && a != b
    ensures (exists c :: c in cycles && a in c && b in c) <==> Mutual(g, a, b)
  {
    hide Mutual, StringLeq;
    if Mutual(g, a, b) {
      var c := CycleThrough(g, a, b);
      assert c in cycles;
    }
    forall c | c in cycles && a in c && b in c
      ensures Mutual(g, a, b)
    {
      assert a in ToSet(c) && b in ToSet(c);
    }
  }

  lemma CycleThrough(g: Graph<string>, a: string, b: string) returns (c: seq<string>)
    requires a in g && b in g && a != b && Mutual(g, a, b)
    ensures IsCycle(g, c) && a in c && b in c
  {
    StringsOrdered();
    var scc := set x | x in g && Mutual(g, a, x);
    ComponentOf(g, a, scc);
    hide Mutual, StringLeq;
    c := SortedSet(StringLeq(), scc);
    assert ToSet(c) == scc;
    assert |c| >= 2;
  }

  lemma ComponentOf(g: Graph<string>, a: string, scc: set<string>)
    requires a in g && scc == set x | x in g && Mutual(g, a, x)
    ensures IsScc(g, scc)
  {
    ReachSelf(g, a);
    assert a in scc;
    forall x, y | x in scc && y in g
      ensures y in scc <==> Mutual(g, x, y)
    {
      if y in scc {
        ReachTrans(g, x, a, y);
        ReachTrans(g, y, a, x);
      } else if Mutual(g, x, y) {
        ReachTrans(g, a, x, y);
        ReachTrans(g, y, x, a);
      }
    }
  }

  // ---------------------------------------------------------------- what a report says

  /** The pieces of `s` between the separators `c`. */
  function Cut(c: char, s: string): (pieces: seq<string>)
    ensures pieces != []
  {
    if s == [] then [""]
    else
      var later := Cut(c, s[1..]);
      if s[0] == c then [""] + later else [[s[0]] + later[0]] + later[1..]
  }

  lemma {:induction false} CutPiece(c: char, piece: string, rest: string)
    requires c !in piece
    ensures Cut(c, piece) == [piece]
    ensures Cut(c, piece + [c] + rest) == [piece] + Cut(c, rest)
    decreases |piece|
  {
    if piece == [] {
      assert (piece + [c] + rest)[1..] == rest;
    } else {
      CutPiece(c, piece[1..], rest);
      assert (piece + [c] + rest)[1..] == piece[1..] + [c] + rest;
      assert [piece[0]] + piece[1..] == piece;
    }
  }

  /** Cutting a joined list gives it back, if no part contains the separator. */
  lemma {:induction false} JoinCuts(c: char, parts: seq<string>)
    requires parts != [] && forall p :: p in parts ==> c !in p
    ensures Cut(c, Join([c], parts)) == parts
  {
    CutPiece(c, parts[0], Join([c], parts[1..]));
    if |parts| > 1 {
      JoinCuts(c, parts[1..]);
    }
  }

  /** And joining what was cut gives the text back, so a text is cut in one way only. */
  lemma {:induction false} CutJoins(c: char, s: string)
    ensures Join([c], Cut(c, s)) == s
  {
    if s != [] {
      CutJoins(c, s[1..]);
      var later := Cut(c, s[1..]);
      if s[0] == c {
        assert ([""] + later)[1..] == later && "" + [c] + s[1..] == s;
      } else {
        var all := [[s[0]] + later[0]] + later[1..];
        assert all[1..] == later[1..] && s == [s[0]] + s[1..];
        if |later| > 1 {
          assert [s[0]] + later[0] + [c] + Join([c], later[1..]) == [s[0]] + (later[0] + [c] + Join([c], later[1..]));
        }
      }
    }
  }

  /** Joining two parts, and one more part, for any separator. */
  lemma {:induction false} JoinExtends(sep: string, parts: seq<string>, last: string)
    ensures Join(sep, [last]) == last
    ensures parts != [] ==> Join(sep, parts + [last]) == Join(sep, parts) + sep + last
  {
    if |parts| == 1 {
      assert (parts + [last])[1..] == [last];
    } else if parts != [] {
      JoinExtends(sep, parts[1..], last);
      assert (parts + [last])[1..] == parts[1..] + [last];
      assert parts[0] + sep + (Join(sep, parts[1..]) + sep + last)
          == parts[0] + sep + Join(sep, parts[1..]) + sep + last;
    }
  }

  lemma JoinPair(sep: string, a: string, b: string)
    ensures Join(sep, [a, b]) == a + sep + b
  {
    JoinExtends(sep, [a], b);
    assert [a] + [b] == [a, b];
  }

  lemma {:induction false} ManifestsInOrder(crates: Crates, members: seq<string>)
    requires Known(crates, members)
    ensures |Manifests(crates, members)| == |members|
    ensures forall i :: 0 <= i < |members| ==>
      Manifests(crates, members)[i] == crates[members[i]].relDir + "/Cargo.toml"
  {
    if members != [] {
      ManifestsInOrder(crates, members[1..]);
    }
  }

  predicate Separable(members: seq<string>) {
    members != [] && forall m :: m in members ==> '~' !in m
  }

  /** `v` reports the cycle of `members`: the rule's name, the members as its key cut at `~`, and their
      manifests in the same order. */
  ghost predicate Describes(crates: Crates, v: Violation, members: seq<string>) {
    && Known(crates, members)
    && v.rule == "cycle"
    && (Separable(members) ==> Cut('~', v.key) == members)
    && "dependency cycle among " + Join(", ", members) <= v.message
    && |v.paths| == |members|
    && (forall i :: 0 <= i < |members| ==> v.paths[i] == crates[members[i]].relDir + "/Cargo.toml")
  }

  /** The cycle of `members` is on the allow list. */
  ghost predicate Allowed(allowed: set<string>, members: seq<string>) {
    exists k :: k in allowed && Cut('~', k) == members
  }

  lemma ReportDescribes(crates: Crates, allowed: set<string>, members: seq<string>)
    requires Known(crates, members)
    ensures Describes(crates, Report(crates, members), members)
    ensures Separable(members) ==> (Join("~", members) in allowed <==> Allowed(allowed, members))
  {
    ManifestsInOrder(crates, members);
    hide Manifests, Known, Join;
    if Separable(members) {
      JoinCuts('~', members);
      forall k | Cut('~', k) == members
        ensures k == Join("~", members)
      {
        CutJoins('~', k);
      }
    }
  }

  /** Violation `k` is about cycle `picks[k]`, and the violations keep the order of the cycles. */
  ghost predicate InOrder(crates: Crates, cycles: seq<seq<string>>, out: seq<Violation>, picks: seq<int>) {
    && Increasing(picks) && |picks| == |out|
    && forall k :: 0 <= k < |picks| ==>
         0 <= picks[k] < |cycles| && Describes(crates, out[k], cycles[picks[k]])
  }

  /** The picked cycles are those not on the allow list. */
  ghost predicate Chosen(allowed: set<string>, cycles: seq<seq<string>>, picks: seq<int>) {
    forall i :: 0 <= i < |cycles| && Separable(cycles[i]) ==> (i in picks <==> !Allowed(allowed, cycles[i]))
  }

  /** The violations are, in order, one for each listed cycle that is not on the allow list. */
  ghost predicate Reported(
      crates: Crates, allowed: set<string>, cycles: seq<seq<string>>, out: seq<Violation>, picks: seq<int>)
  {
    InOrder(crates, cycles, out, picks) && Chosen(allowed, cycles, picks)
  }

  lemma {:induction false} EmitReports(crates: Crates, allowed: set<string>, cycles: seq<seq<string>>)
    returns (picks: seq<int>)
    requires AllKnown(crates, cycles)
    ensures Reported(crates, allowed, cycles, Emit(crates, allowed, cycles), picks)
  {
    hide Describes, Allowed, Separable, Join, Report;
    if cycles == [] {
      picks := [];
    } else {
      hide *;
      var front, last := cycles[..|cycles| - 1], cycles[|cycles| - 1];
      var before := EmitReports(crates, allowed, front);
      assert cycles == front + [last];
      picks := EmitReportsMore(crates, allowed, front, last, before);
    }
  }

  lemma EmitReportsMore(crates: Crates, allowed: set<string>, cycles: seq<seq<string>>, last: seq<string>,
                        picks: seq<int>) returns (more: seq<int>)
    requires AllKnown(crates, cycles)
    requires Known(crates, last)
    requires Reported(crates, allowed, cycles, Emit(crates, allowed, cycles), picks)
    ensures AllKnown(crates, cycles + [last])
      && Reported(crates, allowed, cycles + [last], Emit(crates, allowed, cycles + [last]), more)
  {
    assert (cycles + [last])[..|cycles|] == cycles;
    assert Emit(crates, allowed, cycles + [last]) == Emit(crates, allowed, cycles) + Adds(crates, allowed, last);
    hide *;
    more := OneMoreReport(crates, allowed, cycles, last, Emit(crates, allowed, cycles), picks);
  }

  lemma OneMoreReport(crates: Crates, allowed: set<string>, cycles: seq<seq<string>>, last: seq<string>,
                      out: seq<Violation>, picks: seq<int>) returns (more: seq<int>)
    requires Known(crates, last)
    requires Reported(crates, allowed, cycles, out, picks)
    ensures Reported(crates, allowed, cycles + [last], out + Adds(crates, allowed, last), more)
  {
    hide Describes, Allowed, Separable, Join, Report;
    ReportDescribes(crates, allowed, last);
    more := picks + if Join("~", last) in allowed then [] else [|cycles|];
    MorePicks(picks, |cycles|, more);
    assert Chosen(allowed, cycles + [last], more) by {
      MoreChosen(allowed, cycles, last, picks, more);
    }
    hide Chosen;
  }

  lemma MoreChosen(allowed: set<string>, cycles: seq<seq<string>>, last: seq<string>, picks: seq<int>, more: seq<int>)
    requires Chosen(allowed, cycles, picks)
    requires forall i :: i in more <==> i in picks || (i == |cycles| && more != picks)
    requires forall i :: i in picks ==> i < |cycles|
    requires Separable(last) ==> (more != picks <==> !Allowed(allowed, last))
    ensures Chosen(allowed, cycles + [last], more)
  {
    hide Allowed, Separable;
    forall i | 0 <= i < |cycles| + 1 && Separable((cycles + [last])[i])
      ensures i in more <==> !Allowed(allowed, (cycles + [last])[i])
    {
      assert i < |cycles| ==> (cycles + [last])[i] == cycles[i];
    }
  }

  /** `v` is the report of a cycle that is not on the allow list. */
  ghost predicate IsReport(crates: Crates, allowed: set<string>, cycles: seq<seq<string>>, v: Violation)
    requires AllKnown(crates, cycles)
  {
    exists c :: c in cycles && Join("~", c) !in allowed && v == Report(crates, c)
  }

  /** A cycle is reported exactly when it is not on the allow list, and every report is one. */
  lemma {:induction false} EmitExact(crates: Crates, allowed: set<string>, cycles: seq<seq<string>>, v: Violation)
    requires AllKnown(crates, cycles)
    ensures v in Emit(crates, allowed, cycles) <==> IsReport(crates, allowed, cycles, v)
  {
    hide Join, Report, Known;
    if cycles != [] {
      var front, last := cycles[..|cycles| - 1], cycles[|cycles| - 1];
      EmitExact(crates, allowed, front, v);
      assert cycles == front + [last];
      hide Emit;
      OneMoreCycle(crates, allowed, front, last, v);
    }
  }

  lemma OneMoreCycle(crates: Crates, allowed: set<string>, front: seq<seq<string>>, last: seq<string>, v: Violation)
    requires AllKnown(crates, front + [last]) && AllKnown(crates, front) && Known(crates, last)
    ensures IsReport(crates, allowed, front + [last], v)
      <==> IsReport(crates, allowed, front, v) || v in Adds(crates, allowed, last)
  {
    hide Join, Report, Known;
    assert last in front + [last];
    assert forall c :: c in front + [last] <==> c in front || c == last;
  }
}
