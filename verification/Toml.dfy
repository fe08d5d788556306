/** Parsed TOML values, the deep merge of two values, and what a merge does to each path. */
module Toml {
  import opened Wrappers

  datatype Scalar =
    | Str(s: string)
    | Integer(n: int)
    | Float(text: string)
    | Boolean(b: bool)
    | Datetime(text: string)

  type Tbl = map<string, Value>

  datatype Value =
    | Leaf(scalar: Scalar)
    | Array(items: seq<Value>)
    | Table(entries: Tbl)

  type Path = seq<string>

  // ---------------------------------------------------------------- merging

  /** What `deep_merge_toml` leaves in its first argument: tables are merged key by key,
      anything else is replaced by the overriding value. */
  function Merge(base: Value, over: Value): Value
    decreases over
  {
    if base.Table? && over.Table? then
      Table(map k | k in base.entries.Keys + over.entries.Keys ::
        if k !in over.entries then base.entries[k]
        else if k in base.entries then Merge(base.entries[k], over.entries[k])
        else over.entries[k])
    else over
  }

  method DeepMerge(base: Value, over: Value) returns (merged: Value)
    ensures merged == Merge(base, over)
    decreases over
  {
    if over.Table? && base.Table? {
      var table := base.entries;
      var todo := over.entries.Keys;
      while todo != {}
        invariant todo <= over.entries.Keys
        invariant table.Keys == base.entries.Keys + (over.entries.Keys - todo)
        invariant forall k :: k in table ==>
          table[k] == if k in over.entries && k !in todo then Merge(base, over).entries[k] else base.entries[k]
        decreases todo
      {
        var key :| key in todo;
        var value := over.entries[key];
        if key in table {
          var existing := DeepMerge(table[key], value);
          table := table[key := existing];
        } else {
          table := table[key := value];
        }
        todo := todo - {key};
      }
      merged := Table(table);
      assert table == Merge(base, over).entries;
    } else {
      merged := over;
    }
  }

  function MergeAll(base: Value, layers: seq<Value>): Value
    decreases |layers|
  {
    if layers == [] then base else MergeAll(Merge(base, layers[0]), layers[1..])
  }

  // ---------------------------------------------------------------- paths

  /** The value stored at `p`, if there is one. */
  function Get(v: Value, p: Path): Option<Value> {
    if p == [] then Some(v)
    else if v.Table? && p[0] in v.entries then Get(v.entries[p[0]], p[1..])
    else None
  }

  /** How an overriding value bears on a path: it says nothing about it, it cuts it off by
      putting a non-table above it, or it sets the value there. */
  datatype Bearing = Untouched | Cut | Sets(value: Value)

  function Bears(over: Value, p: Path): Bearing {
    if p == [] then Sets(over)
    else if !over.Table? then Cut
    else if p[0] in over.entries then Bears(over.entries[p[0]], p[1..])
    else Untouched
  }

  function After(b: Bearing, prior: Option<Value>): Option<Value> {
    match b
    case Untouched => prior
    case Cut => None
    case Sets(v) => if prior.Some? then Some(Merge(prior.value, v)) else Some(v)
  }

  /** The value at a path after a merge depends only on the value there before it and on how
      the overriding value bears on the path. */
  lemma {:induction false} PathLaw(base: Value, over: Value, p: Path)
    ensures Get(Merge(base, over), p) == After(Bears(over, p), Get(base, p))
    decreases |p|
  {
    if p != [] && over.Table? && p[0] in over.entries {
      if base.Table? && p[0] in base.entries {
        PathLaw(base.entries[p[0]], over.entries[p[0]], p[1..]);
      } else {
        BearsAlone(over.entries[p[0]], p[1..]);
      }
    }
  }

  lemma {:induction false} BearsAlone(v: Value, p: Path)
    ensures Get(v, p) == After(Bears(v, p), None)
    decreases |p|
  {
    if p != [] && v.Table? && p[0] in v.entries {
      BearsAlone(v.entries[p[0]], p[1..]);
    }
  }

  // ---------------------------------------------------------------- kinds of nodes

  /** What is seen at a path without looking below it. */
  datatype Node = Absent | Inner | Data(value: Value)

  function NodeOf(v: Option<Value>): Node {
    match v
    case None => Absent
    case Some(Table(_)) => Inner
    case Some(w) => Data(w)
  }

  function At(v: Value, p: Path): Node {
    NodeOf(Get(v, p))
  }

  /** One layer acts on the node at a path either not at all or by fixing it. */
  function Overlay(over: Value, p: Path, prior: Node): Node {
    match Bears(over, p)
    case Untouched => prior
    case Cut => Absent
    case Sets(v) => NodeOf(Some(v))
  }

  function OverlayAll(layers: seq<Value>, p: Path, prior: Node): Node {
    if layers == [] then prior else OverlayAll(layers[1..], p, Overlay(layers[0], p, prior))
  }

  lemma MergeAt(base: Value, over: Value, p: Path)
    ensures At(Merge(base, over), p) == Overlay(over, p, At(base, p))
  {
    PathLaw(base, over, p);
  }

  lemma {:induction false} MergeAllAt(base: Value, layers: seq<Value>, p: Path)
    ensures At(MergeAll(base, layers), p) == OverlayAll(layers, p, At(base, p))
    decreases |layers|
  {
    if layers != [] {
      MergeAllAt(Merge(base, layers[0]), layers[1..], p);
      MergeAt(base, layers[0], p);
    }
  }

  predicate AllUntouched(layers: seq<Value>, p: Path) {
    forall i :: 0 <= i < |layers| ==> Bears(layers[i], p) == Untouched
  }

  /** Layers that all leave a path alone pass the node on; otherwise it no longer matters
      what was there. */
  lemma {:induction false} OverlayAllFixesOrPasses(layers: seq<Value>, p: Path, prior: Node, other: Node)
    ensures AllUntouched(layers, p) ==> OverlayAll(layers, p, prior) == prior
    ensures !AllUntouched(layers, p) ==> OverlayAll(layers, p, prior) == OverlayAll(layers, p, other)
    decreases |layers|
  {
    if layers != [] {
      var o, o' := Overlay(layers[0], p, prior), Overlay(layers[0], p, other);
      OverlayAllFixesOrPasses(layers[1..], p, o, o');
      assert forall i :: 1 <= i < |layers| ==> layers[1..][i - 1] == layers[i];
      assert AllUntouched(layers, p) <==>
        Bears(layers[0], p) == Untouched && AllUntouched(layers[1..], p);
    }
  }

  lemma OverlayAllIdempotent(layers: seq<Value>, p: Path, prior: Node)
    ensures OverlayAll(layers, p, OverlayAll(layers, p, prior)) == OverlayAll(layers, p, prior)
  {
  }

  // ---------------------------------------------------------------- extensionality

  /** Two values with the same node at every path are equal. */
  lemma {:induction false} SameNodesSameValue(v: Value, w: Value)
    requires forall p :: At(v, p) == At(w, p)
    ensures v == w
    decreases v
  {
    assert At(v, []) == At(w, []);
    if v.Table? {
      forall k
        ensures k in v.entries <==> k in w.entries
        ensures k in v.entries && k in w.entries ==> v.entries[k] == w.entries[k]
      {
        ChildNodes(v, k, []);
        ChildNodes(w, k, []);
        assert At(v, [k]) == At(w, [k]);
        if k in v.entries && k in w.entries {
          forall p
            ensures At(v.entries[k], p) == At(w.entries[k], p)
          {
            ChildNodes(v, k, p);
            ChildNodes(w, k, p);
            assert At(v, [k] + p) == At(w, [k] + p);
          }
          SameNodesSameValue(v.entries[k], w.entries[k]);
        }
      }
      assert v.entries == w.entries;
    }
  }

  lemma ChildNodes(v: Value, k: string, p: Path)
    requires v.Table?
    ensures At(v, [k] + p) == if k in v.entries then At(v.entries[k], p) else Absent
  {
  }

  // ---------------------------------------------------------------- lists of layers

  /** Merging the same layers again changes nothing, even where tables and scalars alternate. */
  lemma MergeAllIdempotent(base: Value, layers: seq<Value>)
    ensures MergeAll(MergeAll(base, layers), layers) == MergeAll(base, layers)
  {
    var once := MergeAll(base, layers);
    forall p
      ensures At(MergeAll(once, layers), p) == At(once, p)
    {
      MergeAllAt(once, layers, p);
      MergeAllAt(base, layers, p);
      OverlayAllIdempotent(layers, p, At(base, p));
    }
    SameNodesSameValue(MergeAll(once, layers), once);
  }

  lemma {:induction false} MergeAllConcat(base: Value, a: seq<Value>, b: seq<Value>)
    ensures MergeAll(base, a + b) == MergeAll(MergeAll(base, a), b)
    decreases |a|
  {
    if a == [] {
      assert a + b == b;
    } else {
      assert (a + b)[1..] == a[1..] + b;
      MergeAllConcat(Merge(base, a[0]), a[1..], b);
    }
  }

  /** The value at a path after merging a list of layers depends on the value there before. */
  lemma {:induction false} MergeAllLocal(v: Value, w: Value, layers: seq<Value>, p: Path)
    requires Get(v, p) == Get(w, p)
    ensures Get(MergeAll(v, layers), p) == Get(MergeAll(w, layers), p)
    decreases |layers|
  {
    if layers != [] {
      PathLaw(v, layers[0], p);
      PathLaw(w, layers[0], p);
      MergeAllLocal(Merge(v, layers[0]), Merge(w, layers[0]), layers[1..], p);
    }
  }

  /** Layers that leave a path alone keep the value there. */
  lemma {:induction false} MergeAllFrame(v: Value, layers: seq<Value>, p: Path)
    requires AllUntouched(layers, p)
    ensures Get(MergeAll(v, layers), p) == Get(v, p)
    decreases |layers|
  {
    if layers != [] {
      PathLaw(v, layers[0], p);
      MergeAllFrame(Merge(v, layers[0]), layers[1..], p);
    }
  }

  /** Of the layers that bear on a path, the last one decides what is there. */
  lemma {:induction false} LastBearingDecides(base: Value, layers: seq<Value>, k: nat, p: Path)
    requires k < |layers| && Bears(layers[k], p) != Untouched
    requires AllUntouched(layers[k + 1..], p)
    ensures At(MergeAll(base, layers), p) == Overlay(layers[k], p, Absent)
    decreases |layers|
  {
    if k > 0 {
      assert layers[1..][k - 1] == layers[k] && layers[1..][k..] == layers[k + 1..];
      LastBearingDecides(Merge(base, layers[0]), layers[1..], k - 1, p);
    } else {
      MergeAt(base, layers[0], p);
      MergeAllFrame(Merge(base, layers[0]), layers[1..], p);
    }
  }

  /** Merging layers on top of a base keeps every node of the layers' own merge: what the
      layers say between themselves cannot be undone by what lies below them. */
  lemma LayersWin(base: Value, first: Value, rest: seq<Value>, p: Path)
    requires At(MergeAll(first, rest), p) != Absent
    ensures At(MergeAll(base, [first] + rest), p) == At(MergeAll(first, rest), p)
  {
    MergeAllAt(first, rest, p);
    assert ([first] + rest)[1..] == rest;
    MergeAllAt(Merge(base, first), rest, p);
    MergeAt(base, first, p);
    BearsAlone(first, p);
    OverlayAllFixesOrPasses(rest, p, At(first, p), Overlay(first, p, At(base, p)));
    OverlayAllFixesOrPasses(rest, p, Overlay(first, p, At(base, p)), At(first, p));
  }

  // ---------------------------------------------------------------- associativity

  /** Grouping matters at exactly the paths that `a` cuts off, that the merge of `a` and `b`
      no longer mentions, and that the base had. */
  ghost predicate Resurfaces(base: Value, a: Value, b: Value, p: Path) {
    && Bears(a, p) == Cut
    && Bears(Merge(a, b), p) == Untouched
    && At(base, p) != Absent
  }

  lemma {:induction false} BearsOfMerge(a: Value, b: Value, p: Path)
    ensures Bears(b, p) == Cut ==> Bears(Merge(a, b), p) == Cut
    ensures Bears(b, p).Sets? ==>
      Bears(Merge(a, b), p).Sets?
      && NodeOf(Some(Bears(Merge(a, b), p).value)) == NodeOf(Some(Bears(b, p).value))
    ensures Bears(b, p) == Untouched ==>
      Bears(Merge(a, b), p) == Bears(a, p) || (Bears(a, p) == Cut && Bears(Merge(a, b), p) == Untouched)
    decreases |p|
  {
    if p != [] && a.Table? && b.Table? {
      if p[0] in a.entries && p[0] in b.entries {
        BearsOfMerge(a.entries[p[0]], b.entries[p[0]], p[1..]);
      }
    }
  }

  lemma GroupingAt(base: Value, a: Value, b: Value, p: Path)
    ensures At(Merge(Merge(base, a), b), p) == At(Merge(base, Merge(a, b)), p)
      <==> !Resurfaces(base, a, b, p)
  {
    MergeAt(Merge(base, a), b, p);
    MergeAt(base, a, p);
    MergeAt(base, Merge(a, b), p);
    BearsOfMerge(a, b, p);
  }

  /** Two groupings of three layers give the same value exactly when no path resurfaces. */
  lemma GroupingIff(base: Value, a: Value, b: Value)
    ensures Merge(Merge(base, a), b) == Merge(base, Merge(a, b))
      <==> forall p :: !Resurfaces(base, a, b, p)
  {
    forall p {
      GroupingAt(base, a, b, p);
    }
    if forall p :: !Resurfaces(base, a, b, p) {
      SameNodesSameValue(Merge(Merge(base, a), b), Merge(base, Merge(a, b)));
    }
  }
}
