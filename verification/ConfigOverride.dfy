/** Taking override arrays off a config layer and applying their patches. */
module ConfigOverride {
  import opened Wrappers
  import opened Toml

  // ---------------------------------------------------------------- taking

  datatype Entry<+M> = Entry(meta: M, patch: Tbl)

  /** How one array element splits into known metadata fields and the patch. `decode` reads the
      known fields and fails where deserialization would; `fields` are the names it consumes. */
  datatype Shape<!M> = Shape(decode: Tbl -> Option<M>, fields: set<string>)

  function Without(v: Value, key: string): Value {
    if v.Table? then Table(v.entries - {key}) else v
  }

  function DecodeAll<M>(shape: Shape<M>, items: seq<Value>): Option<seq<Entry<M>>> {
    if items == [] then Some([])
    else if !items[0].Table? then None
    else
      var meta := shape.decode(items[0].entries);
      var rest := DecodeAll(shape, items[1..]);
      if meta.None? || rest.None? then None
      else Some([Entry(meta.value, items[0].entries - shape.fields)] + rest.value)
  }

  function Taken<M>(config: Value, key: string, shape: Shape<M>): Option<seq<Entry<M>>> {
    if !config.Table? || key !in config.entries then Some([])
    else if !config.entries[key].Array? then None
    else DecodeAll(shape, config.entries[key].items)
  }

  method TakePatchArray<M>(config: Value, key: string, shape: Shape<M>)
    returns (rest: Value, taken: Option<seq<Entry<M>>>)
    ensures rest == Without(config, key)
    ensures taken == Taken(config, key, shape)
  {
    rest := config;
    if !config.Table? {
      return rest, Some([]);
    }
    if key !in config.entries {
      assert config.entries - {key} == config.entries;
      return rest, Some([]);
    }
    var arrayValue := config.entries[key];
    rest := Table(config.entries - {key});
    if !arrayValue.Array? {
      return rest, None;
    }
    taken := DecodeAll(shape, arrayValue.items);
  }

  /** Entry `e` comes from the table `t`: the known fields decoded, and every other key kept. */
  ghost predicate SplitsInto<M(!new)>(shape: Shape<M>, t: Tbl, e: Entry<M>) {
    && shape.decode(t) == Some(e.meta)
    && (forall k :: k in e.patch <==> k in t && k !in shape.fields)
    && (forall k :: k in e.patch ==> e.patch[k] == t[k])
  }

  /** Taking fails exactly on an element that is no table or does not decode, and otherwise gives one
      entry for each element, in order. */
  lemma {:induction false} DecodesEach<M(!new)>(shape: Shape<M>, items: seq<Value>)
    ensures DecodeAll(shape, items).None? <==>
      exists i :: 0 <= i < |items| && (!items[i].Table? || shape.decode(items[i].entries).None?)
    ensures DecodeAll(shape, items).Some? ==>
      var entries := DecodeAll(shape, items).value;
      && |entries| == |items|
      && forall i :: 0 <= i < |items| ==> items[i].Table? && SplitsInto(shape, items[i].entries, entries[i])
  {
    if items != [] {
      DecodesEach(shape, items[1..]);
      assert items == [items[0]] + items[1..];
    }
  }

  /** What is taken from a config: nothing where the key is missing, all elements of the array or none. */
  lemma TakenExactly<M(!new)>(config: Value, key: string, shape: Shape<M>)
    ensures !config.Table? || key !in config.entries ==> Taken(config, key, shape) == Some([])
    ensures config.Table? && key in config.entries && !config.entries[key].Array? ==>
      Taken(config, key, shape) == None
    ensures config.Table? && key in config.entries && config.entries[key].Array? ==>
      var items := config.entries[key].items;
      var taken := Taken(config, key, shape);
      && (taken.None? <==>
           exists i :: 0 <= i < |items| && (!items[i].Table? || shape.decode(items[i].entries).None?))
      && (taken.Some? ==>
           && |taken.value| == |items|
           && forall i :: 0 <= i < |items| ==> items[i].Table? && SplitsInto(shape, items[i].entries, taken.value[i]))
  {
    if config.Table? && key in config.entries && config.entries[key].Array? {
      DecodesEach(shape, config.entries[key].items);
    }
  }

  lemma WithoutBears(v: Value, key: string, p: Path)
    requires p != [] && p[0] != key
    ensures Bears(Without(v, key), p) == Bears(v, p)
  {
  }

  // ---------------------------------------------------------------- touching

  /** `patch` decides something about `path`: it sets a value there or cuts it off. */
  predicate Touches(patch: Tbl, path: Path) {
    path != [] && Bears(Table(patch), path) != Untouched
  }

  method PatchTouchesPath(patch: Tbl, path: Path) returns (touches: bool)
    ensures touches == Touches(patch, path)
  {
    if path == [] {
      return false;
    }
    if path[0] !in patch {
      return false;
    }
    var cur := patch[path[0]];
    for i := 1 to |path|
      invariant Bears(Table(patch), path) == Bears(cur, path[i..])
    {
      var seg := path[i];
      assert path[i..][1..] == path[i + 1..];
      if !cur.Table? {
        return true;
      }
      if seg !in cur.entries {
        return false;
      }
      cur := cur.entries[seg];
    }
    return true;
  }

  /** A table with nothing but `leaf`, at `p`. */
  function Nest(p: Path, leaf: Value): Value {
    if p == [] then leaf else Table(map[p[0] := Nest(p[1..], leaf)])
  }

  lemma {:induction false} NestHolds(p: Path, leaf: Value)
    ensures Get(Nest(p, leaf), p) == Some(leaf)
    decreases |p|
  {
    if p != [] {
      NestHolds(p[1..], leaf);
    }
  }

  /** Merging `patch` changes what `v` has at `p`. */
  predicate Changes(patch: Tbl, v: Value, p: Path) {
    Get(Merge(v, Table(patch)), p) != Get(v, p)
  }

  /** A patch touches exactly the paths below the root at which merging it can make a difference. */
  lemma TouchesIffMatters(patch: Tbl, p: Path)
    ensures Touches(patch, p) <==> p != [] && exists v :: Changes(patch, v, p)
  {
    var over := Table(patch);
    if p != [] && Bears(over, p) != Untouched {
      var leaf := Leaf(Boolean(true));
      NestHolds(p, leaf);
      var v := if Bears(over, p) == Cut then Nest(p, leaf) else Table(map[]);
      PathLaw(v, over, p);
      assert Changes(patch, v, p);
    }
    forall v | Changes(patch, v, p)
      ensures Bears(over, p) != Untouched
    {
      PathLaw(v, over, p);
    }
  }

  predicate TouchesAny(patch: Tbl, paths: seq<Path>) {
    exists p :: p in paths && Touches(patch, p)
  }

  // ---------------------------------------------------------------- applying

  const PATCH_STRIP_KEYS: seq<string> := ["version_overrides", "campaigns"]

  function Strip(patch: Tbl, keys: seq<string>): Tbl {
    if keys == [] then patch else Strip(patch - {keys[0]}, keys[1..])
  }

  function Layers(patches: seq<Tbl>, keys: seq<string>): seq<Value> {
    if patches == [] then [] else [Table(Strip(patches[0], keys))] + Layers(patches[1..], keys)
  }

  lemma {:induction false} StripKeeps(patch: Tbl, keys: seq<string>, k: string)
    ensures k in Strip(patch, keys) <==> k in patch && k !in keys
    ensures k in Strip(patch, keys) ==> Strip(patch, keys)[k] == patch[k]
    decreases |keys|
  {
    if keys != [] {
      StripKeeps(patch - {keys[0]}, keys[1..], k);
    }
  }

  /** Stripping hides the stripped keys and leaves how the patch bears elsewhere unchanged. */
  lemma {:induction false} StripBears(patch: Tbl, keys: seq<string>, p: Path)
    requires p != []
    ensures Bears(Table(Strip(patch, keys)), p) ==
      if p[0] in keys then Untouched else Bears(Table(patch), p)
  {
    StripKeeps(patch, keys, p[0]);
  }

  lemma {:induction false} LayersIndex(patches: seq<Tbl>, keys: seq<string>)
    ensures |Layers(patches, keys)| == |patches|
    ensures forall i :: 0 <= i < |patches| ==> Layers(patches, keys)[i] == Table(Strip(patches[i], keys))
    decreases |patches|
  {
    if patches != [] {
      LayersIndex(patches[1..], keys);
    }
  }

  method ApplyPatches(config: Value, patches: seq<Tbl>, stripKeys: seq<string>) returns (out: Value)
    ensures out == MergeAll(config, Layers(patches, stripKeys))
  {
    out := config;
    for i := 0 to |patches|
      invariant MergeAll(config, Layers(patches, stripKeys)) == MergeAll(out, Layers(patches[i..], stripKeys))
    {
      var patch := patches[i];
      for j := 0 to |stripKeys|
        invariant Strip(patches[i], stripKeys) == Strip(patch, stripKeys[j..])
      {
        patch := patch - {stripKeys[j]};
        assert stripKeys[j..][1..] == stripKeys[j + 1..];
      }
      assert patches[i..][1..] == patches[i + 1..];
      out := DeepMerge(out, Table(patch));
    }
  }

  /** No patch gives the root a stripped key it does not have, or changes one it has. */
  lemma StrippedKeysStay(config: Value, patches: seq<Tbl>, keys: seq<string>, k: string, p: Path)
    requires k in keys
    ensures Get(MergeAll(config, Layers(patches, keys)), [k] + p) == Get(config, [k] + p)
  {
    LayersIndex(patches, keys);
    forall i | 0 <= i < |patches| {
      StripBears(patches[i], keys, [k] + p);
    }
    MergeAllFrame(config, Layers(patches, keys), [k] + p);
  }
}
