/** Version-gated patches: strip the section, check every bound, then merge the patches whose
    range holds the running version in ascending order of their minimum. */
module VersionOverrides {
  import opened Wrappers
  import opened Orders
  import opened Sequences
  import opened Text
  import opened Toml
  import opened ConfigOverride

  const SECTION := "version_overrides"

  /** Version numbers with their parser and the total order the code compares them by. It refines
      the precedence of section 11 of Semantic Versioning 2.0.0, where versions that differ only
      in build metadata rank the same. */
  datatype Semver<!V> = Semver(parse: string -> Option<V>, leq: (V, V) -> bool, zero: V)

  datatype Meta = Meta(minimum: Option<string>, maximum: Option<string>)

  datatype Bounded<V> = Bounded(min: V, max: Option<V>, patch: Tbl)

  datatype Failure =
    | Deserialize
    | InvalidMinimum(index: nat, value: string)
    | InvalidMaximum(index: nat, value: string)

  // ---------------------------------------------------------------- reading the section

  /** An optional string field; `None` is a type error. */
  function StringField(t: Tbl, key: string): Option<Option<string>> {
    if key !in t then Some(None)
    else if t[key].Leaf? && t[key].scalar.Str? then Some(Some(t[key].scalar.s))
    else None
  }

  function DecodeMeta(t: Tbl): Option<Meta> {
    var lo := StringField(t, "minimum_version");
    var hi := StringField(t, "maximum_version");
    if lo.None? || hi.None? then None else Some(Meta(lo.value, hi.value))
  }

  function MetaShape(): Shape<Meta> {
    Shape(DecodeMeta, {"minimum_version", "maximum_version"})
  }

  function ParseMin<V>(sem: Semver<V>, m: Meta): Option<V> {
    if m.minimum.Some? then sem.parse(Trim(RustSpace, m.minimum.value)) else Some(sem.zero)
  }

  function ParseMax<V>(sem: Semver<V>, m: Meta): Option<Option<V>> {
    if m.maximum.None? then Some(None)
    else
      var v := sem.parse(Trim(RustSpace, m.maximum.value));
      if v.Some? then Some(v) else None
  }

  /** An entry with both bounds parsed, or `None` if a bound is bad. */
  function ParseEntry<V>(sem: Semver<V>, e: Entry<Meta>): Option<Bounded<V>> {
    var lo := ParseMin(sem, e.meta);
    var hi := ParseMax(sem, e.meta);
    if lo.None? || hi.None? then None else Some(Bounded(lo.value, hi.value, e.patch))
  }

  function ParseEntries<V>(sem: Semver<V>, entries: seq<Entry<Meta>>): Option<seq<Bounded<V>>> {
    if entries == [] then Some([])
    else
      var front := ParseEntries(sem, entries[..|entries| - 1]);
      var last := ParseEntry(sem, entries[|entries| - 1]);
      if front.None? || last.None? then None else Some(front.value + [last.value])
  }

  // ---------------------------------------------------------------- applying it

  function MinLeq<V>(sem: Semver<V>): (Bounded<V>, Bounded<V>) -> bool {
    (a: Bounded<V>, b: Bounded<V>) => sem.leq(a.min, b.min)
  }

  predicate InRange<V>(sem: Semver<V>, version: V, b: Bounded<V>) {
    sem.leq(b.min, version) && (b.max.Some? ==> sem.leq(version, b.max.value))
  }

  function Selected<V>(sem: Semver<V>, version: V, sorted: seq<Bounded<V>>): seq<Tbl> {
    if sorted == [] then []
    else if InRange(sem, version, sorted[0]) then [sorted[0].patch] + Selected(sem, version, sorted[1..])
    else Selected(sem, version, sorted[1..])
  }

  function Overlaid<V>(sem: Semver<V>, version: V, config: Value, parsed: seq<Bounded<V>>): Value {
    MergeAll(config, Layers(Selected(sem, version, Sort(MinLeq(sem), parsed)), PATCH_STRIP_KEYS))
  }

  function Outcome<V>(sem: Semver<V>, version: V, config: Value): Option<seq<Bounded<V>>> {
    var entries := Taken(config, SECTION, MetaShape());
    if entries.None? then None else ParseEntries(sem, entries.value)
  }

  /** `f` names the first thing that is wrong with the section, and where it is. */
  ghost predicate Blames<V>(sem: Semver<V>, taken: Option<seq<Entry<Meta>>>, f: Failure) {
    match f
    case Deserialize => taken.None?
    case InvalidMinimum(i, v) =>
      && taken.Some? && i < |taken.value|
      && ParseEntries(sem, taken.value[..i]).Some?
      && taken.value[i].meta.minimum == Some(v)
      && ParseMin(sem, taken.value[i].meta).None?
    case InvalidMaximum(i, v) =>
      && taken.Some? && i < |taken.value|
      && ParseEntries(sem, taken.value[..i]).Some?
      && ParseMin(sem, taken.value[i].meta).Some?
      && taken.value[i].meta.maximum == Some(v)
      && ParseMax(sem, taken.value[i].meta).None?
  }

  method ApplyVersionOverrides<V(!new)>(config: Value, version: V, sem: Semver<V>)
    returns (out: Value, failure: Option<Failure>)
    requires TotalOrder(sem.leq)
    ensures failure.None? <==> Outcome(sem, version, config).Some?
    ensures failure.None? ==>
      out == Overlaid(sem, version, Without(config, SECTION), Outcome(sem, version, config).value)
    ensures failure.Some? ==>
      out == Without(config, SECTION) && Blames(sem, Taken(config, SECTION, MetaShape()), failure.value)
  {
    var taken;
    out, taken := TakePatchArray(config, SECTION, MetaShape());
    if taken.None? {
      return out, Some(Deserialize);
    }
    var entries := taken.value;
    var parsed: seq<Bounded<V>> := [];
    for index := 0 to |entries|
      invariant ParseEntries(sem, entries[..index]) == Some(parsed)
    {
      var entry := entries[index];
      assert entries[..index + 1][..index] == entries[..index];
      var minV := ParseMin(sem, entry.meta);
      if minV.None? {
        BadEntrySpoilsAll(sem, entries, index + 1);
        return out, Some(InvalidMinimum(index, entry.meta.minimum.value));
      }
      var maxV := ParseMax(sem, entry.meta);
      if maxV.None? {
        BadEntrySpoilsAll(sem, entries, index + 1);
        return out, Some(InvalidMaximum(index, entry.meta.maximum.value));
      }
      parsed := parsed + [Bounded(minV.value, maxV.value, entry.patch)];
    }
    assert entries[..|entries|] == entries;
    var sorted := Sort(MinLeq(sem), parsed);
    out := ApplyPatches(out, Selected(sem, version, sorted), PATCH_STRIP_KEYS);
    failure := None;
  }

  lemma {:induction false} BadEntrySpoilsAll<V>(sem: Semver<V>, entries: seq<Entry<Meta>>, n: nat)
    requires n <= |entries| && ParseEntries(sem, entries[..n]).None?
    ensures ParseEntries(sem, entries).None?
    decreases |entries| - n
  {
    if n < |entries| {
      assert entries[..n + 1][..n] == entries[..n];
      BadEntrySpoilsAll(sem, entries, n + 1);
    } else {
      assert entries[..n] == entries;
    }
  }

  /** One bad bound anywhere is enough for nothing to be merged, and nothing else is. */
  lemma {:induction false} ParsesIffAllBoundsParse<V>(sem: Semver<V>, entries: seq<Entry<Meta>>)
    ensures ParseEntries(sem, entries).Some? <==>
      forall e :: e in entries ==> ParseMin(sem, e.meta).Some? && ParseMax(sem, e.meta).Some?
  {
    if entries != [] {
      var n := |entries| - 1;
      ParsesIffAllBoundsParse(sem, entries[..n]);
      assert entries == entries[..n] + [entries[n]];
    }
  }

  // ---------------------------------------------------------------- the section never returns

  /** Whatever happens, the result has no `version_overrides` section, and a `campaigns` section
      is the config's own. */
  lemma SectionGone<V>(sem: Semver<V>, version: V, config: Value, parsed: seq<Bounded<V>>)
    requires config.Table?
    ensures Get(Overlaid(sem, version, Without(config, SECTION), parsed), [SECTION]) == None
    ensures Get(Overlaid(sem, version, Without(config, SECTION), parsed), ["campaigns"]) == Get(config, ["campaigns"])
  {
    var patches := Selected(sem, version, Sort(MinLeq(sem), parsed));
    assert PATCH_STRIP_KEYS[0] == SECTION && PATCH_STRIP_KEYS[1] == "campaigns";
    StrippedKeysStay(Without(config, SECTION), patches, PATCH_STRIP_KEYS, SECTION, []);
    StrippedKeysStay(Without(config, SECTION), patches, PATCH_STRIP_KEYS, "campaigns", []);
    assert [SECTION] + [] == [SECTION];
    assert ["campaigns"] + [] == ["campaigns"];
  }

  // ---------------------------------------------------------------- which patch decides

  /** Among the patches in range, one is applied before another exactly when its minimum is
      smaller, or is the same and it was declared earlier. */
  lemma AppliedInOrder<V(!new)>(sem: Semver<V>, parsed: seq<Bounded<V>>, k: Bounded<V>)
    requires TotalOrder(sem.leq)
    ensures Sorted(MinLeq(sem), Sort(MinLeq(sem), parsed))
    ensures multiset(Sort(MinLeq(sem), parsed)) == multiset(parsed)
    ensures Filter(Equivalent(MinLeq(sem), k), Sort(MinLeq(sem), parsed)) == Filter(Equivalent(MinLeq(sem), k), parsed)
  {
    MinOrders(sem);
    SortSorts(MinLeq(sem), parsed);
    SortPermutes(MinLeq(sem), parsed);
    SortStable(MinLeq(sem), parsed, k);
  }

  lemma MinOrders<V(!new)>(sem: Semver<V>)
    requires TotalOrder(sem.leq)
    ensures TotalPreorder(MinLeq(sem))
  {
    var leq := MinLeq(sem);
    assert forall a, b :: leq(a, b) == sem.leq(a.min, b.min);
  }

  /** At any path, the last patch in application order that is in range and touches the path
      decides what is there. */
  lemma {:induction false} LastSelectedDecides<V>(
      sem: Semver<V>, version: V, base: Value, sorted: seq<Bounded<V>>, k: int, p: Path)
    requires 0 <= k < |sorted| && InRange(sem, version, sorted[k])
    requires p != [] && p[0] !in PATCH_STRIP_KEYS && Touches(sorted[k].patch, p)
    requires forall i :: k < i < |sorted| && InRange(sem, version, sorted[i]) ==> !Touches(sorted[i].patch, p)
    ensures At(MergeAll(base, Layers(Selected(sem, version, sorted), PATCH_STRIP_KEYS)), p)
         == if Bears(Table(sorted[k].patch), p) == Cut then Absent
            else NodeOf(Some(Bears(Table(sorted[k].patch), p).value))
    decreases |sorted|
  {
    var rest := Selected(sem, version, sorted[1..]);
    var here := Table(Strip(sorted[0].patch, PATCH_STRIP_KEYS));
    var base' := if InRange(sem, version, sorted[0]) then Merge(base, here) else base;
    if InRange(sem, version, sorted[0]) {
      assert ([sorted[0].patch] + rest)[1..] == rest;
      assert ([here] + Layers(rest, PATCH_STRIP_KEYS))[1..] == Layers(rest, PATCH_STRIP_KEYS);
      assert Layers([sorted[0].patch] + rest, PATCH_STRIP_KEYS) == [here] + Layers(rest, PATCH_STRIP_KEYS);
    }
    assert MergeAll(base, Layers(Selected(sem, version, sorted), PATCH_STRIP_KEYS))
        == MergeAll(base', Layers(rest, PATCH_STRIP_KEYS));
    if k > 0 {
      assert forall i :: k - 1 < i < |sorted| - 1 ==> sorted[1..][i] == sorted[i + 1];
      LastSelectedDecides(sem, version, base', sorted[1..], k - 1, p);
    } else {
      StripBears(sorted[0].patch, PATCH_STRIP_KEYS, p);
      MergeAt(base, here, p);
      SelectedUntouched(sem, version, sorted[1..], p);
      MergeAllFrame(base', Layers(rest, PATCH_STRIP_KEYS), p);
    }
  }

  lemma {:induction false} SelectedUntouched<V>(sem: Semver<V>, version: V, sorted: seq<Bounded<V>>, p: Path)
    requires p != []
    requires forall i :: 0 <= i < |sorted| && InRange(sem, version, sorted[i]) ==> !Touches(sorted[i].patch, p)
    ensures AllUntouched(Layers(Selected(sem, version, sorted), PATCH_STRIP_KEYS), p)
    decreases |sorted|
  {
    if sorted != [] {
      assert forall i :: 0 <= i < |sorted| - 1 ==> sorted[1..][i] == sorted[i + 1];
      SelectedUntouched(sem, version, sorted[1..], p);
      StripBears(sorted[0].patch, PATCH_STRIP_KEYS, p);
      var rest := Selected(sem, version, sorted[1..]);
      assert ([sorted[0].patch] + rest)[1..] == rest;
    }
  }

  // ---------------------------------------------------------------- reordering

  ghost predicate DistinctMinimums<V>(parsed: seq<Bounded<V>>) {
    forall i, j :: 0 <= i < j < |parsed| ==> parsed[i].min != parsed[j].min
  }

  /** Reordering entries with pairwise different minimums does not change the result. */
  lemma ReorderingIsHarmless<V(!new)>(sem: Semver<V>, version: V, config: Value, a: seq<Bounded<V>>, b: seq<Bounded<V>>)
    requires TotalOrder(sem.leq) && DistinctMinimums(a) && multiset(a) == multiset(b)
    ensures Overlaid(sem, version, config, a) == Overlaid(sem, version, config, b)
  {
    MinOrders(sem);
    var x, y := Sort(MinLeq(sem), a), Sort(MinLeq(sem), b);
    SortSorts(MinLeq(sem), a);
    SortSorts(MinLeq(sem), b);
    SortPermutes(MinLeq(sem), a);
    SortPermutes(MinLeq(sem), b);
    forall u, v | u in x && v in x && MinLeq(sem)(u, v) && MinLeq(sem)(v, u)
      ensures u == v
    {
      assert u in multiset(x) && v in multiset(x);
      assert u in a && v in a;
    }
    SortedUnique(MinLeq(sem), x, y);
  }

  /** The same at the level of the file: the entries of the section may be listed in any order. */
  lemma ReorderedSection<V(!new)>(
      sem: Semver<V>, version: V, root: Tbl, items: seq<Value>, items': seq<Value>)
    requires TotalOrder(sem.leq) && multiset(items) == multiset(items')
    ensures
      var c, c' := Table(root[SECTION := Array(items)]), Table(root[SECTION := Array(items')]);
      var a, a' := Outcome(sem, version, c), Outcome(sem, version, c');
      && Without(c, SECTION) == Without(c', SECTION)
      && (a.Some? <==> a'.Some?)
      && (a.Some? && DistinctMinimums(a.value) ==>
            Overlaid(sem, version, Without(c, SECTION), a.value)
            == Overlaid(sem, version, Without(c', SECTION), a'.value))
  {
    var c, c' := Table(root[SECTION := Array(items)]), Table(root[SECTION := Array(items')]);
    var a, a' := Outcome(sem, version, c), Outcome(sem, version, c');
    assert root[SECTION := Array(items)] - {SECTION} == root[SECTION := Array(items')] - {SECTION};
    ReadsItems(sem, items);
    ReadsItems(sem, items');
    forall v
      ensures v in items <==> v in items'
    {
      assert v in items <==> v in multiset(items);
      assert v in items' <==> v in multiset(items');
    }
    if a.Some? && DistinctMinimums(a.value) {
      ReadPermutes(sem, items, items');
      ReorderingIsHarmless(sem, version, Without(c, SECTION), a.value, a'.value);
    }
  }

  /** What one array element is read as. */
  function ReadItem<V>(sem: Semver<V>, v: Value): Option<Bounded<V>> {
    if !v.Table? || DecodeMeta(v.entries).None? then None
    else ParseEntry(sem, Entry(DecodeMeta(v.entries).value, v.entries - MetaShape().fields))
  }

  function ReadAll<V>(sem: Semver<V>, items: seq<Value>): Option<seq<Bounded<V>>> {
    if items == [] then Some([])
    else
      var first, rest := ReadItem(sem, items[0]), ReadAll(sem, items[1..]);
      if first.None? || rest.None? then None else Some([first.value] + rest.value)
  }

  lemma {:induction false} ReadsItems<V>(sem: Semver<V>, items: seq<Value>)
    ensures
      var entries := DecodeAll(MetaShape(), items);
      ReadAll(sem, items) == if entries.None? then None else ParseEntries(sem, entries.value)
    ensures ReadAll(sem, items).Some? <==> forall v :: v in items ==> ReadItem(sem, v).Some?
  {
    if items != [] {
      ReadsItems(sem, items[1..]);
      assert items == [items[0]] + items[1..];
      var rest := DecodeAll(MetaShape(), items[1..]);
      if items[0].Table? && DecodeMeta(items[0].entries).Some? && rest.Some? {
        var e := Entry(DecodeMeta(items[0].entries).value, items[0].entries - MetaShape().fields);
        assert DecodeAll(MetaShape(), items) == Some([e] + rest.value);
        ParseEntriesFromFront(sem, e, rest.value);
      }
    }
  }

  lemma {:induction false} ParseEntriesFromFront<V>(sem: Semver<V>, e: Entry<Meta>, rest: seq<Entry<Meta>>)
    ensures
      var first, others := ParseEntry(sem, e), ParseEntries(sem, rest);
      ParseEntries(sem, [e] + rest)
        == if first.None? || others.None? then None else Some([first.value] + others.value)
  {
    if rest == [] {
      assert [e] + rest == [e] && [e][..0] == [];
      assert ParseEntries(sem, [e][..0]) == Some([]);
      if ParseEntry(sem, e).Some? {
        assert [] + [ParseEntry(sem, e).value] == [ParseEntry(sem, e).value] + [];
      }
    } else {
      var n := |rest| - 1;
      ParseEntriesFromFront(sem, e, rest[..n]);
      assert ([e] + rest)[..n + 1] == [e] + rest[..n] && ([e] + rest)[n + 1] == rest[n];
      var first, front, last := ParseEntry(sem, e), ParseEntries(sem, rest[..n]), ParseEntry(sem, rest[n]);
      if first.Some? && front.Some? && last.Some? {
        assert [first.value] + (front.value + [last.value]) == [first.value] + front.value + [last.value];
      }
    }
  }

  lemma {:induction false} ReadPermutes<V>(sem: Semver<V>, items: seq<Value>, items': seq<Value>)
    requires multiset(items) == multiset(items')
    requires ReadAll(sem, items).Some? && ReadAll(sem, items').Some?
    ensures multiset(ReadAll(sem, items).value) == multiset(ReadAll(sem, items').value)
    decreases |items|
  {
    hide ReadItem;
    if items == [] {
      assert |multiset(items')| == 0;
    } else {
      assert ReadAll(sem, items[1..]).Some?;
      assert ReadAll(sem, items).value == [ReadItem(sem, items[0]).value] + ReadAll(sem, items[1..]).value;
      hide ReadAll;
      assert items == [items[0]] + items[1..];
      assert items[0] in multiset(items');
      var j :| 0 <= j < |items'| && items'[j] == items[0];
      var others := items'[..j] + items'[j + 1..];
      assert items' == items'[..j] + [items'[j]] + items'[j + 1..];
      assert multiset(others) == multiset(items') - multiset{items[0]} == multiset(items[1..]);
      ReadWithout(sem, items', j);
      ReadPermutes(sem, items[1..], others);
    }
  }

  lemma {:induction false} ReadWithout<V>(sem: Semver<V>, items: seq<Value>, j: nat)
    requires j < |items| && ReadAll(sem, items).Some?
    ensures ReadItem(sem, items[j]).Some? && ReadAll(sem, items[..j] + items[j + 1..]).Some?
    ensures multiset(ReadAll(sem, items).value)
         == multiset{ReadItem(sem, items[j]).value} + multiset(ReadAll(sem, items[..j] + items[j + 1..]).value)
    decreases |items|
  {
    var others := items[..j] + items[j + 1..];
    if j == 0 {
      assert others == items[1..];
    } else {
      ReadWithout(sem, items[1..], j - 1);
      assert items[1..][..j - 1] + items[1..][j..] == others[1..];
    }
  }

  // ---------------------------------------------------------------- from the file to the result

  /** A bound as written: missing, or a string whose trimmed text is a version. */
  ghost predicate BoundReads<V>(sem: Semver<V>, t: Tbl, key: string, bound: Option<V>) {
    if key !in t then bound == None
    else exists text :: t[key] == Leaf(Str(text)) && bound.Some? && sem.parse(Trim(RustSpace, text)) == bound
  }

  /** An array element read as `b`: both bounds as written, no minimum standing for 0.0.0, and all other
      keys as the patch. */
  ghost predicate Reads<V>(sem: Semver<V>, v: Value, b: Bounded<V>) {
    && v.Table?
    && BoundReads(sem, v.entries, "maximum_version", b.max)
    && (if "minimum_version" !in v.entries then b.min == sem.zero
        else BoundReads(sem, v.entries, "minimum_version", Some(b.min)))
    && (forall k :: k in b.patch <==> k in v.entries && k != "minimum_version" && k != "maximum_version")
    && (forall k :: k in b.patch ==> b.patch[k] == v.entries[k])
  }

  lemma BoundRead<V>(sem: Semver<V>, t: Tbl, key: string, bound: Option<V>)
    ensures BoundReads(sem, t, key, bound) <==>
      var field := StringField(t, key);
      && field.Some?
      && (if field.value.None? then bound == None
          else bound.Some? && sem.parse(Trim(RustSpace, field.value.value)) == bound)
  {
    hide Trim;
  }

  lemma ReadItemIff<V>(sem: Semver<V>, v: Value, b: Bounded<V>)
    ensures ReadItem(sem, v) == Some(b) <==> Reads(sem, v, b)
  {
    if v.Table? {
      BoundRead(sem, v.entries, "maximum_version", b.max);
      BoundRead(sem, v.entries, "minimum_version", Some(b.min));
      hide BoundReads, Trim;
      assert (forall k :: k in b.patch <==> k in v.entries && k != "minimum_version" && k != "maximum_version")
        && (forall k :: k in b.patch ==> b.patch[k] == v.entries[k])
        <==> b.patch == v.entries - MetaShape().fields;
    }
  }

  ghost predicate Readable<V(!new)>(sem: Semver<V>, v: Value) {
    exists b :: Reads(sem, v, b)
  }

  lemma ItemReads<V(!new)>(sem: Semver<V>, v: Value)
    ensures ReadItem(sem, v).Some? <==> Readable(sem, v)
    ensures ReadItem(sem, v).Some? ==> Reads(sem, v, ReadItem(sem, v).value)
  {
    hide Reads, ReadItem;
    forall b {
      ReadItemIff(sem, v, b);
    }
  }

  lemma {:induction false} ReadAllEach<V(!new)>(sem: Semver<V>, items: seq<Value>)
    ensures ReadAll(sem, items).Some? <==> forall v :: v in items ==> Readable(sem, v)
    ensures ReadAll(sem, items).Some? ==>
      var parsed := ReadAll(sem, items).value;
      |parsed| == |items| && forall i :: 0 <= i < |items| ==> Reads(sem, items[i], parsed[i])
  {
    if items != [] {
      ReadAllEach(sem, items[1..]);
      ItemReads(sem, items[0]);
      assert items == [items[0]] + items[1..];
      hide ReadItem, Reads, Readable;
    }
  }

  /** What the section of a file is read as: each element in order, or nothing if one cannot be read. */
  lemma SectionReads<V(!new)>(sem: Semver<V>, root: Tbl, version: V)
    requires SECTION in root && root[SECTION].Array?
    ensures
      var items := root[SECTION].items;
      var parsed := Outcome(sem, version, Table(root));
      && (parsed.Some? <==> forall v :: v in items ==> Readable(sem, v))
      && (parsed.Some? ==>
           |parsed.value| == |items| && forall i :: 0 <= i < |items| ==> Reads(sem, items[i], parsed.value[i]))
  {
    hide Reads, ReadItem, Readable;
    ReadsItems(sem, root[SECTION].items);
    ReadAllEach(sem, root[SECTION].items);
  }

  /** The running version is within both bounds, each included. */
  predicate Applies<V>(sem: Semver<V>, version: V, b: Bounded<V>) {
    sem.leq(b.min, version) && (b.max == None || sem.leq(version, b.max.value))
  }

  /** Entry `j` gives way to entry `k`: its minimum is lower, or the same and it is declared earlier. */
  predicate GivesWay<V>(sem: Semver<V>, parsed: seq<Bounded<V>>, j: nat, k: nat)
    requires j < |parsed| && k < |parsed|
  {
    sem.leq(parsed[j].min, parsed[k].min) && (sem.leq(parsed[k].min, parsed[j].min) ==> j < k)
  }

  /** At any path, of the entries as declared that apply and touch it, the one with the highest minimum
      decides what is there, and of those with one minimum the last. */
  lemma HighestMinimumDecides<V(!new)>(
      sem: Semver<V>, version: V, config: Value, parsed: seq<Bounded<V>>, k: nat, p: Path)
    requires TotalOrder(sem.leq)
    requires p != [] && p[0] != "version_overrides" && p[0] != "campaigns"
    requires k < |parsed| && Applies(sem, version, parsed[k]) && Touches(parsed[k].patch, p)
    requires forall j ::
      0 <= j < |parsed| && j != k && Applies(sem, version, parsed[j]) && Touches(parsed[j].patch, p) ==>
        GivesWay(sem, parsed, j, k)
    ensures At(Overlaid(sem, version, config, parsed), p)
         == if Bears(Table(parsed[k].patch), p) == Cut then Absent
            else NodeOf(Some(Bears(Table(parsed[k].patch), p).value))
  {
    var sorted := Sort(MinLeq(sem), parsed);
    var near := (x: Bounded<V>) => Applies(sem, version, x) && Touches(x.patch, p);
    var m := LastDeciding(sem, near, parsed, k);
    hide Sort, Bears, MinLeq;
    LastSelectedDecides(sem, version, config, sorted, m, p);
  }

  /** In application order, the last entry of a kind is the one that all others give way to. */
  lemma LastDeciding<V(!new)>(sem: Semver<V>, near: Bounded<V> -> bool, parsed: seq<Bounded<V>>, k: nat)
    returns (m: nat)
    requires TotalOrder(sem.leq) && k < |parsed| && near(parsed[k])
    requires forall j :: 0 <= j < |parsed| && j != k && near(parsed[j]) ==> GivesWay(sem, parsed, j, k)
    ensures
      var sorted := Sort(MinLeq(sem), parsed);
      && m < |sorted| && sorted[m] == parsed[k]
      && forall i :: m < i < |sorted| ==> !near(sorted[i])
  {
    var sorted := Sort(MinLeq(sem), parsed);
    var like := Equivalent(MinLeq(sem), parsed[k]);
    AppliedInOrder(sem, parsed, parsed[k]);
    hide Sort, MinLeq;
    assert parsed[k] in multiset(sorted);
    m := LastIndex(near, sorted);
    SameMinimum(sem, near, parsed, sorted, k, m);
    var same := (x: Bounded<V>) => near(x) && like(x);
    LastOfAt(same, parsed, k);
    LastOfAt(same, sorted, m);
    LastOfFilter(same, like, parsed);
    LastOfFilter(same, like, sorted);
  }

  lemma SameMinimum<V(!new)>(sem: Semver<V>, near: Bounded<V> -> bool, parsed: seq<Bounded<V>>,
                             sorted: seq<Bounded<V>>, k: nat, m: nat)
    requires TotalOrder(sem.leq) && k < |parsed| && m < |sorted|
    requires Sorted(MinLeq(sem), sorted) && multiset(sorted) == multiset(parsed)
    requires near(parsed[k]) && near(sorted[m]) && forall i :: m < i < |sorted| ==> !near(sorted[i])
    requires forall j :: 0 <= j < |parsed| && j != k && near(parsed[j]) ==> GivesWay(sem, parsed, j, k)
    ensures Equivalent(MinLeq(sem), parsed[k])(sorted[m]) && Equivalent(MinLeq(sem), parsed[k])(parsed[k])
    ensures forall j :: k < j < |parsed| ==> !(near(parsed[j]) && Equivalent(MinLeq(sem), parsed[k])(parsed[j]))
  {
    var b := parsed[k];
    assert sem.leq(b.min, b.min);
    assert b in multiset(sorted) && sorted[m] in multiset(parsed);
    var i :| 0 <= i < |sorted| && sorted[i] == b;
    var j :| 0 <= j < |parsed| && parsed[j] == sorted[m];
    assert i < m ==> MinLeq(sem)(sorted[i], sorted[m]);
    assert sem.leq(b.min, sorted[m].min) && sem.leq(sorted[m].min, b.min);
    forall l | k < l < |parsed| && near(parsed[l])
      ensures !Equivalent(MinLeq(sem), b)(parsed[l])
    {
      assert GivesWay(sem, parsed, l, k);
    }
  }

  /** Where no entry that applies touches a path, the config keeps its value there. */
  lemma NoneAppliesKeeps<V(!new)>(sem: Semver<V>, version: V, config: Value, parsed: seq<Bounded<V>>, p: Path)
    requires TotalOrder(sem.leq) && p != []
    requires forall j :: 0 <= j < |parsed| && Applies(sem, version, parsed[j]) ==> !Touches(parsed[j].patch, p)
    ensures Get(Overlaid(sem, version, config, parsed), p) == Get(config, p)
  {
    var sorted := Sort(MinLeq(sem), parsed);
    SortPermutes(MinLeq(sem), parsed);
    forall i | 0 <= i < |sorted| && InRange(sem, version, sorted[i])
      ensures !Touches(sorted[i].patch, p)
    {
      assert sorted[i] in multiset(parsed);
    }
    SelectedUntouched(sem, version, sorted, p);
    MergeAllFrame(config, Layers(Selected(sem, version, sorted), PATCH_STRIP_KEYS), p);
  }
}
