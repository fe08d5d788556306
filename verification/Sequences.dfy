/** Concatenation, and the first element of each key of a list. */
module Sequences {
  import opened Wrappers

  function Concat<T>(chunks: seq<seq<T>>): seq<T> {
    if chunks == [] then [] else Concat(chunks[..|chunks| - 1]) + chunks[|chunks| - 1]
  }

  function KeysOf<T(==), K(==)>(key: T -> K, s: seq<T>): set<K> {
    set x | x in s :: key(x)
  }

  /** The elements that no earlier element shares its key with, in order. */
  function FirstBy<T(==), K(==)>(key: T -> K, s: seq<T>): seq<T> {
    if s == [] then []
    else
      var n := |s| - 1;
      FirstBy(key, s[..n]) + if key(s[n]) in KeysOf(key, s[..n]) then [] else [s[n]]
  }

  lemma OneMoreKey<T, K>(key: T -> K, s: seq<T>, x: T)
    ensures KeysOf(key, s + [x]) == KeysOf(key, s) + {key(x)}
    ensures FirstBy(key, s + [x]) == if key(x) in KeysOf(key, s) then FirstBy(key, s) else FirstBy(key, s) + [x]
  {
    assert (s + [x])[..|s|] == s;
  }

  ghost predicate DistinctKeys<T, K>(key: T -> K, s: seq<T>) {
    forall i, j :: 0 <= i < j < |s| ==> key(s[i]) != key(s[j])
  }

  lemma {:induction false} FirstByDistinct<T, K>(key: T -> K, s: seq<T>)
    ensures DistinctKeys(key, FirstBy(key, s)) && KeysOf(key, FirstBy(key, s)) == KeysOf(key, s)
  {
    if s != [] {
      var n := |s| - 1;
      FirstByDistinct(key, s[..n]);
      assert s == s[..n] + [s[n]];
      OneMoreKey(key, s[..n], s[n]);
      hide FirstBy;
      if key(s[n]) !in KeysOf(key, s[..n]) {
        MoreDistinct(key, FirstBy(key, s[..n]), s[n]);
      }
    }
  }

  lemma MoreDistinct<T, K>(key: T -> K, s: seq<T>, x: T)
    requires DistinctKeys(key, s) && key(x) !in KeysOf(key, s)
    ensures DistinctKeys(key, s + [x]) && KeysOf(key, s + [x]) == KeysOf(key, s) + {key(x)}
  {
    OneMoreKey(key, s, x);
    assert forall i :: 0 <= i < |s| ==> key(s[i]) in KeysOf(key, s);
  }

  // ---------------------------------------------------------------- picking by position

  ghost predicate Increasing(picks: seq<int>) {
    forall k, l :: 0 <= k < l < |picks| ==> picks[k] < picks[l]
  }

  lemma MorePicks(before: seq<int>, n: int, picks: seq<int>)
    requires Increasing(before) && forall k :: 0 <= k < |before| ==> before[k] < n
    requires picks == before + [n] || picks == before
    ensures Increasing(picks)
    ensures forall i :: i in picks <==> i in before || (i == n && picks != before)
  {
  }

  function Filter<T>(keep: T -> bool, s: seq<T>): seq<T> {
    if s == [] then []
    else if keep(s[0]) then [s[0]] + Filter(keep, s[1..])
    else Filter(keep, s[1..])
  }

  lemma {:induction false} FilterConcat<T>(keep: T -> bool, a: seq<T>, b: seq<T>)
    ensures Filter(keep, a + b) == Filter(keep, a) + Filter(keep, b)
    decreases |a|
  {
    if a == [] {
      assert a + b == b;
    } else {
      assert (a + b)[1..] == a[1..] + b;
      FilterConcat(keep, a[1..], b);
    }
  }

  lemma {:induction false} FilterContents<T>(keep: T -> bool, s: seq<T>, x: T)
    ensures x in Filter(keep, s) <==> x in s && keep(x)
  {
    if s != [] {
      FilterContents(keep, s[1..], x);
      assert s == [s[0]] + s[1..];
    }
  }

  /** `r` holds the elements of `s` to keep, each once and in order; `picks` says where they were. */
  ghost predicate Picked<T>(keep: T -> bool, s: seq<T>, r: seq<T>, picks: seq<int>) {
    && Increasing(picks)
    && (forall i :: i in picks <==> 0 <= i < |s| && keep(s[i]))
    && |picks| == |r|
    && (forall k :: 0 <= k < |picks| ==> 0 <= picks[k] < |s| && r[k] == s[picks[k]])
  }

  lemma PickMore<T>(keep: T -> bool, s: seq<T>, r: seq<T>, picks: seq<int>, x: T)
    requires Picked(keep, s, r, picks)
    ensures keep(x) ==> Picked(keep, s + [x], r + [x], picks + [|s|])
    ensures !keep(x) ==> Picked(keep, s + [x], r, picks)
  {
    forall i
      ensures i in picks + [|s|] <==> i in picks || i == |s|
    {
    }
  }

  lemma {:induction false} FilterPicks<T>(keep: T -> bool, s: seq<T>) returns (picks: seq<int>)
    ensures Picked(keep, s, Filter(keep, s), picks)
  {
    picks := [];
    if s != [] {
      var n := |s| - 1;
      picks := FilterPicks(keep, s[..n]);
      FilterConcat(keep, s[..n], [s[n]]);
      assert s == s[..n] + [s[n]] && [s[n]][1..] == [];
      assert Filter(keep, [s[n]]) == if keep(s[n]) then [s[n]] else [];
      PickMore(keep, s[..n], Filter(keep, s[..n]), picks, s[n]);
      hide Filter, Picked;
      picks := if keep(s[n]) then picks + [n] else picks;
    }
  }

  // ---------------------------------------------------------------- the last of a kind

  function LastOf<T>(pred: T -> bool, s: seq<T>): Option<T> {
    if s == [] then None
    else if pred(s[|s| - 1]) then Some(s[|s| - 1])
    else LastOf(pred, s[..|s| - 1])
  }

  lemma {:induction false} LastOfAt<T>(pred: T -> bool, s: seq<T>, k: nat)
    requires k < |s| && pred(s[k]) && forall i :: k < i < |s| ==> !pred(s[i])
    ensures LastOf(pred, s) == Some(s[k])
    decreases |s|
  {
    if k < |s| - 1 {
      LastOfAt(pred, s[..|s| - 1], k);
    }
  }

  /** Dropping elements of other kinds does not change which one is last. */
  lemma {:induction false} LastOfFilter<T(!new)>(pred: T -> bool, keep: T -> bool, s: seq<T>)
    requires forall x :: pred(x) ==> keep(x)
    ensures LastOf(pred, Filter(keep, s)) == LastOf(pred, s)
  {
    if s != [] {
      var front, last := s[..|s| - 1], s[|s| - 1];
      LastOfFilter(pred, keep, front);
      FilterConcat(keep, front, [last]);
      assert s == front + [last] && [last][1..] == [];
      assert Filter(keep, [last]) == if keep(last) then [last] else [];
      var kept := Filter(keep, front);
      assert kept + [] == kept && (kept + [last])[..|kept|] == kept;
    }
  }

  lemma {:induction false} LastIndex<T>(pred: T -> bool, s: seq<T>) returns (m: nat)
    requires exists x :: x in s && pred(x)
    ensures m < |s| && pred(s[m]) && forall i :: m < i < |s| ==> !pred(s[i])
  {
    m := |s| - 1;
    if !pred(s[m]) {
      assert s == s[..m] + [s[m]];
      m := LastIndex(pred, s[..m]);
    }
  }
}
