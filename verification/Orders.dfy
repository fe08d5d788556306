/** Total orders, lexicographic order, stable sorting and sorted listings of finite sets. */
module Orders {
  import opened Sequences

  /** Total and transitive; ties are allowed. */
  ghost predicate TotalPreorder<T(!new)>(leq: (T, T) -> bool) {
    && (forall x, y :: leq(x, y) || leq(y, x))
    && (forall x, y, z :: leq(x, y) && leq(y, z) ==> leq(x, z))
  }

  ghost predicate TotalOrder<T(!new)>(leq: (T, T) -> bool) {
    && TotalPreorder(leq)
    && forall x, y :: leq(x, y) && leq(y, x) ==> x == y
  }

  ghost predicate Sorted<T>(leq: (T, T) -> bool, s: seq<T>) {
    forall i, j :: 0 <= i < j < |s| ==> leq(s[i], s[j])
  }

  ghost predicate StrictlySorted<T>(leq: (T, T) -> bool, s: seq<T>) {
    forall i, j :: 0 <= i < j < |s| ==> leq(s[i], s[j]) && s[i] != s[j]
  }

  ghost predicate Distinct<T>(s: seq<T>) {
    forall i, j :: 0 <= i < j < |s| ==> s[i] != s[j]
  }

  function ToSet<T>(s: seq<T>): set<T> {
    set x | x in s
  }

  lemma ToSetConcat<T>(a: seq<T>, b: seq<T>)
    ensures ToSet(a + b) == ToSet(a) + ToSet(b)
  {
  }

  // ---------------------------------------------------------------- stable sort

  function Insert<T>(leq: (T, T) -> bool, x: T, s: seq<T>): seq<T> {
    if s == [] || leq(x, s[0]) then [x] + s else [s[0]] + Insert(leq, x, s[1..])
  }

  /** Sorting that keeps equivalent elements in their given order. */
  function Sort<T>(leq: (T, T) -> bool, s: seq<T>): seq<T> {
    if s == [] then [] else Insert(leq, s[0], Sort(leq, s[1..]))
  }

  function Equivalent<T>(leq: (T, T) -> bool, k: T): T -> bool {
    x => leq(x, k) && leq(k, x)
  }

  lemma {:induction false} InsertElements<T>(leq: (T, T) -> bool, x: T, s: seq<T>)
    ensures multiset(Insert(leq, x, s)) == multiset{x} + multiset(s)
  {
    if s != [] && !leq(x, s[0]) {
      InsertElements(leq, x, s[1..]);
      assert s == [s[0]] + s[1..];
    }
  }

  lemma {:induction false} InsertSorted<T(!new)>(leq: (T, T) -> bool, x: T, s: seq<T>)
    requires TotalPreorder(leq) && Sorted(leq, s)
    ensures Sorted(leq, Insert(leq, x, s))
  {
    if s != [] && !leq(x, s[0]) {
      var t := Insert(leq, x, s[1..]);
      InsertSorted(leq, x, s[1..]);
      InsertElements(leq, x, s[1..]);
      forall y | y in t
        ensures leq(s[0], y)
      {
        assert y in multiset(t);
      }
    }
  }

  lemma {:induction false} SortPermutes<T>(leq: (T, T) -> bool, s: seq<T>)
    ensures multiset(Sort(leq, s)) == multiset(s)
  {
    if s != [] {
      SortPermutes(leq, s[1..]);
      InsertElements(leq, s[0], Sort(leq, s[1..]));
      assert s == [s[0]] + s[1..];
    }
  }

  lemma {:induction false} SortSorts<T(!new)>(leq: (T, T) -> bool, s: seq<T>)
    requires TotalPreorder(leq)
    ensures Sorted(leq, Sort(leq, s))
  {
    if s != [] {
      SortSorts(leq, s[1..]);
      InsertSorted(leq, s[0], Sort(leq, s[1..]));
    }
  }

  lemma {:induction false} InsertStable<T(!new)>(leq: (T, T) -> bool, x: T, s: seq<T>, k: T)
    requires TotalPreorder(leq) && Sorted(leq, s)
    ensures Filter(Equivalent(leq, k), Insert(leq, x, s)) == Filter(Equivalent(leq, k), [x] + s)
  {
    if s != [] && !leq(x, s[0]) {
      InsertStable(leq, x, s[1..], k);
      var e := Equivalent(leq, k);
      assert ([s[0]] + Insert(leq, x, s[1..]))[1..] == Insert(leq, x, s[1..]);
      assert ([x] + s)[1..] == s && ([x] + s[1..])[1..] == s[1..];
      assert !(e(x) && e(s[0]));
    }
  }

  /** Elements equivalent to any `k` come out in the order they went in. */
  lemma {:induction false} SortStable<T(!new)>(leq: (T, T) -> bool, s: seq<T>, k: T)
    requires TotalPreorder(leq)
    ensures Filter(Equivalent(leq, k), Sort(leq, s)) == Filter(Equivalent(leq, k), s)
  {
    if s != [] {
      var t := Sort(leq, s[1..]);
      SortStable(leq, s[1..], k);
      SortSorts(leq, s[1..]);
      InsertStable(leq, s[0], t, k);
      assert ([s[0]] + t)[1..] == t;
    }
  }

  lemma TailElements<T>(x: seq<T>)
    requires x != []
    ensures multiset(x[1..]) == multiset(x) - multiset{x[0]}
  {
    assert x == [x[0]] + x[1..];
  }

  /** Without ties, a sorted sequence is determined by its multiset of elements. */
  lemma {:induction false} SortedUnique<T(!new)>(leq: (T, T) -> bool, x: seq<T>, y: seq<T>)
    requires TotalPreorder(leq) && Sorted(leq, x) && Sorted(leq, y)
    requires multiset(x) == multiset(y)
    requires forall u, v :: u in x && v in x && leq(u, v) && leq(v, u) ==> u == v
    ensures x == y
    decreases |x|
  {
    assert |x| == |multiset(x)| == |multiset(y)| == |y|;
    if x != [] {
      HeadsAgree(leq, x, y);
      TailElements(x);
      TailElements(y);
      SortedUnique(leq, x[1..], y[1..]);
    }
  }

  lemma HeadsAgree<T(!new)>(leq: (T, T) -> bool, x: seq<T>, y: seq<T>)
    requires TotalPreorder(leq) && Sorted(leq, x) && Sorted(leq, y)
    requires multiset(x) == multiset(y) && x != [] && y != []
    requires forall u, v :: u in x && v in x && leq(u, v) && leq(v, u) ==> u == v
    ensures x[0] == y[0]
  {
    assert x[0] in multiset(y) && y[0] in multiset(x);
    var i :| 0 <= i < |y| && y[i] == x[0];
    var j :| 0 <= j < |x| && x[j] == y[0];
    assert leq(y[0], y[i]) && leq(x[0], x[j]);
  }

  /** A strictly sorted sequence is determined by its elements. */
  lemma {:induction false} StrictlySortedUnique<T(!new)>(leq: (T, T) -> bool, a: seq<T>, b: seq<T>)
    requires TotalOrder(leq) && StrictlySorted(leq, a) && StrictlySorted(leq, b)
    requires ToSet(a) == ToSet(b)
    ensures a == b
  {
    assert b != [] ==> b[0] in ToSet(b);
    if a != [] {
      assert a[0] in ToSet(a);
      assert b != [];
      assert b[0] in ToSet(b);
      assert leq(a[0], b[0]) && leq(b[0], a[0]);
      forall x
        ensures x in ToSet(a[1..]) <==> x in ToSet(b[1..])
      {
        assert x in ToSet(a[1..]) <==> x in ToSet(a) && x != a[0];
        assert x in ToSet(b[1..]) <==> x in ToSet(b) && x != b[0];
      }
      StrictlySortedUnique(leq, a[1..], b[1..]);
    }
  }

  // ---------------------------------------------------------------- listings of finite sets

  lemma {:induction false} LeastExists<T(!new)>(leq: (T, T) -> bool, s: set<T>)
    requires TotalOrder(leq) && s != {}
    ensures exists m :: m in s && forall x :: x in s ==> leq(m, x)
    decreases |s|
  {
    var a :| a in s;
    if s == {a} {
      assert forall x :: x in s ==> leq(a, x);
    } else {
      var rest := s - {a};
      assert rest != {};
      LeastExists(leq, rest);
      var m :| m in rest && forall x :: x in rest ==> leq(m, x);
      var least := if leq(a, m) then a else m;
      assert forall x :: x in s ==> x == a || x in rest;
      assert least in s && forall x :: x in s ==> leq(least, x);
    }
  }

  function Least<T(!new, ==)>(leq: (T, T) -> bool, s: set<T>): (m: T)
    requires TotalOrder(leq) && s != {}
    ensures m in s && forall x :: x in s ==> leq(m, x)
  {
    LeastExists(leq, s);
    var m :| m in s && forall x :: x in s ==> leq(m, x);
    m
  }

  /** The elements of a set in increasing order. */
  function SortedSet<T(!new, ==)>(leq: (T, T) -> bool, s: set<T>): (r: seq<T>)
    requires TotalOrder(leq)
    ensures StrictlySorted(leq, r)
    ensures forall x :: x in r <==> x in s
    decreases |s|
  {
    if s == {} then []
    else
      var m := Least(leq, s);
      [m] + SortedSet(leq, s - {m})
  }

  /** Sorting a sequence without repetitions lists its set of elements. */
  lemma SortOfDistinct<T(!new)>(leq: (T, T) -> bool, s: seq<T>)
    requires TotalOrder(leq) && Distinct(s)
    ensures Sort(leq, s) == SortedSet(leq, ToSet(s))
  {
    var t := Sort(leq, s);
    SortSorts(leq, s);
    SortPermutes(leq, s);
    DistinctCounts(s);
    CountsDistinct(t);
    forall x
      ensures x in t <==> x in s
    {
      assert x in t <==> x in multiset(t);
      assert x in s <==> x in multiset(s);
    }
    StrictlySortedUnique(leq, t, SortedSet(leq, ToSet(s)));
  }

  lemma {:induction false} DistinctCounts<T>(s: seq<T>)
    requires Distinct(s)
    ensures forall x :: multiset(s)[x] <= 1
  {
    if s != [] {
      DistinctCounts(s[1..]);
      assert s == [s[0]] + s[1..];
      assert s[0] !in s[1..];
    }
  }

  lemma CountsDistinct<T>(s: seq<T>)
    requires forall x :: multiset(s)[x] <= 1
    ensures Distinct(s)
  {
    forall i, j | 0 <= i < j < |s|
      ensures s[i] != s[j]
    {
      assert s == s[..j] + s[j..];
      assert s[i] == s[..j][i] && s[j] == s[j..][0];
      assert multiset(s)[s[i]] == multiset(s[..j])[s[i]] + multiset(s[j..])[s[i]];
    }
  }

  // ---------------------------------------------------------------- lexicographic order

  /** The order Python gives lists and strings: compare at the first difference. */
  function Lex<T(==)>(leq: (T, T) -> bool): (seq<T>, seq<T>) -> bool {
    (a, b) => LexLeq(leq, a, b)
  }

  predicate LexLeq<T(==)>(leq: (T, T) -> bool, a: seq<T>, b: seq<T>) {
    || a == []
    || (b != [] && if a[0] == b[0] then LexLeq(leq, a[1..], b[1..]) else leq(a[0], b[0]))
  }

  lemma {:induction false} LexTotal<T(!new)>(leq: (T, T) -> bool, a: seq<T>, b: seq<T>)
    requires TotalOrder(leq)
    ensures LexLeq(leq, a, b) || LexLeq(leq, b, a)
    ensures LexLeq(leq, a, b) && LexLeq(leq, b, a) ==> a == b
    decreases |a|
  {
    if a != [] && b != [] && a[0] == b[0] {
      LexTotal(leq, a[1..], b[1..]);
      assert a == [a[0]] + a[1..] && b == [b[0]] + b[1..];
    }
  }

  lemma {:induction false} LexTransitive<T(!new)>(leq: (T, T) -> bool, a: seq<T>, b: seq<T>, c: seq<T>)
    requires TotalOrder(leq) && LexLeq(leq, a, b) && LexLeq(leq, b, c)
    ensures LexLeq(leq, a, c)
    decreases |a|
  {
    if a != [] && a[0] == b[0] == c[0] {
      LexTransitive(leq, a[1..], b[1..], c[1..]);
    }
  }

  lemma LexTotalOrder<T(!new)>(leq: (T, T) -> bool)
    requires TotalOrder(leq)
    ensures TotalOrder(Lex(leq))
  {
    forall a, b {
      LexTotal(leq, a, b);
    }
    forall a, b, c | LexLeq(leq, a, b) && LexLeq(leq, b, c) {
      LexTransitive(leq, a, b, c);
    }
  }

  function CharLeq(): (char, char) -> bool {
    (a, b) => a <= b
  }

  function StringLeq(): (string, string) -> bool {
    Lex(CharLeq())
  }

  lemma StringsOrdered()
    ensures TotalOrder(StringLeq())
    ensures TotalOrder(Lex(StringLeq()))
  {
    LexTotalOrder(CharLeq());
    LexTotalOrder(StringLeq());
  }
}
