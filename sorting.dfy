/** Ordering, `sorted(col.dropna().unique())` and `groupby(key).size()`. */
module Sorting {
  import opened Wrappers
  import opened Tables

  /** `lt` is the "less than" of a total order: Python's `<` on the column's type. */
  ghost predicate StrictTotalOrder<K(!new)>(lt: (K, K) -> bool) {
    && (forall x :: !lt(x, x))
    && (forall x, y, z :: lt(x, y) && lt(y, z) ==> lt(x, z))
    && (forall x, y :: x != y ==> lt(x, y) || lt(y, x))
  }

  /** Strictly increasing: sorted with no value twice. */
  predicate Ascending<K>(s: seq<K>, lt: (K, K) -> bool) {
    forall i, j :: 0 <= i < j < |s| ==> lt(s[i], s[j])
  }

  /** `<` on integers. */
  predicate IntLt(a: int, b: int) {
    a < b
  }

  /** A sequence each of whose neighbours are in order is ascending throughout. */
  lemma {:induction false} AscendingByNeighbours<K(!new)>(s: seq<K>, lt: (K, K) -> bool)
    requires StrictTotalOrder(lt)
    requires forall i :: 0 <= i && i + 1 < |s| ==> lt(s[i], s[i + 1])
    ensures Ascending(s, lt)
  {
    if |s| > 1 {
      var tail := s[1..];
      assert forall i :: 0 <= i < |tail| ==> tail[i] == s[i + 1];
      AscendingByNeighbours(tail, lt);
      forall i, j | 0 <= i < j < |s|
        ensures lt(s[i], s[j])
      {
        if i > 0 {
          assert lt(tail[i - 1], tail[j - 1]);
        } else if j > 1 {
          assert lt(tail[0], tail[j - 1]);
        }
      }
    }
  }

  /** Adds `x` to an ascending sequence, unless it is already there. */
  function Insert<K(==,!new)>(s: seq<K>, x: K, lt: (K, K) -> bool): (r: seq<K>)
    requires StrictTotalOrder(lt) && Ascending(s, lt)
    ensures Ascending(r, lt)
    ensures forall y :: y in r <==> y in s || y == x
  {
    if s == [] then [x]
    else if x == s[0] then s
    else if lt(x, s[0]) then [x] + s
    else
      var rest := Insert(s[1..], x, lt);
      assert forall y :: y in s[1..] ==> lt(s[0], y);
      [s[0]] + rest
  }

  /** The distinct values of `xs` in ascending order: Python's `sorted(xs.unique())`. */
  function SortedDistinct<K(==,!new)>(xs: seq<K>, lt: (K, K) -> bool): (r: seq<K>)
    requires StrictTotalOrder(lt)
    ensures Ascending(r, lt)
    ensures forall y :: y in r <==> y in xs
  {
    if xs == [] then []
    else
      var init := xs[..|xs| - 1];
      assert xs == init + [xs[|xs| - 1]];
      Insert(SortedDistinct(init, lt), xs[|xs| - 1], lt)
  }

  /** An ascending sequence has no duplicates. */
  lemma AscendingIsDistinct<K(!new)>(s: seq<K>, lt: (K, K) -> bool)
    requires StrictTotalOrder(lt) && Ascending(s, lt)
    ensures Distinct(s)
  {
  }

  /** The ascending arrangement of a set of values is unique, so `SortedDistinct` is
    * the list `sorted(unique(...))` whatever algorithm builds it. */
  lemma {:induction false} AscendingUnique<K(!new)>(a: seq<K>, b: seq<K>, lt: (K, K) -> bool)
    requires StrictTotalOrder(lt) && Ascending(a, lt) && Ascending(b, lt)
    requires forall y :: y in a <==> y in b
    ensures a == b
  {
    if b != [] {
      assert b[0] in a;
    }
    if a != [] {
      assert a[0] in b;
    }
    if a != [] && b != [] {
      assert a[0] == b[0];
      forall y
        ensures y in a[1..] <==> y in b[1..]
      {
        if y in a[1..] {
          var i :| 1 <= i < |a| && a[i] == y;
          assert y != a[0];
          assert y in b;
        }
        if y in b[1..] {
          var j :| 1 <= j < |b| && b[j] == y;
          assert y != b[0];
          assert y in a;
        }
      }
      AscendingUnique(a[1..], b[1..], lt);
      assert a == [a[0]] + a[1..];
      assert b == [b[0]] + b[1..];
    }
  }

  function HasKey<T, K(==)>(key: T -> Option<K>, k: K): T -> bool {
    x => key(x) == Some(k)
  }

  function HasSomeKey<T, K>(key: T -> Option<K>): T -> bool {
    x => key(x).Some?
  }

  /** The size of the group of rows whose key is `k`. */
  function CountOf<T(==,!new), K(==)>(s: seq<T>, key: T -> Option<K>, k: K): nat {
    |Where(s, HasKey(key, k))|
  }

  function Tally<T(==,!new), K(==)>(s: seq<T>, key: T -> Option<K>, ks: seq<K>): seq<(K, nat)> {
    if ks == [] then [] else [(ks[0], CountOf(s, key, ks[0]))] + Tally(s, key, ks[1..])
  }

  function Keys<K>(g: seq<(K, nat)>): seq<K> {
    seq(|g|, i requires 0 <= i < |g| => g[i].0)
  }

  function Total<K>(g: seq<(K, nat)>): nat {
    if g == [] then 0 else g[0].1 + Total(g[1..])
  }

  /** Number of the keys in `ks` that a row carries. */
  function Hits<T, K(==)>(x: T, key: T -> Option<K>, ks: seq<K>): nat {
    if ks == [] then 0 else (if key(x) == Some(ks[0]) then 1 else 0) + Hits(x, key, ks[1..])
  }

  lemma {:induction false} HitsOfDistinct<T, K(!new)>(x: T, key: T -> Option<K>, ks: seq<K>)
    requires Distinct(ks)
    ensures Hits(x, key, ks) == if key(x).Some? && key(x).value in ks then 1 else 0
  {
    if ks != [] {
      HitsOfDistinct(x, key, ks[1..]);
      if key(x) == Some(ks[0]) {
        assert ks[0] !in ks[1..];
      }
    }
  }

  lemma {:induction false} TallyCons<T(!new), K(!new)>(x: T, s: seq<T>, key: T -> Option<K>, ks: seq<K>)
    ensures Total(Tally([x] + s, key, ks)) == Hits(x, key, ks) + Total(Tally(s, key, ks))
  {
    if ks != [] {
      TallyCons(x, s, key, ks[1..]);
      assert ([x] + s)[1..] == s;
    }
  }

  /** Counting group by group over distinct keys that cover every keyed row counts
    * each keyed row exactly once. */
  lemma {:induction false} TallyTotal<T(!new), K(!new)>(s: seq<T>, key: T -> Option<K>, ks: seq<K>)
    requires Distinct(ks)
    requires forall x :: x in s && key(x).Some? ==> key(x).value in ks
    ensures Total(Tally(s, key, ks)) == |Where(s, HasSomeKey(key))|
  {
    if s == [] {
      TallyOfEmpty(key, ks);
    } else {
      assert s == [s[0]] + s[1..];
      assert s[0] in s;
      TallyCons(s[0], s[1..], key, ks);
      HitsOfDistinct(s[0], key, ks);
      TallyTotal(s[1..], key, ks);
    }
  }

  lemma {:induction false} TallyOfEmpty<T(!new), K(!new)>(key: T -> Option<K>, ks: seq<K>)
    ensures Total(Tally([], key, ks)) == 0
  {
    if ks != [] {
      TallyOfEmpty(key, ks[1..]);
    }
  }

  lemma {:induction false} TallyShape<T(!new), K(!new)>(s: seq<T>, key: T -> Option<K>, ks: seq<K>)
    ensures Keys(Tally(s, key, ks)) == ks
    ensures forall i :: 0 <= i < |ks| ==> Tally(s, key, ks)[i].1 == CountOf(s, key, ks[i])
  {
    if ks != [] {
      TallyShape(s, key, ks[1..]);
    }
  }

  /** A key some row carries has a non-empty group. */
  lemma GroupsOfPresentKeys<T(!new), K(!new)>(s: seq<T>, key: T -> Option<K>, ks: seq<K>)
    requires forall k :: k in ks ==> exists x :: x in s && key(x) == Some(k)
    ensures forall i :: 0 <= i < |ks| ==> CountOf(s, key, ks[i]) > 0
  {
    forall i | 0 <= i < |ks| ensures Where(s, HasKey(key, ks[i])) != [] {
      assert ks[i] in ks;
      var x :| x in s && key(x) == Some(ks[i]);
      assert x in Where(s, HasKey(key, ks[i]));
    }
  }

  /** Tallying the ascending list of the present keys gives the groups. */
  lemma TallyOfPresentKeys<T(!new), K(!new)>(s: seq<T>, key: T -> Option<K>, lt: (K, K) -> bool, ks: seq<K>)
    requires StrictTotalOrder(lt) && Ascending(ks, lt)
    requires forall k :: k in ks <==> exists x :: x in s && key(x) == Some(k)
    ensures Keys(Tally(s, key, ks)) == ks
    ensures forall i :: 0 <= i < |ks| ==> Tally(s, key, ks)[i].0 == ks[i] && 0 < Tally(s, key, ks)[i].1 == CountOf(s, key, ks[i])
    ensures Total(Tally(s, key, ks)) == |Where(s, HasSomeKey(key))|
  {
    TallyShape(s, key, ks);
    AscendingIsDistinct(ks, lt);
    TallyTotal(s, key, ks);
    GroupsOfPresentKeys(s, key, ks);
    var g := Tally(s, key, ks);
    forall i | 0 <= i < |ks| ensures g[i].0 == ks[i] {
      assert Keys(g)[i] == g[i].0;
    }
  }

  /** `groupby(key).size()`: one entry per distinct non-missing key, in ascending key
    * order, holding the number of rows with that key; rows with a missing key are
    * dropped, so the sizes add up to the number of keyed rows. */
  function GroupSizes<T(==,!new), K(==,!new)>(s: seq<T>, key: T -> Option<K>, lt: (K, K) -> bool): (g: seq<(K, nat)>)
    requires StrictTotalOrder(lt)
    ensures Ascending(Keys(g), lt)
    ensures forall k :: k in Keys(g) <==> exists x :: x in s && key(x) == Some(k)
    ensures forall i :: 0 <= i < |g| ==> g[i].0 == Keys(g)[i] && 0 < g[i].1 == CountOf(s, key, g[i].0)
    ensures Total(g) == |Where(s, HasSomeKey(key))|
  {
    var ks := SortedDistinct(Present(s, key), lt);
    TallyOfPresentKeys(s, key, lt, ks);
    Tally(s, key, ks)
  }
}
