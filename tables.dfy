/** Row selection on a table held as a sequence of records: the part of a
  * dataframe's behaviour that the dashboards rely on. */
module Tables {
  import opened Wrappers

  /** Boolean-mask selection `df[mask]`: the rows satisfying `p`, in their original order. */
  function Where<T(==,!new)>(s: seq<T>, p: T -> bool): (r: seq<T>)
    ensures |r| <= |s|
    ensures forall x :: x in r <==> x in s && p(x)
  {
    if s == [] then [] else (if p(s[0]) then [s[0]] else []) + Where(s[1..], p)
  }

  /** `a` can be obtained from `b` by deleting elements: order is preserved. */
  predicate IsSubsequence<T(==,!new)>(a: seq<T>, b: seq<T>)
    decreases |b|
  {
    if a == [] then true
    else if b == [] then false
    else if a[0] == b[0] then IsSubsequence(a[1..], b[1..])
    else IsSubsequence(a, b[1..])
  }

  predicate Distinct<T(==,!new)>(s: seq<T>) {
    forall i, j :: 0 <= i < j < |s| ==> s[i] != s[j]
  }

  /** Selecting rows keeps them in order. */
  lemma {:induction false} WhereIsSubsequence<T(!new)>(s: seq<T>, p: T -> bool)
    ensures IsSubsequence(Where(s, p), s)
  {
    if s != [] {
      var rest := Where(s[1..], p);
      WhereIsSubsequence(s[1..], p);
      if p(s[0]) {
        assert Where(s, p) == [s[0]] + rest;
        assert ([s[0]] + rest)[1..] == rest;
      } else {
        assert Where(s, p) == rest;
        if rest != [] {
          assert rest[0] in rest;
          assert rest[0] != s[0];
        }
      }
    }
  }

  /** A deletion of a deletion is a deletion. */
  lemma {:induction false} SubsequenceTransitive<T(!new)>(a: seq<T>, b: seq<T>, c: seq<T>)
    requires IsSubsequence(a, b) && IsSubsequence(b, c)
    ensures IsSubsequence(a, c)
    decreases |c|
  {
    if a != [] {
      assert b != [] && c != [];
      if b[0] == c[0] {
        if a[0] == b[0] {
          SubsequenceTransitive(a[1..], b[1..], c[1..]);
        } else {
          SubsequenceTransitive(a, b[1..], c[1..]);
        }
      } else {
        SubsequenceTransitive(a, b, c[1..]);
        if a[0] == c[0] {
          SubsequenceDropHead(a, c[1..]);
        }
        assert [c[0]] + c[1..] == c;
      }
    }
  }

  /** Dropping the first element of a deletion leaves a deletion. */
  lemma {:induction false} SubsequenceDropHead<T(!new)>(a: seq<T>, b: seq<T>)
    requires a != [] && IsSubsequence(a, b)
    ensures IsSubsequence(a[1..], b)
    decreases |b|, 0
  {
    assert b != [];
    if a[0] == b[0] {
      SubsequenceExtend(a[1..], b[1..], b[0]);
    } else {
      SubsequenceDropHead(a, b[1..]);
      SubsequenceExtend(a[1..], b[1..], b[0]);
    }
    assert [b[0]] + b[1..] == b;
  }

  /** A deletion from `b` is a deletion from any extension of `b` at the front. */
  lemma {:induction false} SubsequenceExtend<T(!new)>(a: seq<T>, b: seq<T>, x: T)
    requires IsSubsequence(a, b)
    ensures IsSubsequence(a, [x] + b)
    decreases |b|, 1
  {
    assert ([x] + b)[1..] == b;
    if a != [] && a[0] == x {
      SubsequenceDropHead(a, b);
    }
  }

  /** Two successive selections are one selection by the conjunction. */
  lemma {:induction false} WhereWhere<T(!new)>(s: seq<T>, p: T -> bool, q: T -> bool, pq: T -> bool)
    requires forall x :: pq(x) == (p(x) && q(x))
    ensures Where(Where(s, p), q) == Where(s, pq)
  {
    if s != [] {
      WhereWhere(s[1..], p, q, pq);
      var inner := Where(s[1..], p);
      if p(s[0]) {
        assert Where(s, p) == [s[0]] + inner;
        assert ([s[0]] + inner)[1..] == inner;
      } else {
        assert Where(s, p) == inner;
      }
    }
  }

  /** A condition no row meets selects nothing. */
  lemma {:induction false} WhereNone<T(!new)>(s: seq<T>, p: T -> bool)
    requires forall x :: x in s ==> !p(x)
    ensures Where(s, p) == []
  {
    if s != [] {
      assert s[0] in s;
      assert forall x :: x in s[1..] ==> x in s;
      WhereNone(s[1..], p);
    }
  }

  /** Selections by predicates that agree on the rows present are the same. */
  lemma {:induction false} WhereAgreeing<T(!new)>(s: seq<T>, p: T -> bool, q: T -> bool)
    requires forall x :: x in s ==> p(x) == q(x)
    ensures Where(s, p) == Where(s, q)
  {
    if s != [] {
      assert s[0] in s;
      assert forall x :: x in s[1..] ==> x in s;
      WhereAgreeing(s[1..], p, q);
    }
  }

  /** A selection every row passes keeps the whole table. */
  lemma {:induction false} WhereAll<T(!new)>(s: seq<T>, p: T -> bool)
    requires forall x :: x in s ==> p(x)
    ensures Where(s, p) == s
  {
    if s != [] {
      assert s[0] in s;
      assert forall x :: x in s[1..] ==> x in s;
      WhereAll(s[1..], p);
      assert [s[0]] + s[1..] == s;
    }
  }

  /** Selecting twice by the same test selects nothing more. */
  lemma WhereIdempotent<T(!new)>(s: seq<T>, p: T -> bool)
    ensures Where(Where(s, p), p) == Where(s, p)
  {
    WhereAll(Where(s, p), p);
  }

  /** Complementary tests split the table: the two selections together count every row once. */
  lemma {:induction false} WherePartition<T(!new)>(s: seq<T>, p: T -> bool, q: T -> bool)
    requires forall x :: q(x) == !p(x)
    ensures |Where(s, p)| + |Where(s, q)| == |s|
  {
    if s != [] {
      WherePartition(s[1..], p, q);
    }
  }

  /** The non-missing values of a column, in row order: `df[col].dropna()`. */
  function Present<T(==,!new), K(==,!new)>(s: seq<T>, col: T -> Option<K>): (r: seq<K>)
    ensures forall v :: v in r <==> exists x :: x in s && col(x) == Some(v)
  {
    if s == [] then []
    else
      var rest := Present(s[1..], col);
      assert forall x :: x in s <==> x == s[0] || x in s[1..];
      (if col(s[0]).Some? then [col(s[0]).value] else []) + rest
  }
}
