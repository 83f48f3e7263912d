/** Sorting by a caller-supplied order, and the uniqueness of sorted sequences.
    Collations of the database and of the runtime stay parameters. */
module Ordering {

  ghost predicate StrictOrder<T(!new)>(lt: (T, T) -> bool) {
    && (forall x :: !lt(x, x))
    && (forall x, y, z :: lt(x, y) && lt(y, z) ==> lt(x, z))
  }

  ghost predicate StrictTotal<T(!new)>(lt: (T, T) -> bool) {
    StrictOrder(lt) && forall x, y :: x != y ==> lt(x, y) || lt(y, x)
  }

  /** Every two positions hold elements that the order tells apart. */
  ghost predicate Comparable<T>(lt: (T, T) -> bool, s: seq<T>) {
    forall i, j :: 0 <= i < j < |s| ==> lt(s[i], s[j]) || lt(s[j], s[i])
  }

  ghost predicate StrictlySorted<T>(lt: (T, T) -> bool, s: seq<T>) {
    forall i, j :: 0 <= i < j < |s| ==> lt(s[i], s[j])
  }

  /** Ascending with ties allowed. */
  ghost predicate Ascending<T>(lt: (T, T) -> bool, s: seq<T>) {
    forall i, j :: 0 <= i < j < |s| ==> !lt(s[j], s[i])
  }

  ghost predicate Distinct<T>(s: seq<T>) {
    forall i, j :: 0 <= i < j < |s| ==> s[i] != s[j]
  }

  function Elements<T>(s: seq<T>): set<T> { set x | x in s }

  function Insert<T>(lt: (T, T) -> bool, x: T, s: seq<T>): (r: seq<T>)
    ensures |r| == |s| + 1
  {
    if s == [] || !lt(s[0], x) then [x] + s else [s[0]] + Insert(lt, x, s[1..])
  }

  /** A stable sort: earlier elements stay in front of later equal ones. */
  function Sort<T>(lt: (T, T) -> bool, s: seq<T>): (r: seq<T>)
    ensures |r| == |s|
  {
    if s == [] then [] else Insert(lt, s[0], Sort(lt, s[1..]))
  }

  lemma {:induction false} InsertPermutes<T>(lt: (T, T) -> bool, x: T, s: seq<T>)
    ensures multiset(Insert(lt, x, s)) == multiset([x] + s)
  {
    if s != [] && lt(s[0], x) {
      InsertPermutes(lt, x, s[1..]);
      assert s == [s[0]] + s[1..];
    }
  }

  lemma {:induction false} SortPermutes<T>(lt: (T, T) -> bool, s: seq<T>)
    ensures multiset(Sort(lt, s)) == multiset(s)
  {
    if s != [] {
      SortPermutes(lt, s[1..]);
      InsertPermutes(lt, s[0], Sort(lt, s[1..]));
      assert s == [s[0]] + s[1..];
    }
  }

  lemma SameElements<T>(s: seq<T>, t: seq<T>)
    requires multiset(s) == multiset(t)
    ensures forall x :: x in s <==> x in t
  {
    forall x ensures x in s <==> x in t {
      assert x in s <==> x in multiset(s);
    }
  }

  lemma Transitive<T(!new)>(lt: (T, T) -> bool, x: T, y: T, z: T)
    requires StrictOrder(lt) && lt(x, y) && lt(y, z)
    ensures lt(x, z)
  {}

  lemma {:induction false} InsertKeepsSorted<T(!new)>(lt: (T, T) -> bool, x: T, s: seq<T>)
    requires StrictOrder(lt) && StrictlySorted(lt, s)
    requires forall k :: 0 <= k < |s| ==> lt(x, s[k]) || lt(s[k], x)
    ensures StrictlySorted(lt, Insert(lt, x, s))
  {
    hide StrictOrder;
    if s != [] && lt(s[0], x) {
      InsertKeepsSorted(lt, x, s[1..]);
      var r := Insert(lt, x, s[1..]);
      InsertPermutes(lt, x, s[1..]);
      SameElements(r, [x] + s[1..]);
      forall k | 0 <= k < |r| ensures lt(s[0], r[k]) {
        assert r[k] in [x] + s[1..];
      }
      hide StrictlySorted;
    } else {
      forall k | 0 <= k < |s| ensures lt(x, s[k]) {
        if k > 0 { Transitive(lt, x, s[0], s[k]); }
      }
      hide StrictlySorted;
    }
  }

  lemma {:induction false} SortSorts<T(!new)>(lt: (T, T) -> bool, s: seq<T>)
    requires StrictOrder(lt) && Comparable(lt, s)
    ensures StrictlySorted(lt, Sort(lt, s))
  {
    if s != [] {
      SortSorts(lt, s[1..]);
      var r := Sort(lt, s[1..]);
      SortPermutes(lt, s[1..]);
      SameElements(r, s[1..]);
      forall k | 0 <= k < |r| ensures lt(s[0], r[k]) || lt(r[k], s[0]) {
        assert r[k] in s[1..];
      }
      InsertKeepsSorted(lt, s[0], r);
    }
  }

  lemma HeadIsLeast<T>(lt: (T, T) -> bool, s: seq<T>, x: T)
    requires StrictlySorted(lt, s) && x in s
    ensures s[0] == x || lt(s[0], x)
    ensures x != s[0] ==> x in s[1..]
  {
    var i :| 0 <= i < |s| && s[i] == x;
    assert i > 0 ==> s[1..][i - 1] == x;
  }

  lemma TailAbove<T>(lt: (T, T) -> bool, s: seq<T>, x: T)
    requires StrictlySorted(lt, s) && s != [] && x in s[1..]
    ensures x in s && lt(s[0], x)
  {}

  lemma NonEmptyWitness<T(!new)>(s: seq<T>)
    ensures s != [] ==> exists x :: x in s
  {
    if s != [] { assert s[0] in s; }
  }

  /** A set has one strictly sorted arrangement. */
  lemma {:induction false} SortedUnique<T(!new)>(lt: (T, T) -> bool, s: seq<T>, t: seq<T>)
    requires StrictOrder(lt) && StrictlySorted(lt, s) && StrictlySorted(lt, t)
    requires forall x :: x in s <==> x in t
    ensures s == t
  {
    if s != [] && t != [] {
      HeadIsLeast(lt, t, s[0]);
      HeadIsLeast(lt, s, t[0]);
      forall x ensures x in s[1..] <==> x in t[1..] {
        if x in s[1..] { TailAbove(lt, s, x); HeadIsLeast(lt, t, x); }
        if x in t[1..] { TailAbove(lt, t, x); HeadIsLeast(lt, s, x); }
      }
      SortedUnique(lt, s[1..], t[1..]);
      assert s == [s[0]] + s[1..] && t == [t[0]] + t[1..];
    } else {
      NonEmptyWitness(s);
      NonEmptyWitness(t);
    }
  }

  lemma DistinctComparable<T(!new)>(lt: (T, T) -> bool, s: seq<T>)
    requires StrictTotal(lt) && Distinct(s)
    ensures Comparable(lt, s)
  {}

  lemma TotalAsymmetric<T(!new)>(lt: (T, T) -> bool, x: T, y: T)
    requires StrictTotal(lt) && lt(x, y)
    ensures !lt(y, x)
  {
  }

  lemma NotBelow<T(!new)>(lt: (T, T) -> bool, x: T, y: T, z: T)
    requires StrictTotal(lt) && !lt(y, x) && !lt(z, y)
    ensures !lt(z, x)
  {
    assert y == z || lt(y, z);
    assert x == y || lt(x, y);
  }

  lemma {:induction false} InsertAscends<T(!new)>(lt: (T, T) -> bool, x: T, s: seq<T>)
    requires StrictTotal(lt) && Ascending(lt, s)
    ensures Ascending(lt, Insert(lt, x, s))
  {
    hide StrictTotal, StrictOrder;
    if s != [] && lt(s[0], x) {
      TotalAsymmetric(lt, s[0], x);
      InsertAscends(lt, x, s[1..]);
      var r := Insert(lt, x, s[1..]);
      InsertPermutes(lt, x, s[1..]);
      SameElements(r, [x] + s[1..]);
      forall k | 0 <= k < |r| ensures !lt(r[k], s[0]) {
        assert r[k] in [x] + s[1..];
      }
      hide Ascending;
    } else {
      forall k | 0 <= k < |s| ensures !lt(s[k], x) {
        if k > 0 { NotBelow(lt, x, s[0], s[k]); }
      }
      hide Ascending;
    }
  }

  function RemoveAt<T>(s: seq<T>, k: nat): seq<T>
    requires k < |s|
  {
    s[..k] + s[k + 1..]
  }

  lemma RemoveAtMultiset<T>(s: seq<T>, k: nat)
    requires k < |s|
    ensures multiset(s) == multiset(RemoveAt(s, k)) + multiset{s[k]}
  {
    assert s == s[..k] + [s[k]] + s[k + 1..];
  }

  lemma CountSnoc<T>(s: seq<T>, o: T, x: T)
    ensures multiset(s + [o])[x] == multiset(s)[x] + (if o == x then 1 else 0)
  {}

  /** Taking an equal element out of two permutations leaves permutations. */
  lemma Peel<T>(v: seq<T>, w: seq<T>, k: nat)
    requires v != [] && k < |w| && w[k] == v[0] && multiset(v) == multiset(w)
    ensures RemoveAt(v, 0) == v[1..]
    ensures multiset(v[1..]) == multiset(RemoveAt(w, k))
  {
    RemoveAtMultiset(v, 0);
    RemoveAtMultiset(w, k);
    assert RemoveAt(v, 0) == v[1..];
    var e := multiset{v[0]};
    calc {
      multiset(v[1..]);
      (multiset(v[1..]) + e) - e;
      (multiset(RemoveAt(w, k)) + e) - e;
      multiset(RemoveAt(w, k));
    }
  }

  lemma {:induction false} SortAscends<T(!new)>(lt: (T, T) -> bool, s: seq<T>)
    requires StrictTotal(lt)
    ensures Ascending(lt, Sort(lt, s))
  {
    if s != [] {
      SortAscends(lt, s[1..]);
      InsertAscends(lt, s[0], Sort(lt, s[1..]));
    }
  }

  /** The elements of a finite set in ascending order. */
  function SetToSeq<T(==,!new)>(lt: (T, T) -> bool, xs: set<T>): (r: seq<T>)
    requires StrictTotal(lt)
    ensures StrictlySorted(lt, r)
    ensures forall x :: x in r <==> x in xs
  {
    if xs == {} then []
    else
      LeastExists(lt, xs);
      var x :| IsLeast(lt, xs, x);
      [x] + SetToSeq(lt, xs - {x})
  }

  predicate IsLeast<T(==)>(lt: (T, T) -> bool, xs: set<T>, x: T) {
    x in xs && forall y :: y in xs && y != x ==> lt(x, y)
  }

  lemma Below<T(!new)>(lt: (T, T) -> bool, xs: set<T>, a: T, b: T)
    requires StrictOrder(lt) && lt(a, b) && IsLeast(lt, xs, b)
    ensures IsLeast(lt, xs + {a}, a)
  {}

  lemma {:induction false} LeastExists<T(!new)>(lt: (T, T) -> bool, xs: set<T>)
    requires StrictTotal(lt) && xs != {}
    ensures exists x :: IsLeast(lt, xs, x)
  {
    var a :| a in xs;
    var rest := xs - {a};
    assert xs == rest + {a};
    if rest == {} {
      assert IsLeast(lt, xs, a);
    } else {
      LeastExists(lt, rest);
      var b :| IsLeast(lt, rest, b);
      if lt(a, b) {
        Below(lt, rest, a, b);
      } else {
        assert lt(b, a);
        assert IsLeast(lt, xs, b);
      }
    }
  }
}
