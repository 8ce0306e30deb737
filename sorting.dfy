/** A stable sort by a comparator, as both `Array.prototype.sort` (stable
    since ES2019) and Python's `sorted` behave. The comparator is given as
    `le(a, b)`: "a may come before b", i.e. the JavaScript comparator
    returns a value <= 0. */
module Sorting {

  /** `le` is total and transitive: the comparators the application passes
      to `sort` are consistent. */
  ghost predicate IsTotalPreorder<T(!new)>(le: (T, T) -> bool)
  {
    && (forall a, b :: le(a, b) || le(b, a))
    && (forall a, b, c :: le(a, b) && le(b, c) ==> le(a, c))
  }

  predicate SortedBy<T>(s: seq<T>, le: (T, T) -> bool)
  {
    forall i, j :: 0 <= i < j < |s| ==> le(s[i], s[j])
  }

  /** a and b compare equal: the comparator returns 0 both ways. */
  predicate Tie<T>(le: (T, T) -> bool, a: T, b: T)
  {
    le(a, b) && le(b, a)
  }

  /** The elements of s that tie with z, in the order s holds them. */
  function Ties<T>(s: seq<T>, z: T, le: (T, T) -> bool): (r: seq<T>)
    ensures |r| <= |s|
    ensures forall i :: 0 <= i < |r| ==> Tie(le, r[i], z)
  {
    if s == [] then []
    else (if Tie(le, s[0], z) then [s[0]] else []) + Ties(s[1..], z, le)
  }

  /** Inserts x before the first element it may precede. */
  function Insert<T(==)>(x: T, s: seq<T>, le: (T, T) -> bool): (r: seq<T>)
    ensures multiset(r) == multiset(s) + multiset{x}
    ensures |r| == |s| + 1
  {
    if s == [] then [x]
    else if le(x, s[0]) then [x] + s
    else
      assert s == [s[0]] + s[1..];
      [s[0]] + Insert(x, s[1..], le)
  }

  function SortBy<T(==)>(s: seq<T>, le: (T, T) -> bool): (r: seq<T>)
    ensures multiset(r) == multiset(s)
    ensures |r| == |s|
  {
    if s == [] then []
    else
      assert s == [s[0]] + s[1..];
      Insert(s[0], SortBy(s[1..], le), le)
  }

  lemma {:induction false} InsertSorted<T(!new)>(x: T, s: seq<T>, le: (T, T) -> bool)
    requires IsTotalPreorder(le)
    requires SortedBy(s, le)
    ensures SortedBy(Insert(x, s, le), le)
  {
    if s != [] && !le(x, s[0]) {
      InsertSorted(x, s[1..], le);
      var t := Insert(x, s[1..], le);
      assert multiset(t) == multiset(s[1..]) + multiset{x};
      forall j | 0 <= j < |t| ensures le(s[0], t[j]) {
        assert t[j] in multiset(t);
        if t[j] != x {
          assert t[j] in multiset(s[1..]);
          var k :| 0 <= k < |s[1..]| && s[1..][k] == t[j];
          assert s[k + 1] == t[j];
        }
      }
      assert Insert(x, s, le) == [s[0]] + t;
    }
  }

  lemma {:induction false} SortBySorted<T(!new)>(s: seq<T>, le: (T, T) -> bool)
    requires IsTotalPreorder(le)
    ensures SortedBy(SortBy(s, le), le)
  {
    if s != [] {
      SortBySorted(s[1..], le);
      InsertSorted(s[0], SortBy(s[1..], le), le);
    }
  }

  lemma {:induction false} TiesAppend<T>(a: seq<T>, b: seq<T>, z: T, le: (T, T) -> bool)
    ensures Ties(a + b, z, le) == Ties(a, z, le) + Ties(b, z, le)
  {
    if a == [] {
      assert a + b == b;
    } else {
      assert (a + b)[1..] == a[1..] + b;
      TiesAppend(a[1..], b, z, le);
    }
  }

  /** An element that x may not precede comes strictly before x, so it
      cannot tie with anything x ties with. */
  lemma StrictlyBeforeNoTie<T(!new)>(le: (T, T) -> bool, x: T, y: T, z: T)
    requires IsTotalPreorder(le)
    requires !le(x, y)
    ensures Tie(le, x, z) ==> !Tie(le, y, z)
  {
  }

  /** Inserting x puts it in front of every element it ties with. */
  lemma {:induction false} InsertTies<T(!new)>(x: T, s: seq<T>, z: T, le: (T, T) -> bool)
    requires IsTotalPreorder(le)
    ensures Ties(Insert(x, s, le), z, le)
         == (if Tie(le, x, z) then [x] else []) + Ties(s, z, le)
  {
    if s == [] {
    } else if le(x, s[0]) {
      TiesAppend([x], s, z, le);
    } else {
      var t := Insert(x, s[1..], le);
      var hx := if Tie(le, x, z) then [x] else [];
      var h0 := Ties([s[0]], z, le);
      StrictlyBeforeNoTie(le, x, s[0], z);
      assert hx == [] || h0 == [];
      calc {
        Ties(Insert(x, s, le), z, le);
        { assert Insert(x, s, le) == [s[0]] + t; TiesAppend([s[0]], t, z, le); }
        h0 + Ties(t, z, le);
        { InsertTies(x, s[1..], z, le); }
        h0 + (hx + Ties(s[1..], z, le));
        { assert h0 + hx == hx + h0; }
        hx + (h0 + Ties(s[1..], z, le));
        { assert s == [s[0]] + s[1..]; TiesAppend([s[0]], s[1..], z, le); }
        hx + Ties(s, z, le);
      }
    }
  }

  /** Stability: the elements that compare equal keep their input order. */
  lemma {:induction false} SortByStable<T(!new)>(s: seq<T>, z: T, le: (T, T) -> bool)
    requires IsTotalPreorder(le)
    ensures Ties(SortBy(s, le), z, le) == Ties(s, z, le)
  {
    if s != [] {
      SortByStable(s[1..], z, le);
      InsertTies(s[0], SortBy(s[1..], le), z, le);
    }
  }

  /** Sorting by a total preorder yields an ordered permutation whose ties
      keep their input order. */
  lemma SortByCorrect<T(!new)>(s: seq<T>, le: (T, T) -> bool)
    requires IsTotalPreorder(le)
    ensures SortedBy(SortBy(s, le), le)
    ensures multiset(SortBy(s, le)) == multiset(s)
    ensures forall z :: Ties(SortBy(s, le), z, le) == Ties(s, z, le)
  {
    SortBySorted(s, le);
    forall z ensures Ties(SortBy(s, le), z, le) == Ties(s, z, le) {
      SortByStable(s, z, le);
    }
  }
}
