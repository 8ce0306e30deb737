/** The three list operations the backend repeats for players, teams and
    games (backend/main.py): id generation in `add_*`, the first-match
    search of `update_*` and `next(...)`, and the filter of `delete_*`.
    They are written once, over the entity's id accessor. */
module Store {
  import opened Wrappers

  /** Python raises a TypeError when `max` meets a `None` id, or when it
      adds 1 to a `None` maximum. */
  datatype StoreError = NoneId

  predicate AllIdsPresent<T>(s: seq<T>, idOf: T -> Option<int>)
  {
    forall i :: 0 <= i < |s| ==> idOf(s[i]).Some?
  }

  /** `max(x.id for x in s)`. */
  function MaxId<T>(s: seq<T>, idOf: T -> Option<int>): (m: int)
    requires |s| > 0 && AllIdsPresent(s, idOf)
    ensures forall i :: 0 <= i < |s| ==> idOf(s[i]).value <= m
    ensures exists i :: 0 <= i < |s| && idOf(s[i]) == Some(m)
  {
    if |s| == 1 then idOf(s[0]).value
    else
      var m := MaxId(s[1..], idOf);
      assert forall i :: 1 <= i < |s| ==> s[i] == s[1..][i - 1];
      if idOf(s[0]).value >= m then idOf(s[0]).value else m
  }

  /** The id `add_*` gives an entity posted without one: 1 for an empty
      list, otherwise the largest id plus one, so it differs from every
      stored id. */
  function NextId<T>(s: seq<T>, idOf: T -> Option<int>): (r: Result<int, StoreError>)
    ensures |s| == 0 ==> r == Ok(1)
    ensures r.Err? <==> exists i :: 0 <= i < |s| && idOf(s[i]).None?
    ensures r.Ok? ==> forall i :: 0 <= i < |s| ==> idOf(s[i]) != Some(r.value)
    ensures r.Ok? ==> forall i :: 0 <= i < |s| ==> idOf(s[i]).value < r.value
    ensures r.Ok? && |s| > 0 ==> exists i :: 0 <= i < |s| && idOf(s[i]) == Some(r.value - 1)
  {
    if |s| == 0 then Ok(1)
    else if !AllIdsPresent(s, idOf) then Err(NoneId)
    else Ok(MaxId(s, idOf) + 1)
  }

  /** The position of the first entity whose id is `id`: the loop of
      `update_*`, and `next(x for x in s if x.id == id)`. */
  function IndexOfId<T>(s: seq<T>, idOf: T -> Option<int>, id: int): (r: Option<nat>)
    ensures r.Some? ==> r.value < |s| && idOf(s[r.value]) == Some(id)
    ensures r.Some? ==> forall j :: 0 <= j < r.value ==> idOf(s[j]) != Some(id)
    ensures r.None? <==> forall j :: 0 <= j < |s| ==> idOf(s[j]) != Some(id)
  {
    if |s| == 0 then None
    else if idOf(s[0]) == Some(id) then Some(0)
    else
      var r := IndexOfId(s[1..], idOf, id);
      assert forall j :: 1 <= j < |s| ==> s[j] == s[1..][j - 1];
      if r.None? then None else Some(r.value + 1)
  }

  /** `[x for x in s if x.id != id]`: every entity with that id goes, every
      other entity stays, as often as it was there, in its order. */
  function WithoutId<T(==, !new)>(s: seq<T>, idOf: T -> Option<int>, id: int): (r: seq<T>)
    ensures forall x :: multiset(r)[x] == if idOf(x) == Some(id) then 0 else multiset(s)[x]
    ensures forall i :: 0 <= i < |r| ==> idOf(r[i]) != Some(id)
  {
    if |s| == 0 then []
    else
      assert s == [s[0]] + s[1..];
      (if idOf(s[0]) == Some(id) then [] else [s[0]]) + WithoutId(s[1..], idOf, id)
  }

  /** r is s with some elements left out: what remains keeps its order. */
  ghost predicate Subsequence<T>(r: seq<T>, s: seq<T>)
  {
    if r == [] then true
    else if s == [] then false
    else (r[0] == s[0] && Subsequence(r[1..], s[1..])) || Subsequence(r, s[1..])
  }

  /** Removing the entities with the id keeps the others in their order. */
  lemma {:induction false} WithoutIdInOrder<T(!new)>(s: seq<T>, idOf: T -> Option<int>, id: int)
    ensures Subsequence(WithoutId(s, idOf, id), s)
  {
    if |s| != 0 {
      WithoutIdInOrder(s[1..], idOf, id);
      var rest := WithoutId(s[1..], idOf, id);
      if idOf(s[0]) != Some(id) {
        assert WithoutId(s, idOf, id) == [s[0]] + rest;
        assert ([s[0]] + rest)[1..] == rest;
      } else {
        assert WithoutId(s, idOf, id) == [] + rest == rest;
      }
    }
  }

  /** `[x for x in s if keep(x)]`. */
  function Filter<T>(s: seq<T>, keep: T -> bool): seq<T>
  {
    if |s| == 0 then []
    else (if keep(s[0]) then [s[0]] else []) + Filter(s[1..], keep)
  }

  /** The filter keeps each element that passes, as often as it occurs,
      and nothing else. */
  lemma {:induction false} FilterCorrect<T(!new)>(s: seq<T>, keep: T -> bool)
    ensures forall x :: multiset(Filter(s, keep))[x] == if keep(x) then multiset(s)[x] else 0
    ensures forall i :: 0 <= i < |Filter(s, keep)| ==> keep(Filter(s, keep)[i])
    ensures forall x :: x in Filter(s, keep) <==> x in s && keep(x)
  {
    if |s| > 0 {
      FilterCorrect(s[1..], keep);
      assert s == [s[0]] + s[1..];
    }
  }

  /** Appending an entity does not move an earlier match; it is found at
      the end only when nothing before it matches. */
  lemma IndexOfIdAppend<T>(s: seq<T>, idOf: T -> Option<int>, id: int, y: T)
    ensures IndexOfId(s + [y], idOf, id)
         == if IndexOfId(s, idOf, id).Some? then IndexOfId(s, idOf, id)
            else if idOf(y) == Some(id) then Some(|s|)
            else None
  {
    var t := s + [y];
    assert forall j :: 0 <= j < |s| ==> t[j] == s[j];
    assert t[|s|] == y;
    var r := IndexOfId(t, idOf, id);
    var q := IndexOfId(s, idOf, id);
    if q.Some? {
      assert r.Some? && r.value <= q.value;
    }
  }

  /** Replacing an entity by one with the same id changes no search. */
  lemma IndexOfIdSameIdUpdate<T>(s: seq<T>, idOf: T -> Option<int>, id: int, k: nat, y: T)
    requires k < |s| && idOf(y) == idOf(s[k])
    ensures IndexOfId(s[k := y], idOf, id) == IndexOfId(s, idOf, id)
  {
    var t := s[k := y];
    assert forall j :: 0 <= j < |s| ==> idOf(t[j]) == idOf(s[j]);
    var r := IndexOfId(t, idOf, id);
    var q := IndexOfId(s, idOf, id);
    if q.Some? {
      assert r.Some? && r.value <= q.value;
    }
  }

  /** The filter keeps the passing elements in their order. */
  lemma {:induction false} FilterInOrder<T>(s: seq<T>, keep: T -> bool)
    ensures Subsequence(Filter(s, keep), s)
  {
    if |s| != 0 {
      FilterInOrder(s[1..], keep);
      var rest := Filter(s[1..], keep);
      if keep(s[0]) {
        assert Filter(s, keep) == [s[0]] + rest;
        assert ([s[0]] + rest)[1..] == rest;
      } else {
        assert Filter(s, keep) == rest;
      }
    }
  }

  /** Filtering an extended list extends the filtered list. */
  lemma {:induction false} FilterAppend<T>(s: seq<T>, keep: T -> bool, x: T)
    ensures Filter(s + [x], keep) == Filter(s, keep) + (if keep(x) then [x] else [])
  {
    var tail := if keep(x) then [x] else [];
    if s == [] {
      assert s + [x] == [x];
      assert Filter([x], keep) == tail + Filter([], keep);
      assert Filter(s, keep) == [];
    } else {
      var head := if keep(s[0]) then [s[0]] else [];
      assert (s + [x])[0] == s[0];
      assert (s + [x])[1..] == s[1..] + [x];
      assert Filter(s + [x], keep) == head + Filter(s[1..] + [x], keep);
      FilterAppend(s[1..], keep, x);
      var rest := Filter(s[1..], keep);
      assert Filter(s, keep) == head + rest;
      ConcatAssoc(head, rest, tail);
    }
  }

  lemma ConcatAssoc<T>(a: seq<T>, b: seq<T>, c: seq<T>)
    ensures a + (b + c) == (a + b) + c
  {
  }
}
