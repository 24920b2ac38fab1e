/**
 * The JavaScript array operations the reducers and controllers use, over
 * documents identified by an `_id` read through `key`:
 * `findIndex`, an index assignment after `findIndex`, `map` that swaps in a
 * replacement, and `filter` that drops an id.
 */
module ListOps {
  import opened Wrappers

  /** `s.findIndex(x => key(x) === id)` from position `from` on; None stands for -1. */
  function FindFrom<T>(s: seq<T>, key: T -> string, id: string, from: nat): (r: Option<nat>)
    requires from <= |s|
    ensures r.Some? ==> from <= r.value < |s| && key(s[r.value]) == id
                        && forall j :: from <= j < r.value ==> key(s[j]) != id
    ensures r.None? ==> forall j :: from <= j < |s| ==> key(s[j]) != id
    decreases |s| - from
  {
    if from == |s| then None
    else if key(s[from]) == id then Some(from)
    else FindFrom(s, key, id, from + 1)
  }

  /** `s.findIndex(x => key(x) === id)`: the first position holding `id`. */
  function FindIndex<T>(s: seq<T>, key: T -> string, id: string): (r: Option<nat>)
    ensures r.Some? ==> r.value < |s| && key(s[r.value]) == id
                        && forall j :: 0 <= j < r.value ==> key(s[j]) != id
    ensures r.None? <==> forall j :: 0 <= j < |s| ==> key(s[j]) != id
  {
    FindFrom(s, key, id, 0)
  }

  /** `const i = s.findIndex(...); if (i !== -1) s[i] = x;` */
  function ReplaceFirst<T>(s: seq<T>, key: T -> string, x: T): (r: seq<T>)
    ensures |r| == |s|
    ensures FindIndex(s, key, key(x)).None? ==> r == s
    ensures FindIndex(s, key, key(x)).Some? ==>
      var i := FindIndex(s, key, key(x)).value;
      r[i] == x && forall j :: 0 <= j < |s| && j != i ==> r[j] == s[j]
  {
    match FindIndex(s, key, key(x))
    case None => s
    case Some(i) => s[i := x]
  }

  /** `s.map(y => key(y) === key(x) ? x : y)`. */
  function ReplaceAll<T>(s: seq<T>, key: T -> string, x: T): (r: seq<T>)
    ensures |r| == |s|
    ensures forall j :: 0 <= j < |s| ==> r[j] == if key(s[j]) == key(x) then x else s[j]
  {
    seq(|s|, j requires 0 <= j < |s| => if key(s[j]) == key(x) then x else s[j])
  }

  /** Setting the entry found for `x`'s id a second time changes nothing more. */
  lemma ReplaceFirstIdempotent<T>(s: seq<T>, key: T -> string, x: T)
    ensures ReplaceFirst(ReplaceFirst(s, key, x), key, x) == ReplaceFirst(s, key, x)
  {
    var r := ReplaceFirst(s, key, x);
    match FindIndex(s, key, key(x))
    case None =>
    case Some(i) =>
      assert forall j :: 0 <= j < i ==> r[j] == s[j];
      assert FindIndex(r, key, key(x)) == Some(i);
  }

  /** `s.filter(p)`, for the queries the server runs over its stores and the reducers' deletes. */
  function Filter<T(!new)>(s: seq<T>, p: T -> bool): (r: seq<T>)
    ensures forall y :: y in r <==> y in s && p(y)
    ensures |r| <= |s|
  {
    if s == [] then []
    else if p(s[0]) then [s[0]] + Filter(s[1..], p) else Filter(s[1..], p)
  }

  /** Each selected element is kept as often as it occurs; the others are dropped. */
  lemma {:induction false} FilterMultiset<T(!new)>(s: seq<T>, p: T -> bool)
    ensures forall y :: multiset(Filter(s, p))[y] == if p(y) then multiset(s)[y] else 0
  {
    if s != [] {
      FilterMultiset(s[1..], p);
      assert s == [s[0]] + s[1..];
    }
  }

  /** Filtering keeps the relative order: it distributes over concatenation. */
  lemma {:induction false} FilterAppend<T(!new)>(s: seq<T>, t: seq<T>, p: T -> bool)
    ensures Filter(s + t, p) == Filter(s, p) + Filter(t, p)
  {
    if s == [] {
      assert s + t == t;
    } else {
      var u := s + t;
      assert u[0] == s[0] && u[1..] == s[1..] + t;
      FilterAppend(s[1..], t, p);
      if p(s[0]) {
        calc {
          Filter(u, p);
          [s[0]] + Filter(s[1..] + t, p);
          [s[0]] + (Filter(s[1..], p) + Filter(t, p));
          ([s[0]] + Filter(s[1..], p)) + Filter(t, p);
        }
      }
    }
  }

  /** A filter every element passes changes nothing. */
  lemma {:induction false} FilterAll<T(!new)>(s: seq<T>, p: T -> bool)
    requires forall j :: 0 <= j < |s| ==> p(s[j])
    ensures Filter(s, p) == s
  {
    if s != [] {
      FilterAll(s[1..], p);
    }
  }

  /** Two tests that agree on every element select the same elements. */
  lemma {:induction false} FilterAgree<T(!new)>(s: seq<T>, p: T -> bool, q: T -> bool)
    requires forall j :: 0 <= j < |s| ==> p(s[j]) == q(s[j])
    ensures Filter(s, p) == Filter(s, q)
  {
    if s != [] {
      FilterAgree(s[1..], p, q);
    }
  }

  /** `s.filter(y => key(y) !== id)`: every element with another id, in order. */
  function RemoveId<T(!new)>(s: seq<T>, key: T -> string, id: string): (r: seq<T>)
    ensures forall y :: y in r <==> y in s && key(y) != id
    ensures |r| <= |s|
  {
    Filter(s, y => key(y) != id)
  }

  /** Removing an id nobody has changes nothing. */
  lemma RemoveAbsentId<T(!new)>(s: seq<T>, key: T -> string, id: string)
    requires forall j :: 0 <= j < |s| ==> key(s[j]) != id
    ensures RemoveId(s, key, id) == s
  {
    FilterAll(s, y => key(y) != id);
  }

  /** Removing an id keeps the relative order: it distributes over concatenation. */
  lemma RemoveIdAppend<T(!new)>(s: seq<T>, t: seq<T>, key: T -> string, id: string)
    ensures RemoveId(s + t, key, id) == RemoveId(s, key, id) + RemoveId(t, key, id)
  {
    FilterAppend(s, t, y => key(y) != id);
  }

  /** When only position `i` holds the id, removing the id drops exactly that element. */
  lemma RemoveUniqueId<T(!new)>(s: seq<T>, key: T -> string, id: string, i: nat)
    requires i < |s| && key(s[i]) == id
    requires forall j :: 0 <= j < |s| && j != i ==> key(s[j]) != id
    ensures RemoveId(s, key, id) == s[..i] + s[i + 1..]
  {
    var before, after := s[..i], s[i + 1..];
    assert s == before + ([s[i]] + after);
    RemoveIdAppend(before, [s[i]] + after, key, id);
    RemoveIdAppend([s[i]], after, key, id);
    RemoveAbsentId(before, key, id);
    RemoveAbsentId(after, key, id);
    assert RemoveId([s[i]], key, id) == [];
  }

  /** Removing the same id twice is removing it once. */
  lemma RemoveIdIdempotent<T(!new)>(s: seq<T>, key: T -> string, id: string)
    ensures RemoveId(RemoveId(s, key, id), key, id) == RemoveId(s, key, id)
  {
    var r := RemoveId(s, key, id);
    forall j | 0 <= j < |r| ensures key(r[j]) != id {
      assert r[j] in r;
    }
    RemoveAbsentId(r, key, id);
  }
}
