/**
 * Ordering messages by creation time, as the database's `.sort({ createdAt: -1 })`
 * (newest first) and `.sort({ createdAt: 1 })` (oldest first) do. The database
 * leaves the order of equal timestamps open; this model keeps them in store
 * order (a stable insertion sort).
 */
module Timeline {
  import opened Models

  /** `a` may come before `b` in the requested direction. */
  predicate Precedes(a: Message, b: Message, newestFirst: bool) {
    if newestFirst then a.createdAt >= b.createdAt else a.createdAt <= b.createdAt
  }

  predicate Sorted(s: seq<Message>, newestFirst: bool) {
    forall i, j :: 0 <= i < j < |s| ==> Precedes(s[i], s[j], newestFirst)
  }

  function Insert(x: Message, s: seq<Message>, newestFirst: bool): seq<Message> {
    if s == [] || Precedes(x, s[0], newestFirst) then [x] + s
    else [s[0]] + Insert(x, s[1..], newestFirst)
  }

  /** The messages of `s` ordered by `createdAt`. */
  function SortByTime(s: seq<Message>, newestFirst: bool): seq<Message> {
    if s == [] then [] else Insert(s[0], SortByTime(s[1..], newestFirst), newestFirst)
  }

  /** Inserting adds exactly one copy of `x`. */
  lemma {:induction false} InsertMultiset(x: Message, s: seq<Message>, newestFirst: bool)
    ensures multiset(Insert(x, s, newestFirst)) == multiset(s) + multiset{x}
  {
    if s != [] && !Precedes(x, s[0], newestFirst) {
      InsertMultiset(x, s[1..], newestFirst);
      assert s == [s[0]] + s[1..];
    }
  }

  /** Every element after an insertion is `x` or was already there. */
  lemma {:induction false} InsertElements(x: Message, s: seq<Message>, newestFirst: bool, y: Message)
    requires y in Insert(x, s, newestFirst)
    ensures y == x || y in s
  {
    if s != [] && !Precedes(x, s[0], newestFirst) && y != s[0] {
      InsertElements(x, s[1..], newestFirst, y);
    }
  }

  /** Inserting into a sorted list keeps it sorted. */
  lemma {:induction false} InsertSorted(x: Message, s: seq<Message>, newestFirst: bool)
    requires Sorted(s, newestFirst)
    ensures Sorted(Insert(x, s, newestFirst), newestFirst)
  {
    if s != [] && !Precedes(x, s[0], newestFirst) {
      var t := s[1..];
      InsertSorted(x, t, newestFirst);
      var u := Insert(x, t, newestFirst);
      forall k | 0 <= k < |u| ensures Precedes(s[0], u[k], newestFirst) {
        InsertElements(x, t, newestFirst, u[k]);
        if u[k] != x {
          var j :| 0 <= j < |t| && t[j] == u[k];
          assert s[j + 1] == t[j];
        }
      }
    }
  }

  /** Sorting orders the messages and neither adds nor drops any. */
  lemma {:induction false} SortByTimeCorrect(s: seq<Message>, newestFirst: bool)
    ensures multiset(SortByTime(s, newestFirst)) == multiset(s)
    ensures Sorted(SortByTime(s, newestFirst), newestFirst)
  {
    if s != [] {
      SortByTimeCorrect(s[1..], newestFirst);
      InsertMultiset(s[0], SortByTime(s[1..], newestFirst), newestFirst);
      InsertSorted(s[0], SortByTime(s[1..], newestFirst), newestFirst);
      assert s == [s[0]] + s[1..];
    }
  }

  /** Membership is exactly that of the input. */
  lemma SortByTimeMembers(s: seq<Message>, newestFirst: bool, m: Message)
    ensures m in SortByTime(s, newestFirst) <==> m in s
  {
    SortByTimeCorrect(s, newestFirst);
    assert m in SortByTime(s, newestFirst) <==> m in multiset(SortByTime(s, newestFirst));
    assert m in s <==> m in multiset(s);
  }
}
