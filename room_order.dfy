/**
 * The order of the room store after a lobby update: rooms sorted by the time
 * of their last message, latest first, with rooms of equal time kept in their
 * prior relative order (`Array.prototype.sort` is stable). The sort is written
 * as an insertion sort; `SortedTiesDetermineOrder` shows that any stable
 * descending sort yields the same sequence, so the choice of algorithm does
 * not matter.
 */
module RoomOrder {
  import opened ChatTypes

  /** The sort key: `createdAt` of the room's last message, or 0 when it has none. */
  function LastTime(r: Room): int
  {
    var ms := MessagesOf(r);
    if |ms| == 0 then 0 else ms[|ms| - 1].createdAt
  }

  ghost predicate SortedByLatest(s: seq<Room>)
  {
    forall i, j :: 0 <= i < j < |s| ==> LastTime(s[i]) >= LastTime(s[j])
  }

  /**
   * Inserts `x` in front of the first room whose key is not above its own,
   * so that `x` precedes every room it ties with.
   */
  function InsertByLatest(x: Room, s: seq<Room>): (r: seq<Room>)
    ensures multiset(r) == multiset(s) + multiset{x}
  {
    if |s| == 0 || LastTime(s[0]) <= LastTime(x) then
      [x] + s
    else
      assert s == [s[0]] + s[1..];
      [s[0]] + InsertByLatest(x, s[1..])
  }

  lemma {:induction false} InsertMembers(x: Room, s: seq<Room>, y: Room)
    requires y in InsertByLatest(x, s)
    ensures y == x || y in s
  {
    if |s| > 0 && LastTime(s[0]) > LastTime(x) && y != s[0] {
      InsertMembers(x, s[1..], y);
    }
  }

  lemma SortedCons(y: Room, t: seq<Room>)
    requires SortedByLatest(t)
    requires forall z :: z in t ==> LastTime(z) <= LastTime(y)
    ensures SortedByLatest([y] + t)
  {
    var r := [y] + t;
    forall i, j | 0 <= i < j < |r| ensures LastTime(r[i]) >= LastTime(r[j]) {
      assert r[j] == t[j - 1];
      if i > 0 {
        assert r[i] == t[i - 1];
      }
    }
  }

  lemma {:induction false} InsertKeepsSorted(x: Room, s: seq<Room>)
    requires SortedByLatest(s)
    ensures SortedByLatest(InsertByLatest(x, s))
  {
    if |s| == 0 || LastTime(s[0]) <= LastTime(x) {
      forall z | z in s ensures LastTime(z) <= LastTime(x) {
        var i :| 0 <= i < |s| && s[i] == z;
      }
      SortedCons(x, s);
    } else {
      var tail := s[1..];
      assert SortedByLatest(tail) by {
        forall i, j | 0 <= i < j < |tail| ensures LastTime(tail[i]) >= LastTime(tail[j]) {
          assert tail[i] == s[i + 1] && tail[j] == s[j + 1];
        }
      }
      InsertKeepsSorted(x, tail);
      var rest := InsertByLatest(x, tail);
      forall y | y in rest ensures LastTime(y) <= LastTime(s[0]) {
        InsertMembers(x, tail, y);
        if y != x {
          var i :| 0 <= i < |tail| && tail[i] == y;
          assert s[i + 1] == y;
        }
      }
      SortedCons(s[0], rest);
    }
  }

  /** The room store's order after an update: latest message first, ties stable. */
  function SortByLatest(s: seq<Room>): (r: seq<Room>)
    ensures multiset(r) == multiset(s)
    ensures SortedByLatest(r)
  {
    if |s| == 0 then []
    else
      assert s == [s[0]] + s[1..];
      InsertKeepsSorted(s[0], SortByLatest(s[1..]));
      InsertByLatest(s[0], SortByLatest(s[1..]))
  }

  /** The rooms of `s` whose key is `k`, in their order in `s`. */
  function WithKey(s: seq<Room>, k: int): seq<Room>
  {
    if |s| == 0 then [] else (if LastTime(s[0]) == k then [s[0]] else []) + WithKey(s[1..], k)
  }

  lemma {:induction false} WithKeyMembers(s: seq<Room>, k: int, x: Room)
    ensures x in WithKey(s, k) <==> x in s && LastTime(x) == k
  {
    if |s| > 0 {
      WithKeyMembers(s[1..], k, x);
      assert s == [s[0]] + s[1..];
    }
  }

  lemma WithKeyCons(x: Room, s: seq<Room>, k: int)
    ensures WithKey([x] + s, k) == (if LastTime(x) == k then [x] else []) + WithKey(s, k)
  {
    assert ([x] + s)[1..] == s;
  }

  /** Inserting a room puts it in front of every room that shares its key. */
  lemma {:induction false} InsertKeepsTies(x: Room, s: seq<Room>, k: int)
    requires SortedByLatest(s)
    ensures WithKey(InsertByLatest(x, s), k) == (if LastTime(x) == k then [x] else []) + WithKey(s, k)
  {
    if |s| == 0 || LastTime(s[0]) <= LastTime(x) {
      WithKeyCons(x, s, k);
    } else {
      var tail := s[1..];
      SortedTail(s);
      InsertKeepsTies(x, tail, k);
      var rest := InsertByLatest(x, tail);
      assert InsertByLatest(x, s) == [s[0]] + rest;
      WithKeyCons(s[0], rest, k);
      WithKeyCons(s[0], tail, k);
      assert [s[0]] + tail == s;
      if LastTime(x) == k {
        assert WithKey(s, k) == WithKey(tail, k);
      } else {
        assert WithKey(rest, k) == WithKey(tail, k);
      }
    }
  }

  /** Stability: for every key, the rooms with that key keep their relative order. */
  lemma {:induction false} SortIsStable(s: seq<Room>, k: int)
    ensures WithKey(SortByLatest(s), k) == WithKey(s, k)
  {
    if |s| > 0 {
      SortIsStable(s[1..], k);
      InsertKeepsTies(s[0], SortByLatest(s[1..]), k);
      WithKeyCons(s[0], s[1..], k);
      assert [s[0]] + s[1..] == s;
    }
  }

  lemma SortedTail(s: seq<Room>)
    requires |s| > 0 && SortedByLatest(s)
    ensures SortedByLatest(s[1..])
  {
    var tail := s[1..];
    forall i, j | 0 <= i < j < |tail| ensures LastTime(tail[i]) >= LastTime(tail[j]) {
      assert tail[i] == s[i + 1] && tail[j] == s[j + 1];
    }
  }

  /** In a sorted store the first room has the greatest key. */
  lemma SortedHeadIsLatest(s: seq<Room>, x: Room)
    requires SortedByLatest(s) && x in s
    ensures LastTime(s[0]) >= LastTime(x)
  {
    var i :| 0 <= i < |s| && s[i] == x;
  }

  /** A room at the head of one sorted arrangement is no later than the head of the other. */
  lemma HeadKeyBound(a: seq<Room>, b: seq<Room>)
    requires |a| > 0 && |b| > 0
    requires SortedByLatest(a)
    requires forall k :: WithKey(a, k) == WithKey(b, k)
    ensures LastTime(b[0]) <= LastTime(a[0])
  {
    var kb := LastTime(b[0]);
    WithKeyMembers(b, kb, b[0]);
    WithKeyMembers(a, kb, b[0]);
    SortedHeadIsLatest(a, b[0]);
  }

  /** The first room with the head's own key is the head. */
  lemma WithKeyHead(a: seq<Room>)
    requires |a| > 0
    ensures WithKey(a, LastTime(a[0])) == [a[0]] + WithKey(a[1..], LastTime(a[0]))
  {
    WithKeyCons(a[0], a[1..], LastTime(a[0]));
    assert a == [a[0]] + a[1..];
  }

  lemma HeadsAgree(a: seq<Room>, b: seq<Room>)
    requires |a| > 0 && |b| > 0
    requires SortedByLatest(a) && SortedByLatest(b)
    requires forall k :: WithKey(a, k) == WithKey(b, k)
    ensures a[0] == b[0]
  {
    HeadKeyBound(a, b);
    HeadKeyBound(b, a);
    WithKeyHead(a);
    WithKeyHead(b);
    var k := LastTime(a[0]);
    assert WithKey(a, k)[0] == WithKey(b, k)[0];
  }

  lemma TailsAgree(a: seq<Room>, b: seq<Room>, k: int)
    requires |a| > 0 && |b| > 0 && a[0] == b[0]
    requires WithKey(a, k) == WithKey(b, k)
    ensures WithKey(a[1..], k) == WithKey(b[1..], k)
  {
    var h := if LastTime(a[0]) == k then [a[0]] else [];
    var x, y := WithKey(a[1..], k), WithKey(b[1..], k);
    assert WithKey(a, k) == h + x;
    assert WithKey(b, k) == h + y;
    assert (h + x)[|h|..] == x && (h + y)[|h|..] == y;
  }

  /**
   * Two sequences that are both sorted latest-first and agree on the order of
   * every group of tied rooms are equal: a stable sort has exactly one result.
   */
  lemma {:induction false} SortedTiesDetermineOrder(a: seq<Room>, b: seq<Room>)
    requires SortedByLatest(a) && SortedByLatest(b)
    requires forall k :: WithKey(a, k) == WithKey(b, k)
    ensures a == b
    decreases |a|
  {
    if |a| == 0 && |b| == 0 {
    } else if |a| == 0 {
      WithKeyMembers(b, LastTime(b[0]), b[0]);
      WithKeyMembers(a, LastTime(b[0]), b[0]);
      assert false;
    } else if |b| == 0 {
      WithKeyMembers(a, LastTime(a[0]), a[0]);
      WithKeyMembers(b, LastTime(a[0]), a[0]);
      assert false;
    } else {
      HeadsAgree(a, b);
      forall k ensures WithKey(a[1..], k) == WithKey(b[1..], k) {
        TailsAgree(a, b, k);
      }
      SortedTail(a);
      SortedTail(b);
      SortedTiesDetermineOrder(a[1..], b[1..]);
      assert a == [a[0]] + a[1..] && b == [b[0]] + b[1..];
    }
  }

  /** A store that is already in order is left exactly as it is: no room moves on a tie. */
  lemma SortKeepsSortedStore(s: seq<Room>)
    requires SortedByLatest(s)
    ensures SortByLatest(s) == s
  {
    forall k ensures WithKey(SortByLatest(s), k) == WithKey(s, k) {
      SortIsStable(s, k);
    }
    SortedTiesDetermineOrder(SortByLatest(s), s);
  }

  /** Sorting twice is sorting once. */
  lemma SortIsIdempotent(s: seq<Room>)
    ensures SortByLatest(SortByLatest(s)) == SortByLatest(s)
  {
    SortKeepsSortedStore(SortByLatest(s));
  }

  /**
   * In a sorted store a room with no messages comes after every room whose
   * latest message is later than time zero; it can tie with, and so precede,
   * rooms whose latest message is at or before time zero.
   */
  lemma EmptyRoomAfterLaterRooms(s: seq<Room>, i: int, j: int)
    requires SortedByLatest(s)
    requires 0 <= i < |s| && 0 <= j < |s|
    requires MessagesOf(s[j]) == [] && LastTime(s[i]) > 0
    ensures i < j
  {
  }

  /** The room ids of a store, in order. */
  function Ids(s: seq<Room>): (ids: seq<string>)
    ensures |ids| == |s|
  {
    if |s| == 0 then [] else [s[0].id] + Ids(s[1..])
  }

  lemma {:induction false} InsertKeepsIds(x: Room, s: seq<Room>)
    ensures multiset(Ids(InsertByLatest(x, s))) == multiset(Ids(s)) + multiset{x.id}
  {
    if |s| == 0 || LastTime(s[0]) <= LastTime(x) {
      assert ([x] + s)[1..] == s;
    } else {
      InsertKeepsIds(x, s[1..]);
      assert ([s[0]] + InsertByLatest(x, s[1..]))[1..] == InsertByLatest(x, s[1..]);
    }
  }

  /** Sorting keeps the same room ids, each as often as before. */
  lemma {:induction false} SortKeepsIds(s: seq<Room>)
    ensures multiset(Ids(SortByLatest(s))) == multiset(Ids(s))
  {
    if |s| > 0 {
      SortKeepsIds(s[1..]);
      InsertKeepsIds(s[0], SortByLatest(s[1..]));
    }
  }
}
