/**
 * The browser-side message cache (src/lib/indexedDB.ts): one record per
 * user holding that user's whole message list. Opening the database and the
 * request/transaction plumbing are not modelled; a read is a function of the
 * cache's state, so it cannot change it.
 */
module LocalCache {
  import opened Wrappers
  import opened ChatMessages

  /** The page size a read uses when the caller gives none. */
  const DefaultLimit: nat := 10

  /** Whether a read with cut-off `before` returns `m`; an absent or zero cut-off admits everything. */
  predicate Admits(before: Option<int>, m: Message) {
    before.None? || before.value == 0 || m.createdAt < before.value
  }

  /**
   * `filter(m => createdAt < before)`: each message of `s` created strictly
   * before `before` as many times as it occurs in `s`, and no other.
   */
  function OlderThan(s: seq<Message>, before: int): (r: seq<Message>)
    ensures forall m {:trigger multiset(r)[m]} :: multiset(r)[m] == if m.createdAt < before then multiset(s)[m] else 0
    ensures forall m :: m in r <==> m in s && m.createdAt < before
    ensures |r| <= |s|
  {
    if s == [] then []
    else
      var rest := OlderThan(s[1..], before);
      assert s == [s[0]] + s[1..];
      if s[0].createdAt < before then [s[0]] + rest else rest
  }

  /** Filtering a sorted list leaves it sorted. */
  lemma {:induction false} OlderThanSorted(s: seq<Message>, before: int)
    requires SortedByTime(s)
    ensures SortedByTime(OlderThan(s, before))
  {
    if s != [] {
      var tail := s[1..];
      assert SortedByTime(tail);
      OlderThanSorted(tail, before);
      var rest := OlderThan(tail, before);
      if s[0].createdAt < before {
        forall m | m in rest ensures s[0].createdAt <= m.createdAt {
          var k :| 0 <= k < |tail| && tail[k] == m;
          assert s[k + 1] == m;
        }
        ConsSorted(s[0], rest);
      }
    }
  }

  lemma ConsSorted(x: Message, rest: seq<Message>)
    requires SortedByTime(rest)
    requires forall m :: m in rest ==> x.createdAt <= m.createdAt
    ensures SortedByTime([x] + rest)
  {
    var r := [x] + rest;
    forall i, j | 0 <= i < j < |r| ensures r[i].createdAt <= r[j].createdAt {
      assert r[j] == rest[j - 1];
      if i > 0 {
        assert r[i] == rest[i - 1];
      } else {
        assert rest[j - 1] in rest;
      }
    }
  }

  /**
   * The filter keeps the input's order: filtering `a + b` gives the
   * filtered `a` followed by the filtered `b`.
   */
  lemma {:induction false} OlderThanAppend(a: seq<Message>, b: seq<Message>, before: int)
    ensures OlderThan(a + b, before) == OlderThan(a, before) + OlderThan(b, before)
  {
    if a != [] {
      var ab := a + b;
      assert ab[0] == a[0] && ab[1..] == a[1..] + b;
      OlderThanAppend(a[1..], b, before);
      var rest := OlderThan(a[1..], before);
      if a[0].createdAt < before {
        assert OlderThan(ab, before) == [a[0]] + (rest + OlderThan(b, before));
        assert OlderThan(a, before) == [a[0]] + rest;
      } else {
        assert OlderThan(ab, before) == rest + OlderThan(b, before);
        assert OlderThan(a, before) == rest;
      }
    } else {
      assert a + b == b;
    }
  }

  /**
   * A stored list sorted ascending, then cut at `before` when the cut-off is
   * set: an ascending permutation of the admitted stored messages.
   */
  function Eligible(stored: seq<Message>, before: Option<int>): (e: seq<Message>)
    ensures SortedByTime(e)
    ensures forall m :: m in e <==> m in stored && Admits(before, m)
    ensures forall m {:trigger multiset(e)[m]} :: multiset(e)[m] == if Admits(before, m) then multiset(stored)[m] else 0
  {
    var sorted := SortByTime(stored);
    assert forall m :: m in sorted <==> m in stored by {
      forall m ensures m in sorted <==> m in stored {
        assert m in sorted <==> m in multiset(sorted);
      }
    }
    if before.Some? && before.value != 0 then
      OlderThanSorted(sorted, before.value);
      OlderThan(sorted, before.value)
    else sorted
  }

  class MessageCache {
    /** user id -> that user's record */
    var store: map<string, seq<Message>>

    constructor ()
      ensures store == map[]
    {
      store := map[];
    }

    /** The list kept for `userId`; a user without a record has none. */
    function Stored(userId: string): seq<Message>
      reads this
    {
      if userId in store then store[userId] else []
    }

    /** Overwrites the user's record with the messages in ascending creation order. */
    method SaveMessages(userId: string, messages: seq<Message>)
      modifies this
      ensures store == old(store)[userId := SortByTime(messages)]
    {
      var sortedMessages := SortByTime(messages);
      store := store[userId := sortedMessages];
    }

    /**
     * Up to `limit` (by default 10) of the user's messages, ascending by
     * creation time, cut at `before` when it is given and non-zero: see
     * GetMessagesSpec.
     */
    function GetMessages(userId: string, limit: Option<nat>, before: Option<int>): seq<Message>
      reads this
    {
      if userId !in store || store[userId] == [] then []
      else
        var filtered := Eligible(store[userId], before);
        filtered[..Min(limit.GetOr(DefaultLimit), |filtered|)]
    }
  }

  /**
   * A read returns nothing for a user without messages; otherwise the first
   * `limit` (or all, if fewer) of the user's admitted messages in ascending
   * order: the OLDEST such messages, since the page is taken from the front.
   */
  lemma GetMessagesSpec(cache: MessageCache, userId: string, limit: Option<nat>, before: Option<int>)
    ensures var r := cache.GetMessages(userId, limit, before);
      var e := Eligible(cache.Stored(userId), before);
      && (userId !in cache.store || cache.store[userId] == [] ==> r == [])
      && |r| == Min(limit.GetOr(DefaultLimit), |e|)
      && r == e[..|r|]
      && SortedByTime(r)
      && (forall m :: m in r ==> m in cache.Stored(userId) && Admits(before, m))
      && (forall x, y :: x in r && y in cache.Stored(userId) && Admits(before, y) && y !in r ==>
            x.createdAt <= y.createdAt)
  {
    var e := Eligible(cache.Stored(userId), before);
    OldestFirst(e, Min(limit.GetOr(DefaultLimit), |e|));
  }

  /** A prefix of a sorted list is older than everything it leaves out. */
  lemma OldestFirst(e: seq<Message>, n: nat)
    requires SortedByTime(e) && n <= |e|
    ensures SortedByTime(e[..n])
    ensures forall x, y :: x in e[..n] && y in e && y !in e[..n] ==> x.createdAt <= y.createdAt
  {
    forall x, y | x in e[..n] && y in e && y !in e[..n] ensures x.createdAt <= y.createdAt {
      var i :| 0 <= i < n && e[..n][i] == x;
      var j :| 0 <= j < |e| && e[j] == y;
      assert forall k :: 0 <= k < n ==> e[..n][k] == e[k];
      assert n <= j;
      assert e[i] == x;
    }
  }
}
