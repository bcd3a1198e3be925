/**
 * The remote chat history (src/db/redis.ts), over an abstract Redis: a
 * sorted set per key (member -> score) and a hash per key (field -> value).
 * A member is a whole message: JSON serialisation is taken to be injective,
 * so the message itself stands for its serialised form. The order Redis
 * gives to members with equal scores is not modelled.
 */
module RedisStore {
  import opened Wrappers
  import opened ChatMessages

  /** Page size of a history read when the caller gives none. */
  const DefaultLimit: nat := 20

  const ChatKeyPrefix: string := "chat:"
  const ChatKeySuffix: string := ":messages"
  const HashKeySuffix: string := ":messages:by-id"

  /** Key of the user's sorted set of messages, scored by creation time. */
  function ChatKey(userId: string): string {
    ChatKeyPrefix + userId + ChatKeySuffix
  }

  /** Key of the user's hash from message id to message. */
  function HashKey(userId: string): string {
    ChatKeyPrefix + userId + HashKeySuffix
  }

  /** Recovers the user id from a sorted-set key. */
  function UserOfChatKey(key: string): string
    requires |key| >= |ChatKeyPrefix| + |ChatKeySuffix|
  {
    key[|ChatKeyPrefix|..|key| - |ChatKeySuffix|]
  }

  /** Recovers the user id from a hash key. */
  function UserOfHashKey(key: string): string
    requires |key| >= |ChatKeyPrefix| + |HashKeySuffix|
  {
    key[|ChatKeyPrefix|..|key| - |HashKeySuffix|]
  }

  lemma ChatKeyRoundTrip(userId: string)
    ensures |ChatKey(userId)| >= |ChatKeyPrefix| + |ChatKeySuffix|
    ensures UserOfChatKey(ChatKey(userId)) == userId
  {
    var k := ChatKey(userId);
    assert k[|ChatKeyPrefix|..|k| - |ChatKeySuffix|] == userId;
  }

  lemma HashKeyRoundTrip(userId: string)
    ensures |HashKey(userId)| >= |ChatKeyPrefix| + |HashKeySuffix|
    ensures UserOfHashKey(HashKey(userId)) == userId
  {
    var k := HashKey(userId);
    assert k[|ChatKeyPrefix|..|k| - |HashKeySuffix|] == userId;
  }

  /** Different users never share a sorted-set key. */
  lemma ChatKeyInjective(u: string, v: string)
    ensures ChatKey(u) == ChatKey(v) ==> u == v
  {
    ChatKeyRoundTrip(u);
    ChatKeyRoundTrip(v);
  }

  /** Different users never share a hash key. */
  lemma HashKeyInjective(u: string, v: string)
    ensures HashKey(u) == HashKey(v) ==> u == v
  {
    HashKeyRoundTrip(u);
    HashKeyRoundTrip(v);
  }

  /** The hash key is the sorted-set key with ":by-id" appended. */
  lemma HashKeyExtendsChatKey(userId: string)
    ensures HashKey(userId) == ChatKey(userId) + ":by-id"
  {
  }

  /**
   * No sorted-set key is a hash key, for any two users: a sorted-set key
   * ends in 's' and a hash key in 'd'. The two kinds of key share Redis's
   * one key space without colliding.
   */
  lemma ChatKeyIsNeverHashKey(u: string, v: string)
    ensures ChatKey(u) != HashKey(v)
  {
    var a, b := ChatKey(u), HashKey(v);
    assert a[|a| - 1] == 's';
    assert b[|b| - 1] == 'd';
  }

  /** Every member of the sorted set is scored by its own creation time. */
  ghost predicate ScoredByCreation(z: map<Message, int>) {
    forall m :: m in z ==> z[m] == m.createdAt
  }

  /** ZADD of each message with its creation time as score, in batch order. */
  function ZAddAll(z: map<Message, int>, batch: seq<Message>): (r: map<Message, int>)
    ensures r.Keys == z.Keys + set m | m in batch
    ensures forall m :: m in batch ==> r[m] == m.createdAt
    ensures forall m :: m in z && m !in batch ==> r[m] == z[m]
    ensures ScoredByCreation(z) ==> ScoredByCreation(r)
    decreases |batch|
  {
    if batch == [] then z
    else
      var rest := ZAddAll(z[batch[0] := batch[0].createdAt], batch[1..]);
      assert forall m :: m in batch <==> m == batch[0] || m in batch[1..];
      rest
  }

  /** Storing messages that are already members with their scores changes nothing. */
  lemma ZAddOfMembers(z: map<Message, int>, batch: seq<Message>)
    requires forall m :: m in batch ==> m in z && z[m] == m.createdAt
    ensures ZAddAll(z, batch) == z
  {
    var r := ZAddAll(z, batch);
    assert r.Keys == z.Keys;
  }

  /** Storing the same batch twice leaves the sorted set as storing it once. */
  lemma ZAddIdempotent(z: map<Message, int>, batch: seq<Message>)
    ensures ZAddAll(ZAddAll(z, batch), batch) == ZAddAll(z, batch)
  {
    ZAddOfMembers(ZAddAll(z, batch), batch);
  }

  /** The position of the last message of `s` with the given id. */
  function LastIndex(s: seq<Message>, id: string): (i: nat)
    requires id in Ids(s)
    ensures i < |s| && s[i].id == id
    ensures forall k :: i < k < |s| ==> s[k].id != id
  {
    var n := |s| - 1;
    if s[n].id == id then n
    else
      assert id in Ids(s[..n]) by {
        var m :| m in s && m.id == id;
        var k :| 0 <= k < |s| && s[k] == m;
        assert s[..n][k] == m;
      }
      LastIndex(s[..n], id)
  }

  /**
   * HSET of the batch's id -> message entries. The entries go through
   * Object.fromEntries first, so among messages sharing an id the last wins.
   */
  function HSetAll(h: map<string, Message>, batch: seq<Message>): (r: map<string, Message>)
    ensures r.Keys == h.Keys + Ids(batch)
    ensures forall id :: id in Ids(batch) ==> r[id] == batch[LastIndex(batch, id)]
    ensures forall id :: id in h && id !in Ids(batch) ==> r[id] == h[id]
  {
    if batch == [] then h
    else
      var n := |batch| - 1;
      var first := batch[..n];
      var last := batch[n];
      assert batch == first + [last];
      var rest := HSetAll(h, first);
      IdsOfAppend(first, last);
      forall id | id in Ids(batch) && id != last.id
        ensures id in Ids(first) && LastIndex(batch, id) == LastIndex(first, id)
      {
        var i, j := LastIndex(batch, id), LastIndex(first, id);
        assert batch[j] == first[j];
        if i < n {
          assert first[i] == batch[i];
        }
      }
      rest[last.id := last]
  }

  /** Scores a read can return: below `lastTimestamp` when it is given and non-zero. */
  predicate InRange(lastTimestamp: Option<int>, score: int) {
    lastTimestamp.None? || lastTimestamp.value == 0 || score < lastTimestamp.value
  }

  /** A non-empty finite set of members has one with the highest score. */
  lemma HighestScoreExists(c: set<Message>, z: map<Message, int>)
    requires c != {} && c <= z.Keys
    ensures exists m :: m in c && forall o :: o in c ==> z[o] <= z[m]
  {
    var x :| x in c;
    if c != {x} {
      HighestScoreExists(c - {x}, z);
      var y :| y in c - {x} && forall o :: o in c - {x} ==> z[o] <= z[y];
      if z[x] <= z[y] {
        assert forall o :: o in c ==> z[o] <= z[y];
      } else {
        assert forall o :: o in c ==> z[o] <= z[x];
      }
    }
  }

  /**
   * The state of a ZREVRANGEBYSCORE selection: `r` holds the highest scored
   * of `eligible`, in descending score order, and `candidates` the rest.
   */
  ghost predicate Selecting(z: map<Message, int>, eligible: set<Message>, count: nat,
                            r: seq<Message>, candidates: set<Message>)
  {
    && |r| <= count
    && eligible <= z.Keys
    && candidates <= eligible
    && |r| + |candidates| == |eligible|
    && (forall m :: m in r ==> m in eligible && m !in candidates)
    && (forall m :: m in eligible && m !in r ==> m in candidates)
    && (forall i, j :: 0 <= i < j < |r| ==> z[r[i]] >= z[r[j]] && r[i] != r[j])
    && (forall c, x :: c in candidates && x in r ==> z[c] <= z[x])
  }

  /** Moving a highest scored candidate to the end of the page keeps the selection's shape. */
  lemma SelectStep(z: map<Message, int>, eligible: set<Message>, count: nat,
                   r: seq<Message>, candidates: set<Message>, m: Message)
    requires Selecting(z, eligible, count, r, candidates) && |r| < count
    requires m in candidates && forall o :: o in candidates ==> z[o] <= z[m]
    ensures Selecting(z, eligible, count, r + [m], candidates - {m})
  {
    var r' := r + [m];
    forall i, j | 0 <= i < j < |r'| ensures z[r'[i]] >= z[r'[j]] && r'[i] != r'[j] {
      if j < |r| {
        assert r'[i] == r[i] && r'[j] == r[j];
      } else {
        assert r'[i] == r[i] && r'[j] == m;
      }
    }
  }

  class Redis {
    /** Redis key -> sorted set (member -> score) */
    var sortedSets: map<string, map<Message, int>>
    /** Redis key -> hash (field -> value) */
    var hashes: map<string, map<string, Message>>

    /** Every member is scored by its own creation time. */
    ghost predicate Valid()
      reads this
    {
      forall k :: k in sortedSets ==> ScoredByCreation(sortedSets[k])
    }

    constructor ()
      ensures Valid() && sortedSets == map[] && hashes == map[]
    {
      sortedSets := map[];
      hashes := map[];
    }

    /** The user's sorted set; a missing key reads as empty. */
    function Chat(userId: string): map<Message, int>
      reads this
    {
      var key := ChatKey(userId);
      if key in sortedSets then sortedSets[key] else map[]
    }

    /** The user's by-id hash; a missing key reads as empty. */
    function ById(userId: string): map<string, Message>
      reads this
    {
      var key := HashKey(userId);
      if key in hashes then hashes[key] else map[]
    }

    /** The user's messages that a read with this cursor may return. */
    function Candidates(userId: string, lastTimestamp: Option<int>): set<Message>
      reads this
    {
      var z := Chat(userId);
      set m | m in z && InRange(lastTimestamp, z[m])
    }

    /**
     * Adds the batch to the user's sorted set (score = creation time) and
     * to the by-id hash. ZADD is given the first score-member pair apart
     * from the rest, so the batch must not be empty.
     */
    method StoreMessages(userId: string, messages: seq<Message>)
      requires Valid() && |messages| > 0
      modifies this
      ensures Valid()
      ensures sortedSets == old(sortedSets)[ChatKey(userId) := ZAddAll(old(Chat(userId)), messages)]
      ensures hashes == old(hashes)[HashKey(userId) := HSetAll(old(ById(userId)), messages)]
    {
      var setKey := ChatKey(userId);
      var hashKey := HashKey(userId);
      var z := ZAddAll(Chat(userId), messages);
      var h := HSetAll(ById(userId), messages);
      sortedSets := sortedSets[setKey := z];
      hashes := hashes[hashKey := h];
    }

    /**
     * What ZRANGE key (lastTimestamp -inf BYSCORE REV LIMIT 0 count (or
     * from +inf when no cursor is set) may return: `count` members, or all
     * the candidates if fewer, each a member strictly below the cursor,
     * highest score first, none twice, and none passed over for a member
     * with a lower score.
     */
    ghost predicate HistoryPage(userId: string, count: nat, lastTimestamp: Option<int>, r: seq<Message>)
      reads this
    {
      && |r| == Min(count, |Candidates(userId, lastTimestamp)|)
      && (forall m :: m in r ==> m in Chat(userId) && InRange(lastTimestamp, m.createdAt))
      && (forall i, j :: 0 <= i < j < |r| ==> r[i].createdAt >= r[j].createdAt && r[i] != r[j])
      && (forall m, x :: m in Chat(userId) && InRange(lastTimestamp, m.createdAt) && m !in r && x in r ==>
            m.createdAt <= x.createdAt)
    }

    /** A history read: a page of at most `limit` (by default 20) messages, newest first. */
    method GetMessages(userId: string, limit: Option<nat>, lastTimestamp: Option<int>)
      returns (r: seq<Message>)
      requires Valid()
      ensures HistoryPage(userId, limit.GetOr(DefaultLimit), lastTimestamp, r)
    {
      var z := Chat(userId);
      var count := limit.GetOr(DefaultLimit);
      ghost var eligible := Candidates(userId, lastTimestamp);
      var candidates := set m | m in z && InRange(lastTimestamp, z[m]);
      r := [];
      while |r| < count && candidates != {}
        invariant Selecting(z, eligible, count, r, candidates)
        decreases candidates
      {
        HighestScoreExists(candidates, z);
        var m :| m in candidates && forall o :: o in candidates ==> z[o] <= z[m];
        SelectStep(z, eligible, count, r, candidates, m);
        r := r + [m];
        candidates := candidates - {m};
      }
    }

    /** HGET of the message id in the user's hash; null when it is absent. */
    function GetMessage(userId: string, messageId: string): (r: Option<Message>)
      reads this
      ensures r.Some? <==> messageId in ById(userId)
      ensures r.Some? ==> r.value == ById(userId)[messageId]
    {
      var h := ById(userId);
      if messageId in h then Some(h[messageId]) else None
    }

    /** Deletes the user's sorted set and hash; every other key stays as it was. */
    method ClearChat(userId: string)
      requires Valid()
      modifies this
      ensures Valid()
      ensures sortedSets == old(sortedSets) - {ChatKey(userId)}
      ensures hashes == old(hashes) - {HashKey(userId)}
      ensures Chat(userId) == map[] && ById(userId) == map[]
      ensures forall v :: v != userId ==> Chat(v) == old(Chat(v)) && ById(v) == old(ById(v))
    {
      var setKey := ChatKey(userId);
      var hashKey := HashKey(userId);
      sortedSets := sortedSets - {setKey};
      hashes := hashes - {hashKey};
      forall v | v != userId
        ensures ChatKey(v) != setKey && HashKey(v) != hashKey
      {
        ChatKeyInjective(v, userId);
        HashKeyInjective(v, userId);
      }
    }
  }
}
