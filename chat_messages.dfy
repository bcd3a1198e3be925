/**
 * The chat message record shared by the client, the local cache, the
 * remote store and the API route, together with the order every list of
 * messages is kept in: ascending creation time, produced by a stable sort
 * (JavaScript's Array.prototype.sort with the comparator a - b), and the
 * client's deduplication (src/app/chat/page.tsx).
 */
module ChatMessages {
  import opened Wrappers
  import MacroSummary

  datatype Role = User | Assistant | System | Data

  /** A tool call's progress; only a finished call carries its result. */
  datatype ToolState = PartialCall | Call | Result(result: seq<MacroSummary.Food>)

  datatype ToolInvocation = ToolInvocation(toolName: string, state: ToolState)

  /** `createdAt` is the creation time in milliseconds since the epoch. */
  datatype Message = Message(
    id: string,
    role: Role,
    content: string,
    createdAt: int,
    toolInvocations: Option<seq<ToolInvocation>>)

  predicate SortedByTime(s: seq<Message>) {
    forall i, j :: 0 <= i < j < |s| ==> s[i].createdAt <= s[j].createdAt
  }

  /** The length of a page of at most `a` out of `b` messages. */
  function Min(a: nat, b: nat): nat {
    if a <= b then a else b
  }

  /** The ids occurring in `s`. */
  function Ids(s: seq<Message>): set<string> {
    set m | m in s :: m.id
  }

  predicate NoDuplicateIds(s: seq<Message>) {
    forall i, j :: 0 <= i < j < |s| ==> s[i].id != s[j].id
  }

  /** The messages of `s` created at time `t`, in their order in `s`. */
  function CreatedAt(s: seq<Message>, t: int): (r: seq<Message>)
  {
    if s == [] then []
    else (if s[0].createdAt == t then [s[0]] else []) + CreatedAt(s[1..], t)
  }

  /** How many leading messages of `s` are strictly older than `x`. */
  function InsertPosition(x: Message, s: seq<Message>): (k: nat)
    ensures k <= |s|
    ensures forall i :: 0 <= i < k ==> s[i].createdAt < x.createdAt
    ensures k < |s| ==> x.createdAt <= s[k].createdAt
  {
    if s == [] || x.createdAt <= s[0].createdAt then 0 else 1 + InsertPosition(x, s[1..])
  }

  /** `x` placed before the first message of `s` that is not older than it. */
  function Insert(x: Message, s: seq<Message>): (r: seq<Message>)
    ensures multiset(r) == multiset(s) + multiset{x}
  {
    var k := InsertPosition(x, s);
    assert s == s[..k] + s[k..];
    s[..k] + [x] + s[k..]
  }

  /** Where each element of `Insert(x, s)` comes from. */
  lemma InsertShape(x: Message, s: seq<Message>)
    ensures var k := InsertPosition(x, s); var r := Insert(x, s);
      && |r| == |s| + 1 && r[k] == x
      && (forall i :: 0 <= i < k ==> r[i] == s[i])
      && (forall i :: k < i < |r| ==> r[i] == s[i - 1])
  {
  }

  lemma InsertKeepsOrder(x: Message, s: seq<Message>)
    requires SortedByTime(s)
    ensures SortedByTime(Insert(x, s))
  {
    var k := InsertPosition(x, s);
    var r := Insert(x, s);
    InsertShape(x, s);
    forall i, j | 0 <= i < j < |r| ensures r[i].createdAt <= r[j].createdAt {
      if j < k {
        assert r[i] == s[i] && r[j] == s[j];
      } else if j == k {
        assert r[i] == s[i];
      } else if i < k {
        assert r[i] == s[i] && r[j] == s[j - 1];
      } else if i == k {
        assert r[j] == s[j - 1];
      } else {
        assert r[i] == s[i - 1] && r[j] == s[j - 1];
      }
    }
  }

  /** Ascending by creation time; a permutation of the input. */
  function SortByTime(s: seq<Message>): (r: seq<Message>)
    ensures multiset(r) == multiset(s)
    ensures SortedByTime(r)
  {
    if s == [] then []
    else
      assert s == [s[0]] + s[1..];
      InsertKeepsOrder(s[0], SortByTime(s[1..]));
      Insert(s[0], SortByTime(s[1..]))
  }

  lemma {:induction false} CreatedAtAppend(a: seq<Message>, b: seq<Message>, t: int)
    ensures CreatedAt(a + b, t) == CreatedAt(a, t) + CreatedAt(b, t)
  {
    if a != [] {
      assert (a + b)[1..] == a[1..] + b;
      CreatedAtAppend(a[1..], b, t);
    } else {
      assert a + b == b;
    }
  }

  lemma {:induction false} CreatedAtNone(s: seq<Message>, t: int)
    requires forall i :: 0 <= i < |s| ==> s[i].createdAt != t
    ensures CreatedAt(s, t) == []
  {
    if s != [] {
      CreatedAtNone(s[1..], t);
    }
  }

  lemma CreatedAtCons(x: Message, s: seq<Message>, t: int)
    ensures CreatedAt([x] + s, t) == (if x.createdAt == t then [x] else []) + CreatedAt(s, t)
  {
    assert ([x] + s)[1..] == s;
  }

  lemma CreatedAtSplice(pre: seq<Message>, x: Message, post: seq<Message>, t: int)
    requires forall i :: 0 <= i < |pre| ==> pre[i].createdAt < x.createdAt
    ensures CreatedAt(pre + ([x] + post), t) == (if x.createdAt == t then [x] else []) + CreatedAt(pre + post, t)
  {
    CreatedAtAppend(pre, [x] + post, t);
    CreatedAtAppend(pre, post, t);
    CreatedAtCons(x, post, t);
    if x.createdAt == t {
      CreatedAtNone(pre, t);
    }
  }

  lemma InsertKeepsTies(x: Message, s: seq<Message>, t: int)
    ensures CreatedAt(Insert(x, s), t) == (if x.createdAt == t then [x] else []) + CreatedAt(s, t)
  {
    var k := InsertPosition(x, s);
    assert s == s[..k] + s[k..];
    assert Insert(x, s) == s[..k] + ([x] + s[k..]);
    CreatedAtSplice(s[..k], x, s[k..], t);
  }

  /** The sort is stable: messages created at the same time keep their relative order. */
  lemma {:induction false} SortIsStable(s: seq<Message>, t: int)
    ensures CreatedAt(SortByTime(s), t) == CreatedAt(s, t)
  {
    if s != [] {
      SortIsStable(s[1..], t);
      InsertKeepsTies(s[0], SortByTime(s[1..]), t);
    }
  }

  /** A list that is already in order is left as it is. */
  lemma {:induction false} SortOfSorted(s: seq<Message>)
    requires SortedByTime(s)
    ensures SortByTime(s) == s
  {
    if s != [] {
      SortOfSorted(s[1..]);
      assert InsertPosition(s[0], s[1..]) == 0;
    }
  }

  lemma SameElementsSameIds(a: seq<Message>, b: seq<Message>)
    requires multiset(a) == multiset(b)
    ensures Ids(a) == Ids(b)
  {
    forall id | id in Ids(a) ensures id in Ids(b) {
      var m :| m in a && m.id == id;
      assert m in multiset(b);
    }
    forall id | id in Ids(b) ensures id in Ids(a) {
      var m :| m in b && m.id == id;
      assert m in multiset(a);
    }
  }

  lemma InsertKeepsIdsDistinct(x: Message, s: seq<Message>)
    requires NoDuplicateIds(s) && x.id !in Ids(s)
    ensures NoDuplicateIds(Insert(x, s))
  {
    var k := InsertPosition(x, s);
    var r := Insert(x, s);
    InsertShape(x, s);
    forall q | 0 <= q < |s| ensures s[q].id != x.id {
      assert s[q].id in Ids(s);
    }
    forall i, j | 0 <= i < j < |r| ensures r[i].id != r[j].id {
      if j < k {
        assert r[i] == s[i] && r[j] == s[j];
      } else if j == k {
        assert r[i] == s[i];
      } else if i < k {
        assert r[i] == s[i] && r[j] == s[j - 1];
      } else if i == k {
        assert r[j] == s[j - 1];
      } else {
        assert r[i] == s[i - 1] && r[j] == s[j - 1];
      }
    }
  }

  lemma {:induction false} SortKeepsIdsDistinct(s: seq<Message>)
    requires NoDuplicateIds(s)
    ensures NoDuplicateIds(SortByTime(s))
  {
    if s != [] {
      assert NoDuplicateIds(s[1..]);
      SortKeepsIdsDistinct(s[1..]);
      assert s[0].id !in Ids(s[1..]);
      var t := SortByTime(s[1..]);
      SameElementsSameIds(t, s[1..]);
      InsertKeepsIdsDistinct(s[0], t);
    }
  }

  /** The position of the first message of `s` with the given id. */
  function FirstIndex(s: seq<Message>, id: string): (i: nat)
    requires id in Ids(s)
    ensures i < |s| && s[i].id == id
    ensures forall k :: 0 <= k < i ==> s[k].id != id
  {
    if s[0].id == id then 0
    else
      assert id in Ids(s[1..]) by {
        var m :| m in s && m.id == id;
        assert m != s[0];
        assert m in s[1..];
      }
      1 + FirstIndex(s[1..], id)
  }

  /**
   * The first message of each id, in the order the ids first occur: what the
   * client's `Map` holds, in its insertion order, after the forEach loop.
   */
  function FirstOccurrences(s: seq<Message>): (r: seq<Message>)
  {
    if s == [] then []
    else
      var rest := FirstOccurrences(s[..|s| - 1]);
      if s[|s| - 1].id in Ids(rest) then rest else rest + [s[|s| - 1]]
  }

  lemma IdsOfAppend(s: seq<Message>, x: Message)
    ensures Ids(s + [x]) == Ids(s) + {x.id}
  {
    assert forall m :: m in s + [x] <==> m in s || m == x;
  }

  lemma FirstIndexOfExtended(s: seq<Message>, x: Message, id: string)
    requires id in Ids(s)
    ensures id in Ids(s + [x]) && FirstIndex(s + [x], id) == FirstIndex(s, id)
  {
    IdsOfAppend(s, x);
    var i, j := FirstIndex(s + [x], id), FirstIndex(s, id);
    assert (s + [x])[j] == s[j];
  }

  /**
   * FirstOccurrences keeps exactly the ids of its input, each once, and for
   * each id the message at that id's first position.
   */
  lemma {:induction false} FirstOccurrencesSpec(s: seq<Message>)
    ensures Ids(FirstOccurrences(s)) == Ids(s)
    ensures NoDuplicateIds(FirstOccurrences(s))
    ensures forall m :: m in FirstOccurrences(s) ==> m.id in Ids(s) && m == s[FirstIndex(s, m.id)]
  {
    if s != [] {
      var p, x := s[..|s| - 1], s[|s| - 1];
      assert s == p + [x];
      FirstOccurrencesSpec(p);
      var rest := FirstOccurrences(p);
      IdsOfAppend(p, x);
      forall m | m in rest ensures m.id in Ids(s) && m == s[FirstIndex(s, m.id)] {
        FirstIndexOfExtended(p, x, m.id);
      }
      if x.id !in Ids(rest) {
        IdsOfAppend(rest, x);
        var r := rest + [x];
        forall i, j | 0 <= i < j < |r| ensures r[i].id != r[j].id {
          if j == |rest| {
            assert r[i] in rest;
          } else {
            assert r[i] == rest[i] && r[j] == rest[j];
          }
        }
      }
    }
  }

  /** The ids of `r`, all from `s`, appear in `r` in the order of their first positions in `s`. */
  predicate InFirstOccurrenceOrder(s: seq<Message>, r: seq<Message>) {
    forall i, j :: 0 <= i < j < |r| ==>
      r[i].id in Ids(s) && r[j].id in Ids(s) && FirstIndex(s, r[i].id) < FirstIndex(s, r[j].id)
  }

  /**
   * FirstOccurrences lists the ids in the order they first occur, as the
   * client's `Map` iterates in insertion order.
   */
  lemma {:induction false} FirstOccurrencesInOrder(s: seq<Message>)
    ensures InFirstOccurrenceOrder(s, FirstOccurrences(s))
  {
    if s != [] {
      var p, x := s[..|s| - 1], s[|s| - 1];
      assert s == p + [x];
      FirstOccurrencesSpec(p);
      FirstOccurrencesInOrder(p);
      var rest := FirstOccurrences(p);
      IdsOfAppend(p, x);
      forall i | 0 <= i < |rest|
        ensures rest[i].id in Ids(p) && rest[i].id in Ids(s)
        ensures FirstIndex(s, rest[i].id) == FirstIndex(p, rest[i].id) < |p|
      {
        assert rest[i] in rest;
        FirstIndexOfExtended(p, x, rest[i].id);
      }
      if x.id !in Ids(rest) {
        assert x in s;
        var last := FirstIndex(s, x.id);
        assert last == |p| by {
          assert s[last].id !in Ids(p) ==> last >= |p|;
        }
        var r := rest + [x];
        forall i, j | 0 <= i < j < |r|
          ensures r[i].id in Ids(s) && r[j].id in Ids(s)
          ensures FirstIndex(s, r[i].id) < FirstIndex(s, r[j].id)
        {
          assert r[i] == rest[i];
          if j < |rest| {
            assert r[j] == rest[j];
          }
        }
      }
    }
  }

  /** The client's merge result: the first message of each id, sorted by creation time. */
  function Deduplicated(s: seq<Message>): seq<Message> {
    SortByTime(FirstOccurrences(s))
  }

  /**
   * The merge result is ascending by creation time, has each id once and
   * exactly the ids of its input, and each kept message is the first one in
   * the input with its id.
   */
  lemma DeduplicatedSpec(s: seq<Message>)
    ensures SortedByTime(Deduplicated(s))
    ensures NoDuplicateIds(Deduplicated(s))
    ensures Ids(Deduplicated(s)) == Ids(s)
    ensures forall m :: m in Deduplicated(s) ==> m.id in Ids(s) && m == s[FirstIndex(s, m.id)]
  {
    FirstOccurrencesSpec(s);
    var firsts := FirstOccurrences(s);
    SortKeepsIdsDistinct(firsts);
    SameElementsSameIds(SortByTime(firsts), firsts);
    forall m | m in SortByTime(firsts) ensures m in firsts {
      assert m in multiset(SortByTime(firsts));
    }
  }

  lemma IdsOfConcat(a: seq<Message>, b: seq<Message>)
    ensures Ids(a + b) == Ids(a) + Ids(b)
  {
    assert forall m :: m in a + b <==> m in a || m in b;
  }

  /** The first position of an id in `a + b` lies in `a` exactly when `a` has the id. */
  lemma FirstIndexOfConcat(a: seq<Message>, b: seq<Message>, id: string)
    requires id in Ids(a + b)
    ensures var k := FirstIndex(a + b, id);
      && (id in Ids(a) ==> (a + b)[k] in a)
      && (id !in Ids(a) ==> (a + b)[k] in b)
  {
    var s := a + b;
    var k := FirstIndex(s, id);
    if id in Ids(a) {
      var x :| x in a && x.id == id;
      var j :| 0 <= j < |a| && a[j] == x;
      assert s[j].id == id;
      assert s[k] == a[k];
    } else {
      forall j | 0 <= j < |a| ensures s[j].id != id {
        assert s[j] == a[j] && a[j] in a;
      }
      assert s[k] == b[k - |a|];
    }
  }

  /**
   * Merging `a` then `b` keeps `a`'s copy of every id that `a` has, and
   * takes from `b` only the ids `a` lacks.
   */
  lemma DeduplicatedPrefersFirst(a: seq<Message>, b: seq<Message>)
    ensures forall m :: m in Deduplicated(a + b) ==> (m.id in Ids(a) ==> m in a) && (m.id !in Ids(a) ==> m in b)
  {
    DeduplicatedSpec(a + b);
    forall m | m in Deduplicated(a + b) ensures (m.id in Ids(a) ==> m in a) && (m.id !in Ids(a) ==> m in b) {
      FirstIndexOfConcat(a, b, m.id);
    }
  }
}
