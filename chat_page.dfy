/**
 * The chat page (src/app/chat/page.tsx): the displayed message list and the
 * pagination state, driven by the initial load, the load of older
 * messages and the scroll handler, plus the grouping of messages under
 * date dividers. Each handler is one sequential step. What the network and
 * the chat SDK deliver is passed in: a fetched page is None when the
 * request or its JSON parse threw.
 */
module ChatPage {
  import opened Wrappers
  import opened ChatMessages
  import LocalCache
  import RedisStore
  import ChatRoute

  /** Page size of every history request the page makes. */
  const PageSize: nat := 10
  /** Pixels from the top that trigger a load, and from the bottom that keep auto-scroll on. */
  const ScrollThreshold: int := 100
  const MillisecondsPerDay: int := 86400000

  /** The part of the page state the loaders change. */
  datatype View = View(messages: seq<Message>, lastTimestamp: Option<int>, hasMore: bool)

  /** Creation time of the last message of a page: the next cursor. */
  function LastCreatedAt(page: seq<Message>): int
    requires |page| > 0
  {
    page[|page| - 1].createdAt
  }

  /** The list and cursor once a non-empty cached page has been taken in by the initial load. */
  function WithCachedPage(v: View, cached: seq<Message>): View {
    if |cached| > 0 then View(cached, Some(LastCreatedAt(cached)), v.hasMore) else v
  }

  /**
   * Effect of loadInitialMessages on the view, given the cached page and
   * the fetched newest page: see InitialLoadMerges.
   */
  function AfterInitialLoad(v: View, cached: seq<Message>, fetched: Option<seq<Message>>): View {
    var v1 := WithCachedPage(v, cached);
    if fetched.Some? && |fetched.value| > 0 then
      var page := fetched.value;
      View(Deduplicated(v1.messages + page), Some(LastCreatedAt(page)), |page| == PageSize)
    else v1
  }

  /**
   * A non-empty cached page (the cache's ten oldest messages) replaces the
   * list and sets the cursor. Then a non-empty fetched page is merged in
   * after it: the result is sorted, has each id once, has the ids of both,
   * and the list's copy of an id wins over the page's. The cursor becomes
   * the page's last creation time and `hasMore` is whether the page was
   * full. With no fetched page the list and `hasMore` are left as the cache
   * step made them.
   */
  lemma InitialLoadMerges(v: View, cached: seq<Message>, fetched: Option<seq<Message>>)
    ensures var w := AfterInitialLoad(v, cached, fetched);
      var shown := if |cached| > 0 then cached else v.messages;
      if fetched.Some? && |fetched.value| > 0 then
        var page := fetched.value;
        && w.lastTimestamp == Some(LastCreatedAt(page))
        && (w.hasMore <==> |page| == PageSize)
        && SortedByTime(w.messages) && NoDuplicateIds(w.messages)
        && Ids(w.messages) == Ids(shown) + Ids(page)
        && (forall m :: m in w.messages ==> (m.id in Ids(shown) ==> m in shown) && (m.id !in Ids(shown) ==> m in page))
      else
        && w.messages == shown
        && w.lastTimestamp == (if |cached| > 0 then Some(LastCreatedAt(cached)) else v.lastTimestamp)
        && w.hasMore == v.hasMore
  {
    if fetched.Some? && |fetched.value| > 0 {
      var shown := WithCachedPage(v, cached).messages;
      IdsOfConcat(shown, fetched.value);
      DeduplicatedSpec(shown + fetched.value);
      DeduplicatedPrefersFirst(shown, fetched.value);
    }
  }

  /**
   * The initial load as written also runs again later (its effect depends on
   * `scrollToBottom`, which changes with `shouldAutoScroll`). Such a re-run
   * with a non-empty cache shows only the cache's oldest page and the newest
   * fetched page: every message already shown in neither is dropped.
   */
  lemma InitialReloadKeepsOnlyThePages(v: View, cached: seq<Message>, fetched: Option<seq<Message>>)
    requires |cached| > 0
    ensures forall m :: m in AfterInitialLoad(v, cached, fetched).messages ==>
      m in cached || (fetched.Some? && m in fetched.value)
  {
    if fetched.Some? && |fetched.value| > 0 {
      DeduplicatedSpec(cached + fetched.value);
      DeduplicatedPrefersFirst(cached, fetched.value);
    }
  }

  /**
   * An older message brought in by loadMoreMessages is lost on a re-run of
   * the initial load once an earlier run has left only the newest page in
   * the cache (it saves the fetched page alone).
   */
  lemma InitialReloadDropsOlderMessage()
    ensures var older := Message("a", User, "", 100, None);
      var newest := Message("b", Assistant, "", 200, None);
      var loaded := View([older, newest], Some(100), false);
      var w := AfterInitialLoad(loaded, [newest], Some([newest]));
      older in loaded.messages && older !in w.messages && w.lastTimestamp == Some(200)
  {
    var older := Message("a", User, "", 100, None);
    var newest := Message("b", Assistant, "", 200, None);
    var loaded := View([older, newest], Some(100), false);
    InitialReloadKeepsOnlyThePages(loaded, [newest], Some([newest]));
  }

  /** The list and cursor once a non-empty cached older page has been merged in front. */
  function WithCachedOlderPage(v: View, cached: seq<Message>): View {
    if |cached| > 0 then View(Deduplicated(cached + v.messages), Some(LastCreatedAt(cached)), v.hasMore) else v
  }

  /**
   * Effect of loadMoreMessages on the view, given the cached page older
   * than the cursor and the remote answer: see LoadMoreMerges.
   */
  function AfterLoadMore(v: View, cached: seq<Message>, response: Option<seq<Message>>): View {
    WithOlderResponse(WithCachedOlderPage(v, cached), response)
  }

  /** The remote step of loadMoreMessages on the view. */
  function WithOlderResponse(v: View, response: Option<seq<Message>>): View {
    match response
    case None => v
    case Some(page) =>
      if |page| > 0 then View(Deduplicated(page + v.messages), Some(LastCreatedAt(page)), |page| == PageSize)
      else View(v.messages, v.lastTimestamp, false)
  }

  /**
   * A non-empty cached older page is merged in front and moves the cursor.
   * Then a non-empty remote page is merged in front the same way: sorted,
   * each id once, the ids of all three lists, the remote page's copy of an
   * id winning over what the cached step left; the cursor becomes its last
   * creation time and `hasMore` whether it was full.
   */
  lemma LoadMoreMerges(v: View, cached: seq<Message>, page: seq<Message>)
    requires |page| > 0
    ensures var w := AfterLoadMore(v, cached, Some(page));
      var shown := WithCachedOlderPage(v, cached).messages;
      && w.lastTimestamp == Some(LastCreatedAt(page))
      && (w.hasMore <==> |page| == PageSize)
      && SortedByTime(w.messages) && NoDuplicateIds(w.messages)
      && Ids(w.messages) == Ids(page) + Ids(cached) + Ids(v.messages)
      && (forall m :: m in w.messages ==> (m.id in Ids(page) ==> m in page) && (m.id !in Ids(page) ==> m in shown))
  {
    IdsOfConcat(cached, v.messages);
    DeduplicatedSpec(cached + v.messages);
    OlderPageMerges(WithCachedOlderPage(v, cached), page);
  }

  /**
   * Without a remote page only the cached step shows: an empty remote page
   * sets `hasMore` to false, a failed request leaves it alone.
   */
  lemma LoadMoreWithoutPage(v: View, cached: seq<Message>, response: Option<seq<Message>>)
    requires response.None? || |response.value| == 0
    ensures var w := AfterLoadMore(v, cached, response);
      && Ids(w.messages) == Ids(cached) + Ids(v.messages)
      && (forall m :: m in w.messages ==> m in cached || m in v.messages)
      && (|cached| > 0 ==>
        && SortedByTime(w.messages) && NoDuplicateIds(w.messages)
        && w.lastTimestamp == Some(LastCreatedAt(cached)))
      && (|cached| == 0 ==> w.messages == v.messages && w.lastTimestamp == v.lastTimestamp)
      && (w.hasMore <==> response.None? && v.hasMore)
  {
    if |cached| > 0 {
      IdsOfConcat(cached, v.messages);
      DeduplicatedSpec(cached + v.messages);
    }
  }

  /** The remote step alone: a non-empty older page merged in front of what is shown. */
  lemma OlderPageMerges(v: View, page: seq<Message>)
    requires |page| > 0
    ensures var w := WithOlderResponse(v, Some(page));
      && w.lastTimestamp == Some(LastCreatedAt(page))
      && (w.hasMore <==> |page| == PageSize)
      && SortedByTime(w.messages) && NoDuplicateIds(w.messages)
      && Ids(w.messages) == Ids(page) + Ids(v.messages)
      && (forall m :: m in w.messages ==> (m.id in Ids(page) ==> m in page) && (m.id !in Ids(page) ==> m in v.messages))
  {
    IdsOfConcat(page, v.messages);
    DeduplicatedSpec(page + v.messages);
    DeduplicatedPrefersFirst(page, v.messages);
  }

  /**
   * The remote store answers newest-first, so the cursor taken from the end
   * of a remote page is the page's oldest creation time.
   */
  lemma CursorIsOldestOfPage(redis: RedisStore.Redis, userId: string, count: nat, lastTimestamp: Option<int>, page: seq<Message>)
    requires redis.HistoryPage(userId, count, lastTimestamp, page) && |page| > 0
    ensures forall m :: m in page ==> LastCreatedAt(page) <= m.createdAt
  {
    forall m | m in page ensures LastCreatedAt(page) <= m.createdAt {
      var i :| 0 <= i < |page| && page[i] == m;
      if i < |page| - 1 {
        assert page[i].createdAt >= page[|page| - 1].createdAt;
      }
    }
  }

  /**
   * The page fetched with that cursor holds only strictly older messages
   * than every message of the previous page.
   */
  lemma NextPageIsOlder(redis: RedisStore.Redis, userId: string, count: nat, lastTimestamp: Option<int>,
                        page: seq<Message>, next: seq<Message>)
    requires redis.HistoryPage(userId, count, lastTimestamp, page) && |page| > 0 && LastCreatedAt(page) != 0
    requires redis.HistoryPage(userId, PageSize, Some(LastCreatedAt(page)), next)
    ensures forall m, x :: m in next && x in page ==> m.createdAt < x.createdAt
  {
    CursorIsOldestOfPage(redis, userId, count, lastTimestamp, page);
  }

  /** UTC calendar day of a millisecond timestamp: what `toISOString().split('T')[0]` tells apart. */
  function DayKey(t: int): int {
    t / MillisecondsPerDay
  }

  datatype RenderItem = Divider(date: int) | Item(message: Message)

  /** Whether message `i` of `ms` opens a new day, and so gets a divider. */
  predicate StartsDay(ms: seq<Message>, i: nat)
    requires i < |ms|
  {
    i == 0 || DayKey(ms[i].createdAt) != DayKey(ms[i - 1].createdAt)
  }

  /** What the render `reduce` pushes for message `n`: a divider when it opens a day, then the message. */
  function Turn(ms: seq<Message>, n: nat): seq<RenderItem>
    requires n < |ms|
  {
    (if StartsDay(ms, n) then [Divider(ms[n].createdAt)] else []) + [Item(ms[n])]
  }

  /** The render `reduce`: what it has pushed after visiting all of `ms`. */
  function Layout(ms: seq<Message>): seq<RenderItem> {
    if ms == [] then []
    else
      var n := |ms| - 1;
      Layout(ms[..n]) + Turn(ms, n)
  }

  /** The messages among rendered items, in order. */
  function ItemsOf(items: seq<RenderItem>): seq<Message> {
    if items == [] then []
    else
      var n := |items| - 1;
      ItemsOf(items[..n]) + (if items[n].Item? then [items[n].message] else [])
  }

  lemma {:induction false} ItemsOfAppend(a: seq<RenderItem>, b: seq<RenderItem>)
    ensures ItemsOf(a + b) == ItemsOf(a) + ItemsOf(b)
    decreases |b|
  {
    if b == [] {
      assert a + b == a;
    } else {
      var k := |b| - 1;
      ItemsOfAppend(a, b[..k]);
      assert (a + b)[..|a + b| - 1] == a + b[..k];
      assert (a + b)[|a + b| - 1] == b[k];
    }
  }

  lemma ItemsOfTurn(ms: seq<Message>, n: nat)
    requires n < |ms|
    ensures ItemsOf(Turn(ms, n)) == [ms[n]]
  {
    var it := Item(ms[n]);
    if StartsDay(ms, n) {
      var t := [Divider(ms[n].createdAt), it];
      assert Turn(ms, n) == t;
      assert t[..1] == [t[0]];
      assert ItemsOf(t[..1]) == [];
    } else {
      assert Turn(ms, n) == [it];
    }
  }

  /** The last message's turn of the `reduce` adds exactly that message to the rendered messages. */
  lemma LayoutStep(ms: seq<Message>)
    requires ms != []
    ensures ItemsOf(Layout(ms)) == ItemsOf(Layout(ms[..|ms| - 1])) + [ms[|ms| - 1]]
  {
    var n := |ms| - 1;
    ItemsOfAppend(Layout(ms[..n]), Turn(ms, n));
    ItemsOfTurn(ms, n);
  }

  /** Every message is rendered exactly once, in list order. */
  lemma {:induction false} LayoutKeepsMessages(ms: seq<Message>)
    ensures ItemsOf(Layout(ms)) == ms
  {
    if ms != [] {
      var n := |ms| - 1;
      LayoutKeepsMessages(ms[..n]);
      LayoutStep(ms);
      assert ms[..n] + [ms[n]] == ms;
    }
  }

  /** Rendering a prefix of the list renders a prefix of the items. */
  lemma {:induction false} LayoutOfPrefix(ms: seq<Message>, i: nat)
    requires i <= |ms|
    ensures |Layout(ms[..i])| <= |Layout(ms)|
    ensures Layout(ms)[..|Layout(ms[..i])|] == Layout(ms[..i])
    decreases |ms| - i
  {
    if i < |ms| {
      var n := |ms| - 1;
      assert ms[..n][..i] == ms[..i];
      LayoutOfPrefix(ms[..n], i);
      assert ms[..|ms|] == ms;
    } else {
      assert ms[..i] == ms;
    }
  }

  /**
   * Where message `i`'s turn starts in the rendered items, there is a
   * divider with its date exactly when it opens a new day, and the message
   * itself otherwise; after a divider comes the message.
   */
  lemma DividerMarksNewDay(ms: seq<Message>, i: nat)
    requires i < |ms|
    ensures var p := |Layout(ms[..i])|;
      && p < |Layout(ms)|
      && (StartsDay(ms, i) ==> Layout(ms)[p] == Divider(ms[i].createdAt) && p + 1 < |Layout(ms)| && Layout(ms)[p + 1] == Item(ms[i]))
      && (!StartsDay(ms, i) ==> Layout(ms)[p] == Item(ms[i]))
  {
    var pre := ms[..i + 1];
    assert pre[..i] == ms[..i];
    assert StartsDay(pre, i) == StartsDay(ms, i);
    LayoutOfPrefix(ms, i + 1);
  }

  /** One more step of the client's forEach: the next message is kept iff its id is new. */
  lemma FirstOccurrencesStep(s: seq<Message>, i: nat)
    requires i < |s|
    ensures Ids(s[..i + 1]) == Ids(s[..i]) + {s[i].id}
    ensures FirstOccurrences(s[..i + 1]) ==
      if s[i].id in Ids(s[..i]) then FirstOccurrences(s[..i]) else FirstOccurrences(s[..i]) + [s[i]]
  {
    FirstOccurrencesSpec(s[..i]);
    assert s[..i + 1][..i] == s[..i];
    IdsOfAppend(s[..i], s[i]);
    assert s[..i + 1] == s[..i] + [s[i]];
  }

  /** Every message of `inOrder` is the one `seen` holds for its id. */
  predicate Tracks(seen: map<string, Message>, inOrder: seq<Message>) {
    forall m :: m in inOrder ==> m.id in seen && seen[m.id] == m
  }

  /** Recording a new id keeps the map's values and the insertion order in step. */
  lemma SeenStep(seen: map<string, Message>, inOrder: seq<Message>, message: Message)
    requires Tracks(seen, inOrder)
    requires message.id !in seen
    ensures seen[message.id := message].Keys == seen.Keys + {message.id}
    ensures Tracks(seen[message.id := message], inOrder + [message])
  {
    forall m | m in inOrder + [message]
      ensures m.id in seen[message.id := message] && seen[message.id := message][m.id] == m
    {
      if m != message {
        assert m in inOrder;
      }
    }
  }

  class Chat {
    const userId: Option<string>
    const cache: LocalCache.MessageCache
    var messages: seq<Message>
    var lastTimestamp: Option<int>
    var isLoading: bool
    var hasMore: bool
    var shouldAutoScroll: bool
    /** Whether the initial load has run: the guard of the mount-only effect. */
    var initialLoaded: bool

    constructor (userId: Option<string>, cache: LocalCache.MessageCache)
      ensures this.userId == userId && this.cache == cache
      ensures messages == [] && lastTimestamp.None? && !isLoading && hasMore && shouldAutoScroll
      ensures !initialLoaded
    {
      this.userId := userId;
      this.cache := cache;
      messages := [];
      lastTimestamp := None;
      isLoading := false;
      hasMore := true;
      shouldAutoScroll := true;
      initialLoaded := false;
    }

    function State(): View
      reads this
    {
      View(messages, lastTimestamp, hasMore)
    }

    /** Whether loadMoreMessages goes past its guard. */
    predicate CanLoadMore()
      reads this
    {
      userId.Some? && !isLoading && lastTimestamp.Some? && lastTimestamp.value != 0
    }

    /**
     * deduplicateMessages: a Map filled in one pass, keeping the first
     * message of each id, whose values (in insertion order) are then
     * sorted by creation time.
     */
    method DeduplicateMessages(s: seq<Message>) returns (r: seq<Message>)
      ensures r == Deduplicated(s)
    {
      var seen: map<string, Message> := map[];
      var inOrder: seq<Message> := [];   // seen.values(), in insertion order
      var i := 0;
      while i < |s|
        invariant i <= |s|
        invariant inOrder == FirstOccurrences(s[..i])
        invariant seen.Keys == Ids(s[..i])
        invariant Tracks(seen, inOrder)
      {
        var message := s[i];
        FirstOccurrencesStep(s, i);
        if message.id !in seen {
          SeenStep(seen, inOrder, message);
          seen := seen[message.id := message];
          inOrder := inOrder + [message];
        }
        i := i + 1;
      }
      assert s[..i] == s;
      r := SortByTime(inOrder);
    }

    /**
     * loadInitialMessages, as written. Its effect runs at mount with a
     * signed-in user and again whenever `scrollToBottom` is re-created,
     * that is whenever `shouldAutoScroll` changes (see
     * InitialReloadKeepsOnlyThePages).
     */
    method LoadInitialMessages(fetched: Option<seq<Message>>)
      modifies this, cache
      ensures userId.None? ==> State() == old(State()) && cache.store == old(cache.store)
      ensures userId.Some? ==>
        State() == AfterInitialLoad(old(State()), old(cache.GetMessages(userId.value, Some(PageSize), None)), fetched)
      ensures userId.Some? && fetched.Some? && |fetched.value| > 0 ==>
        cache.store == old(cache.store)[userId.value := SortByTime(fetched.value)]
      ensures userId.Some? && (fetched.None? || |fetched.value| == 0) ==> cache.store == old(cache.store)
      ensures isLoading == old(isLoading) && shouldAutoScroll == old(shouldAutoScroll)
    {
      if userId.None? {
        return;
      }
      var u := userId.value;
      var cachedMessages := cache.GetMessages(u, Some(PageSize), None);
      TakeCachedPage(cachedMessages);
      if fetched.Some? && |fetched.value| > 0 {
        var initialMessages := fetched.value;
        MergeNewerPage(initialMessages);
        cache.SaveMessages(u, initialMessages);
      }
    }

    /**
     * The initial load as a mount-only effect: the first call loads, later
     * calls (a dependency of the effect changing) leave the page and the
     * cache as they are, so pages loaded since are kept.
     */
    method InitialLoadEffect(fetched: Option<seq<Message>>)
      modifies this, cache
      ensures initialLoaded
      ensures old(initialLoaded) ==> State() == old(State()) && cache.store == old(cache.store)
      ensures !old(initialLoaded) && userId.Some? ==>
        State() == AfterInitialLoad(old(State()), old(cache.GetMessages(userId.value, Some(PageSize), None)), fetched)
      ensures !old(initialLoaded) && userId.None? ==> State() == old(State()) && cache.store == old(cache.store)
      ensures !old(initialLoaded) && userId.Some? ==>
        cache.store == if fetched.Some? && |fetched.value| > 0 then old(cache.store)[userId.value := SortByTime(fetched.value)]
                       else old(cache.store)
      ensures isLoading == old(isLoading) && shouldAutoScroll == old(shouldAutoScroll)
    {
      if initialLoaded {
        return;
      }
      LoadInitialMessages(fetched);
      initialLoaded := true;
    }

    /** The initial load's cache step: a non-empty cached page replaces the list and sets the cursor. */
    method TakeCachedPage(cachedMessages: seq<Message>)
      modifies this
      ensures State() == WithCachedPage(old(State()), cachedMessages)
      ensures isLoading == old(isLoading) && shouldAutoScroll == old(shouldAutoScroll)
    {
      if |cachedMessages| > 0 {
        messages := cachedMessages;
        lastTimestamp := Some(LastCreatedAt(cachedMessages));
      }
    }

    /** The initial load's remote step, for a non-empty page: merged in after the list. */
    method MergeNewerPage(initialMessages: seq<Message>)
      requires |initialMessages| > 0
      modifies this
      ensures State() == View(Deduplicated(old(messages) + initialMessages), Some(LastCreatedAt(initialMessages)),
                              |initialMessages| == PageSize)
      ensures isLoading == old(isLoading) && shouldAutoScroll == old(shouldAutoScroll)
    {
      messages := DeduplicateMessages(messages + initialMessages);
      lastTimestamp := Some(LastCreatedAt(initialMessages));
      hasMore := |initialMessages| == PageSize;
    }

    /**
     * The synchronous start of loadMoreMessages: its guard, then
     * `isLoading`. The request it returns carries the cursor as it was at
     * the call, which the rest of the load uses for both of its queries.
     */
    method StartLoadMore() returns (request: Option<ChatRoute.HistoryQuery>)
      modifies this
      ensures request.Some? <==> old(CanLoadMore())
      ensures request.Some? ==> request.value == ChatRoute.HistoryQuery(Some(PageSize), old(lastTimestamp))
      ensures isLoading == (old(isLoading) || request.Some?)
      ensures State() == old(State()) && shouldAutoScroll == old(shouldAutoScroll)
    {
      if !CanLoadMore() {
        return None;
      }
      isLoading := true;
      request := Some(ChatRoute.HistoryQuery(Some(PageSize), lastTimestamp));
    }

    /**
     * The rest of loadMoreMessages, once the remote answer is in: the
     * cached older page, then the remote one (merged and written back to
     * the cache), and in every case `isLoading` cleared.
     */
    method FinishLoadMore(request: ChatRoute.HistoryQuery, response: Option<seq<Message>>)
      requires userId.Some?
      modifies this, cache
      ensures State() == AfterLoadMore(old(State()),
        old(cache.GetMessages(userId.value, Some(PageSize), request.lastTimestamp)), response)
      ensures response.Some? && |response.value| > 0 ==> cache.store == old(cache.store)[userId.value := messages]
      ensures response.None? || |response.value| == 0 ==> cache.store == old(cache.store)
      ensures !isLoading && shouldAutoScroll == old(shouldAutoScroll)
    {
      var cachedOlderMessages := cache.GetMessages(userId.value, Some(PageSize), request.lastTimestamp);
      MergeCachedOlderPage(cachedOlderMessages);
      TakeOlderResponse(response);
      isLoading := false;
    }

    /** The older load's remote step: the answer merged in front and written back to the cache. */
    method TakeOlderResponse(response: Option<seq<Message>>)
      requires userId.Some?
      modifies this, cache
      ensures State() == WithOlderResponse(old(State()), response)
      ensures response.Some? && |response.value| > 0 ==> cache.store == old(cache.store)[userId.value := messages]
      ensures response.None? || |response.value| == 0 ==> cache.store == old(cache.store)
      ensures isLoading == old(isLoading) && shouldAutoScroll == old(shouldAutoScroll)
    {
      if response.Some? {
        var olderMessages := response.value;
        if |olderMessages| > 0 {
          MergeOlderPage(olderMessages);
          SortOfSorted(messages);
          cache.SaveMessages(userId.value, messages);
        } else {
          hasMore := false;
        }
      }
    }

    /** The older load's cache step: a non-empty cached older page is merged in front and moves the cursor. */
    method MergeCachedOlderPage(cachedOlderMessages: seq<Message>)
      modifies this
      ensures State() == WithCachedOlderPage(old(State()), cachedOlderMessages)
      ensures isLoading == old(isLoading) && shouldAutoScroll == old(shouldAutoScroll)
    {
      if |cachedOlderMessages| > 0 {
        messages := DeduplicateMessages(cachedOlderMessages + messages);
        lastTimestamp := Some(LastCreatedAt(cachedOlderMessages));
      }
    }

    /** The older load's remote step, for a non-empty page: merged in front of the list. */
    method MergeOlderPage(olderMessages: seq<Message>)
      requires |olderMessages| > 0
      modifies this
      ensures State() == View(Deduplicated(olderMessages + old(messages)), Some(LastCreatedAt(olderMessages)),
                              |olderMessages| == PageSize)
      ensures isLoading == old(isLoading) && shouldAutoScroll == old(shouldAutoScroll)
    {
      var dedupedMessages := DeduplicateMessages(olderMessages + messages);
      messages := dedupedMessages;
      hasMore := |olderMessages| == PageSize;
      lastTimestamp := Some(LastCreatedAt(olderMessages));
    }

    /** loadMoreMessages as one step, with `server` answering the request it sends. */
    method LoadMoreMessages(server: ChatRoute.HistoryQuery -> Option<seq<Message>>)
      modifies this, cache
      ensures !old(CanLoadMore()) ==>
        State() == old(State()) && isLoading == old(isLoading) && cache.store == old(cache.store)
      ensures old(CanLoadMore()) ==>
        var cursor := old(lastTimestamp);
        var response := server(ChatRoute.HistoryQuery(Some(PageSize), cursor));
        && !isLoading
        && State() == AfterLoadMore(old(State()), old(cache.GetMessages(userId.value, Some(PageSize), cursor)), response)
        && cache.store == if response.Some? && |response.value| > 0 then old(cache.store)[userId.value := messages]
                          else old(cache.store)
      ensures shouldAutoScroll == old(shouldAutoScroll)
    {
      var request := StartLoadMore();
      if request.Some? {
        FinishLoadMore(request.value, server(request.value));
      }
    }

    /**
     * handleScroll: nothing while loading or with no more history;
     * otherwise start a load when within 100 pixels of the top, and keep
     * auto-scroll on exactly when within 100 pixels of the bottom. The
     * returned request is the load started, if any.
     */
    method HandleScroll(scrollTop: int, scrollHeight: int, clientHeight: int)
      returns (request: Option<ChatRoute.HistoryQuery>)
      modifies this
      ensures old(isLoading) || !old(hasMore) ==> request.None? && shouldAutoScroll == old(shouldAutoScroll)
      ensures !old(isLoading) && old(hasMore) ==>
        shouldAutoScroll == (scrollHeight - (scrollTop + clientHeight) < ScrollThreshold)
      ensures request.Some? <==> old(hasMore) && scrollTop < ScrollThreshold && old(CanLoadMore())
      ensures request.Some? ==> request.value == ChatRoute.HistoryQuery(Some(PageSize), old(lastTimestamp))
      ensures isLoading == (old(isLoading) || request.Some?)
      ensures State() == old(State())
    {
      if isLoading || !hasMore {
        return None;
      }
      var distanceFromBottom := scrollHeight - (scrollTop + clientHeight);
      request := None;
      if scrollTop < ScrollThreshold {
        request := StartLoadMore();
      }
      shouldAutoScroll := distanceFromBottom < ScrollThreshold;
    }

    /** The chat SDK's onFinish: the displayed list is written to the cache. */
    method OnFinish()
      modifies cache
      ensures userId.Some? ==> cache.store == old(cache.store)[userId.value := SortByTime(messages)]
      ensures userId.None? ==> cache.store == old(cache.store)
    {
      if userId.Some? {
        cache.SaveMessages(userId.value, messages);
      }
    }

    /** The render `reduce` over the displayed list. */
    method Render() returns (items: seq<RenderItem>)
      ensures items == Layout(messages)
    {
      items := [];
      var i := 0;
      while i < |messages|
        invariant i <= |messages|
        invariant items == Layout(messages[..i])
      {
        var message := messages[i];
        var prefix := messages[..i + 1];
        assert prefix[..i] == messages[..i];
        if i == 0 || DayKey(message.createdAt) != DayKey(messages[i - 1].createdAt) {
          items := items + [Divider(message.createdAt)];
        }
        items := items + [Item(message)];
        i := i + 1;
      }
      assert messages[..i] == messages;
    }
  }
}
