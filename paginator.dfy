/** The buffering of composables/paginator.ts: the list shown (`items`),
    the page tail held back (`nextItems`), the streamed statuses waiting
    behind the "show new items" banner (`prevItems`) and the raw stream
    queue (`queuedItems`), with the loading state machine.

    The shown items are statuses: the stream handlers treat them as
    `mastodon.v1.Status`. `preprocess` and the two discovery predicates
    `isProcessableItem` and `isCacheable` are parameters of the paginator. */
module Paginator {
  import opened Optional
  import opened Mastodon
  import opened CacheStore

  /** PaginatorState. */
  datatype PaginatorState = Idle | Loading | Done | Error

  /** What `await paginator.next()` gives: a page (`done` and `value` of the
      iterator result), or the error it throws. */
  datatype Next = Page(done: bool, value: seq<Status>) | Thrown(error: string)

  // ---------------------------------------------------------------------------
  // Looking items up by id
  // ---------------------------------------------------------------------------

  /** `s.findIndex(i => i.id === id)`: the first position holding `id`, or -1. */
  function FindId(s: seq<Status>, id: string): (r: int)
    ensures -1 <= r < |s|
    ensures r == -1 <==> forall i :: 0 <= i < |s| ==> s[i].id != id
    ensures r >= 0 ==> s[r].id == id && forall j :: 0 <= j < r ==> s[j].id != id
  {
    if |s| == 0 then -1
    else if s[0].id == id then 0
    else
      var k := FindId(s[1..], id);
      if k < 0 then -1 else k + 1
  }

  /** No id occurs twice. */
  predicate UniqueIds(s: seq<Status>) {
    forall i, j :: 0 <= i < j < |s| ==> s[i].id != s[j].id
  }

  /** The `findIndex` / `splice(index, 1)` pair: the first item holding
      `id` is taken out, and nothing happens when there is none. */
  function WithoutId(s: seq<Status>, id: string): (r: seq<Status>)
    ensures FindId(s, id) == -1 ==> r == s
    ensures FindId(s, id) >= 0 ==>
      |r| == |s| - 1 && multiset(r) + multiset{s[FindId(s, id)]} == multiset(s)
  {
    var k := FindId(s, id);
    if k < 0 then s
    else
      assert s == s[..k] + [s[k]] + s[k + 1..];
      s[..k] + s[k + 1..]
  }

  /** Taking out an id from a list without repeated ids leaves a list
      without repeated ids in which that id no longer occurs. */
  lemma WithoutIdUnique(s: seq<Status>, id: string)
    requires UniqueIds(s)
    ensures UniqueIds(WithoutId(s, id))
    ensures forall i :: 0 <= i < |WithoutId(s, id)| ==> WithoutId(s, id)[i].id != id
  {
    var k := FindId(s, id);
    var r := WithoutId(s, id);
    if k >= 0 {
      assert forall i :: 0 <= i < |r| ==> r[i] == if i < k then s[i] else s[i + 1];
      forall i, j | 0 <= i < j < |r|
        ensures r[i].id != r[j].id
      {
        assert r[i] == s[if i < k then i else i + 1];
        assert r[j] == s[if j < k then j else j + 1];
      }
      forall i | 0 <= i < |r|
        ensures r[i].id != id
      {
        assert r[i] == s[if i < k then i else i + 1];
      }
    }
  }

  /** The queue after an `update` event: any earlier copy of the status is
      dropped and the status goes to the front. */
  function Enqueued(q: seq<Status>, ev: Status): (r: seq<Status>)
    ensures |r| >= 1 && r[0] == ev && r[1..] == WithoutId(q, ev.id)
    ensures FindId(q, ev.id) == -1 ==> |r| == |q| + 1
    ensures FindId(q, ev.id) >= 0 ==> |r| == |q|
  {
    [ev] + WithoutId(q, ev.id)
  }

  /** An `update` event keeps the queue free of repeated statuses. */
  lemma EnqueuedUnique(q: seq<Status>, ev: Status)
    requires UniqueIds(q)
    ensures UniqueIds(Enqueued(q, ev))
  {
    WithoutIdUnique(q, ev.id);
    var rest := WithoutId(q, ev.id);
    var r := Enqueued(q, ev);
    assert r[1..] == rest;
    forall i, j | 0 <= i < j < |r|
      ensures r[i].id != r[j].id
    {
      assert r[j] == rest[j - 1];
      if i > 0 {
        assert r[i] == rest[i - 1];
      }
    }
  }

  // ---------------------------------------------------------------------------
  // The page split and the queue watcher
  // ---------------------------------------------------------------------------

  /** Lines 164-168: how many of the preprocessed items are shown; the rest
      stay in `nextItems`. Up to `buffer` items are all shown; beyond that,
      the last `buffer` are held back. */
  function Split(pre: seq<Status>, buffer: nat): (r: (seq<Status>, seq<Status>))
    ensures r.0 + r.1 == pre
    ensures |pre| <= buffer ==> r.0 == pre && r.1 == []
    ensures |pre| > buffer ==> |r.1| == buffer
  {
    var shown := if |pre| <= buffer then |pre| else |pre| - buffer;
    assert pre == pre[..shown] + pre[shown..];
    (pre[..shown], pre[shown..])
  }

  /** Lines 120-147: the queue and the waiting list after the watcher, where
      `pre` is `preprocess(queue)`. */
  function Drained(queue: seq<Status>, waiting: seq<Status>, buffer: nat, pre: seq<Status>): (r: (seq<Status>, seq<Status>))
    ensures buffer > 0 && |queue| < buffer ==> r == (queue, waiting)
    ensures buffer == 0 && |pre| == 0 ==> r == (queue, waiting)
    ensures buffer > 0 && |queue| >= buffer && |pre| == 0 ==> r == ([], waiting)
    ensures (buffer == 0 || |queue| >= buffer) && |pre| > 0 ==> r == ([], pre + waiting)
  {
    if buffer > 0 && |queue| < buffer then (queue, waiting)
    else if buffer == 0 && |pre| == 0 then (queue, waiting)
    else if buffer > 0 && |queue| >= buffer && |pre| == 0 then ([], waiting)
    else ([], pre + waiting)
  }

  /** With a positive buffer, the watcher leaves fewer than `buffer` statuses
      in the queue; with none, it leaves the queue empty unless
      preprocessing kept nothing. */
  lemma DrainedQueueShort(queue: seq<Status>, waiting: seq<Status>, buffer: nat, pre: seq<Status>)
    ensures buffer > 0 ==> |Drained(queue, waiting, buffer, pre).0| < buffer
    ensures buffer == 0 && |pre| > 0 ==> Drained(queue, waiting, buffer, pre).0 == []
  {
  }

  /** Every status a drain takes off the queue lands in the waiting list
      when preprocessing keeps everything; nothing waiting is lost. */
  lemma DrainedKeepsEverything(queue: seq<Status>, waiting: seq<Status>, buffer: nat)
    ensures var r := Drained(queue, waiting, buffer, queue);
      multiset(r.0) + multiset(r.1) == multiset(queue) + multiset(waiting)
  {
  }

  // ---------------------------------------------------------------------------
  // The status.update handler
  // ---------------------------------------------------------------------------

  /** Lines 91-99 as written: `await cacheStatus(aStatus)` is `undefined`,
      because cacheStatus returns nothing, so for a cacheable status the
      search callback reads `undefined.id` and throws (`None`) as soon as
      there is an item to compare. Otherwise the first item with the same id
      is replaced. */
  function StatusUpdateAsWritten(items: seq<Status>, st: Status, processable: bool, cacheable: bool): (r: Option<seq<Status>>)
    ensures r.None? <==> processable && cacheable && |items| > 0
  {
    if !processable then Some(items)
    else if cacheable then (if |items| > 0 then None else Some(items))
    else Some(Replaced(items, st))
  }

  /** The first item with the status's id becomes the status. */
  function Replaced(items: seq<Status>, st: Status): (r: seq<Status>)
    ensures |r| == |items|
    ensures FindId(items, st.id) >= 0 ==> r[FindId(items, st.id)] == st
    ensures forall i :: 0 <= i < |items| && i != FindId(items, st.id) ==> r[i] == items[i]
  {
    var k := FindId(items, st.id);
    if k >= 0 then items[k := st] else items
  }

  /** An edit of a shown, cacheable status is lost as written: the handler
      throws before the shown copy is replaced. */
  lemma EditOfShownStatusLost(items: seq<Status>, st: Status)
    requires FindId(items, st.id) >= 0
    ensures StatusUpdateAsWritten(items, st, true, true).None?
    ensures Replaced(items, st)[FindId(items, st.id)] == st
  {
  }

  // ---------------------------------------------------------------------------
  // The paginator
  // ---------------------------------------------------------------------------

  /** usePaginator. `notifications` is `eventType === 'notification'`. */
  class Buffered {
    var state: PaginatorState
    var items: seq<Status>
    var nextItems: seq<Status>
    var prevItems: seq<Status>
    var queuedItems: seq<Status>
    var error: Option<string>
    const buffer: nat
    const notifications: bool
    const preprocess: seq<Status> -> seq<Status>
    const processable: Status -> bool
    const cacheable: Status -> bool
    const cache: ResolutionCache

    /** Lines 18-22: idle once hydrated, loading before; all lists empty.
        The returned object's `resume: loadNext()` (line 227) then starts
        the first page, so the paginator is loading either way: a hydrated
        one starts the request, an unhydrated one is already loading. */
    constructor(hydrated: bool, buffer: nat, notifications: bool, preprocess: seq<Status> -> seq<Status>,
                processable: Status -> bool, cacheable: Status -> bool, cache: ResolutionCache)
      ensures state == Loading
      ensures items == [] && nextItems == [] && prevItems == [] && queuedItems == [] && error == None
      ensures this.buffer == buffer && this.notifications == notifications && this.preprocess == preprocess
      ensures this.processable == processable && this.cacheable == cacheable && this.cache == cache
    {
      state := if hydrated then Idle else Loading;
      items := [];
      nextItems := [];
      prevItems := [];
      queuedItems := [];
      error := None;
      this.buffer := buffer;
      this.notifications := notifications;
      this.preprocess := preprocess;
      this.processable := processable;
      this.cacheable := cacheable;
      this.cache := cache;
      new;
      var started := StartLoading();
    }

    /** Lines 202-203: hydration makes the paginator idle and then calls
        `loadNext`, which starts a request whatever the state was before. */
    method OnHydrated()
      modifies this
      ensures state == Loading
      ensures items == old(items) && nextItems == old(nextItems) && prevItems == old(prevItems)
      ensures queuedItems == old(queuedItems) && error == old(error)
    {
      state := Idle;
      var started := StartLoading();
      assert started;
    }

    /** `update`: the waiting statuses go on top of the shown ones, through
        `preprocess` for a notification stream. */
    method Update()
      modifies this
      ensures prevItems == []
      ensures notifications ==> items == preprocess(old(prevItems) + old(items))
      ensures !notifications ==> items == old(prevItems) + old(items)
      ensures state == old(state) && nextItems == old(nextItems) && queuedItems == old(queuedItems)
      ensures error == old(error)
    {
      if notifications {
        items := preprocess(prevItems + items);
        prevItems := [];
        return;
      }
      items := prevItems + items;
      prevItems := [];
    }

    /** The stream's `update` handler: a processable status loses its
        earlier copies in the waiting list and the queue and joins the front
        of the queue. */
    method OnUpdate(ev: Status)
      modifies this
      ensures processable(ev) ==>
        prevItems == WithoutId(old(prevItems), ev.id) && queuedItems == Enqueued(old(queuedItems), ev)
      ensures !processable(ev) ==> prevItems == old(prevItems) && queuedItems == old(queuedItems)
      ensures UniqueIds(old(queuedItems)) ==> UniqueIds(queuedItems)
      ensures state == old(state) && items == old(items) && nextItems == old(nextItems) && error == old(error)
    {
      if processable(ev) {
        if UniqueIds(queuedItems) {
          EnqueuedUnique(queuedItems, ev);
        }
        prevItems := WithoutId(prevItems, ev.id);
        queuedItems := Enqueued(queuedItems, ev);
      }
    }

    /** The stream's `status.update` handler, with the cached status used
        for the replacement as evidently intended. */
    method OnStatusUpdate(s: Session, st: Status)
      modifies this, cache
      ensures processable(st) ==> items == Replaced(old(items), st)
      ensures !processable(st) ==> items == old(items)
      ensures processable(st) && cacheable(st) ==>
        cache.entries == Written(old(cache.entries), StatusIdKey(s, st.id), Resolved(StatusValue(st)), false)
      ensures !(processable(st) && cacheable(st)) ==> cache.entries == old(cache.entries)
      ensures state == old(state) && nextItems == old(nextItems) && prevItems == old(prevItems)
      ensures queuedItems == old(queuedItems) && error == old(error)
    {
      if processable(st) {
        if cacheable(st) {
          cache.CacheStatus(s, st, false);
        }
        var index := FindId(items, st.id);
        if index >= 0 {
          items := items[index := st];
        }
      }
    }

    /** The stream's `delete` handler: the status leaves the cache and the
        first shown item with its id is removed. */
    method OnDelete(s: Session, id: string)
      modifies this, cache
      ensures cache.entries == old(cache.entries) - {StatusIdKey(s, id)}
      ensures items == WithoutId(old(items), id)
      ensures state == old(state) && nextItems == old(nextItems) && prevItems == old(prevItems)
      ensures queuedItems == old(queuedItems) && error == old(error)
    {
      cache.RemoveCachedStatus(s, id);
      var index := FindId(items, id);
      if index >= 0 {
        items := items[..index] + items[index + 1..];
      }
    }

    /** The `queuedItems` watcher. Statuses are objects, so the truthiness
        filter of line 144 keeps every one of them. */
    method ProcessQueue()
      modifies this
      ensures (queuedItems, prevItems) == Drained(old(queuedItems), old(prevItems), buffer, preprocess(old(queuedItems)))
      ensures state == old(state) && items == old(items) && nextItems == old(nextItems) && error == old(error)
    {
      if buffer > 0 && |queuedItems| < buffer {
        return;
      }
      var preprocessed := preprocess(queuedItems);
      if buffer == 0 && |preprocessed| == 0 {
      } else if buffer > 0 && |queuedItems| >= buffer && |preprocessed| == 0 {
        queuedItems := [];
      } else {
        prevItems := preprocessed + prevItems;
        queuedItems := [];
      }
    }

    /** `loadNext` up to the request: only an idle paginator loads, and it
        is loading while the request is out. */
    method StartLoading() returns (started: bool)
      modifies this
      ensures started <==> old(state) == Idle
      ensures state == if started then Loading else old(state)
      ensures items == old(items) && nextItems == old(nextItems) && prevItems == old(prevItems)
      ensures queuedItems == old(queuedItems) && error == old(error)
    {
      if state != Idle {
        return false;
      }
      state := Loading;
      return true;
    }

    /** `loadNext` once the request is answered. A non-empty page joins the
        held-back tail and is split by `Split`; an exhausted paginator shows
        the tail and is done; a thrown error is recorded. */
    method FinishLoading(next: Next)
      modifies this
      ensures next.Page? && !next.done && |next.value| > 0 ==>
        var pre := preprocess(old(nextItems) + next.value);
        && items == old(items) + Split(pre, buffer).0 && nextItems == Split(pre, buffer).1
        && state == Idle && error == old(error)
      ensures next.Page? && (next.done || |next.value| == 0) ==>
        && items == old(items) + preprocess(old(nextItems)) && nextItems == []
        && state == PaginatorState.Done && error == old(error)
      ensures next.Thrown? ==>
        && state == Error && error == Some(next.error)
        && items == old(items) && nextItems == old(nextItems)
      ensures prevItems == old(prevItems) && queuedItems == old(queuedItems)
    {
      match next {
        case Thrown(e) =>
          error := Some(e);
          state := Error;
        case Page(done, value) =>
          if !done && |value| > 0 {
            var preprocessed := preprocess(nextItems + value);
            var split := Split(preprocessed, buffer);
            nextItems := split.1;
            items := items + split.0;
            state := Idle;
          } else {
            var preprocessed := preprocess(nextItems);
            items := items + preprocessed;
            nextItems := [];
            state := PaginatorState.Done;
          }
      }
    }
  }

  /** A page that arrives adds exactly the preprocessed items to what is
      shown and held back together, in order. */
  lemma PageKeepsOrder(items: seq<Status>, pre: seq<Status>, buffer: nat)
    ensures (items + Split(pre, buffer).0) + Split(pre, buffer).1 == items + pre
  {
  }
}
