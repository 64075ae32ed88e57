/** The interaction toggles of composables/masto/status.ts: boosting,
    favouriting, bookmarking, pinning and muting a status, with the
    optimistic local update, the reconciliation with the server's answer,
    and the rule for who may boost a status. */
module StatusActions {
  import opened Optional
  import opened Mastodon
  import opened CacheStore

  /** The boolean attribute a toggle flips. */
  datatype Action = Reblogged | Favourited | Bookmarked | Pinned | Muted

  /** The counter that goes with `Reblogged` and `Favourited`. */
  datatype CountField = ReblogsCount | FavouritesCount

  // ---------------------------------------------------------------------------
  // The part of a status the toggles touch
  // ---------------------------------------------------------------------------

  /** The two counters a toggle may move. */
  datatype Counts = Counts(reblogs: int, favourites: int)

  /** The five flags, the status's counters and, when the status is a boost,
      the boosted status's counters. */
  datatype Interaction = Interaction(
    reblogged: bool,
    favourited: bool,
    bookmarked: bool,
    pinned: bool,
    muted: bool,
    counts: Counts,
    boosted: Option<Counts>)

  function CountsOf(st: Status): Counts {
    Counts(st.reblogsCount, st.favouritesCount)
  }

  /** What the toggles see of a status. */
  function InteractionOf(st: Status): (i: Interaction)
    ensures i.boosted.Some? <==> st.reblog.Some?
  {
    Interaction(st.reblogged, st.favourited, st.bookmarked, st.pinned, st.muted, CountsOf(st),
                if st.reblog.Some? then Some(CountsOf(st.reblog.value)) else None)
  }

  /** `i` can be written back into `st`: both or neither are boosts. */
  predicate Fits(st: Status, i: Interaction) {
    i.boosted.Some? == st.reblog.Some?
  }

  /** `st` with its flags and counters (and its boosted status's counters)
      replaced by those of `i`; every other attribute is kept. */
  function WithInteraction(st: Status, i: Interaction): (r: Status)
    requires Fits(st, i)
    ensures r.id == st.id && r.account == st.account && r.visibility == st.visibility
    ensures r.reblog.Some? <==> st.reblog.Some?
  {
    var reblog := if st.reblog.Some? then
      Some(st.reblog.value.(reblogsCount := i.boosted.value.reblogs, favouritesCount := i.boosted.value.favourites))
    else None;
    st.(reblogged := i.reblogged, favourited := i.favourited, bookmarked := i.bookmarked, pinned := i.pinned,
        muted := i.muted, reblogsCount := i.counts.reblogs, favouritesCount := i.counts.favourites, reblog := reblog)
  }

  /** Reading back what was written gives what was written. */
  lemma ReadWritten(st: Status, i: Interaction)
    requires Fits(st, i)
    ensures InteractionOf(WithInteraction(st, i)) == i
  {
  }

  /** Writing back what was read changes nothing. */
  lemma WriteRead(st: Status)
    ensures WithInteraction(st, InteractionOf(st)) == st
  {
  }

  /** The second of two writes is the one that counts. */
  lemma WriteTwice(st: Status, i: Interaction, j: Interaction)
    requires Fits(st, i) && Fits(st, j)
    ensures WithInteraction(WithInteraction(st, i), j) == WithInteraction(st, j)
  {
  }

  /** `status[action]`. */
  function Flag(i: Interaction, a: Action): bool {
    match a
    case Reblogged => i.reblogged
    case Favourited => i.favourited
    case Bookmarked => i.bookmarked
    case Pinned => i.pinned
    case Muted => i.muted
  }

  /** `status[action] = v`. */
  function SetFlag(i: Interaction, a: Action, v: bool): (r: Interaction)
    ensures Flag(r, a) == v
    ensures forall b :: b != a ==> Flag(r, b) == Flag(i, b)
    ensures r.counts == i.counts && r.boosted == i.boosted
  {
    match a
    case Reblogged => i.(reblogged := v)
    case Favourited => i.(favourited := v)
    case Bookmarked => i.(bookmarked := v)
    case Pinned => i.(pinned := v)
    case Muted => i.(muted := v)
  }

  /** `status[countField]`. */
  function Count(c: Counts, g: CountField): int {
    match g
    case ReblogsCount => c.reblogs
    case FavouritesCount => c.favourites
  }

  /** `status[countField] = n`. */
  function SetCount(c: Counts, g: CountField, n: int): (r: Counts)
    ensures Count(r, g) == n
    ensures forall h :: h != g ==> Count(r, h) == Count(c, h)
  {
    match g
    case ReblogsCount => c.(reblogs := n)
    case FavouritesCount => c.(favourites := n)
  }

  /** The counter `g` becomes `n` in the status and, when it is a boost, in
      the boosted status too. */
  function Mirror(i: Interaction, g: CountField, n: int): (r: Interaction)
    ensures Count(r.counts, g) == n
    ensures r.boosted.Some? <==> i.boosted.Some?
    ensures r.boosted.Some? ==> Count(r.boosted.value, g) == n
    ensures forall h :: h != g ==> Count(r.counts, h) == Count(i.counts, h)
    ensures forall a :: Flag(r, a) == Flag(i, a)
  {
    i.(counts := SetCount(i.counts, g, n),
       boosted := if i.boosted.Some? then Some(SetCount(i.boosted.value, g, n)) else None)
  }

  // ---------------------------------------------------------------------------
  // The optimistic update
  // ---------------------------------------------------------------------------

  /** Lines 110-115 on the toggled attributes: the flag flips; with a
      counter, the counter moves by one in the flag's new direction and the
      boosted status copies it. Nothing else changes. */
  function Toggle(i: Interaction, a: Action, f: Option<CountField>): (r: Interaction)
    ensures Flag(r, a) == !Flag(i, a)
    ensures forall b :: b != a ==> Flag(r, b) == Flag(i, b)
    ensures f.Some? ==> Count(r.counts, f.value) == Count(i.counts, f.value) + (if Flag(r, a) then 1 else -1)
    ensures f.Some? && r.boosted.Some? ==> Count(r.boosted.value, f.value) == Count(r.counts, f.value)
    ensures forall g :: Some(g) != f ==> Count(r.counts, g) == Count(i.counts, g)
    ensures f.None? ==> r.boosted == i.boosted && r.counts == i.counts
    ensures r.boosted.Some? <==> i.boosted.Some?
  {
    var flipped := SetFlag(i, a, !Flag(i, a));
    match f
    case None => flipped
    case Some(g) => Mirror(flipped, g, Count(i.counts, g) + (if Flag(flipped, a) then 1 else -1))
  }

  /** A boosted status's counter agrees with the status's own; every toggle
      with a counter leaves them agreeing. */
  predicate Agrees(i: Interaction, f: Option<CountField>) {
    f.Some? && i.boosted.Some? ==> Count(i.boosted.value, f.value) == Count(i.counts, f.value)
  }

  /** Flipping a flag and flipping it back. */
  lemma FlipBack(i: Interaction, a: Action)
    ensures SetFlag(SetFlag(i, a, !Flag(i, a)), a, Flag(i, a)) == i
  {
    match a {
      case Reblogged =>
      case Favourited =>
      case Bookmarked =>
      case Pinned =>
      case Muted =>
    }
  }

  /** Setting a flag and setting a counter do not interfere. */
  lemma FlagAndCounterCommute(i: Interaction, a: Action, v: bool, g: CountField, n: int)
    ensures SetFlag(Mirror(i, g, n), a, v) == Mirror(SetFlag(i, a, v), g, n)
  {
    match a {
      case Reblogged =>
      case Favourited =>
      case Bookmarked =>
      case Pinned =>
      case Muted =>
    }
  }

  /** Of two settings of the same counter the second counts; setting it to
      the value it already has, everywhere, changes nothing. */
  lemma MirrorTwice(i: Interaction, g: CountField, n: int, m: int)
    requires Agrees(i, Some(g))
    ensures Mirror(Mirror(i, g, n), g, m) == Mirror(i, g, m)
    ensures Mirror(i, g, Count(i.counts, g)) == i
  {
    match g {
      case ReblogsCount =>
      case FavouritesCount =>
    }
  }

  /** Toggling twice restores the toggled attributes, as long as the boosted
      status's counter agreed with the status's own before. */
  lemma ToggleTwice(i: Interaction, a: Action, f: Option<CountField>)
    requires Agrees(i, f)
    ensures Toggle(Toggle(i, a, f), a, f) == i
  {
    var x := Flag(i, a);
    var flipped := SetFlag(i, a, !x);
    FlipBack(i, a);
    match f {
      case None =>
      case Some(g) =>
        var n := Count(i.counts, g) + (if x then -1 else 1);
        var once := Mirror(flipped, g, n);
        assert Toggle(i, a, f) == once;
        FlagAndCounterCommute(flipped, a, x, g, n);
        MirrorTwice(i, g, n, Count(i.counts, g));
        assert Toggle(once, a, f) == Mirror(Mirror(i, g, n), g, Count(i.counts, g));
    }
  }

  /** toggleStatusAction's optimistic update of the shown status. */
  function Optimistic(st: Status, a: Action, f: Option<CountField>): (r: Status)
    ensures InteractionOf(r) == Toggle(InteractionOf(st), a, f)
    ensures WithInteraction(r, InteractionOf(st)) == st
  {
    ReadWritten(st, Toggle(InteractionOf(st), a, f));
    WriteTwice(st, Toggle(InteractionOf(st), a, f), InteractionOf(st));
    WriteRead(st);
    WithInteraction(st, Toggle(InteractionOf(st), a, f))
  }

  /** Toggling a status twice gives the status back. */
  lemma ToggleTwiceRestores(st: Status, a: Action, f: Option<CountField>)
    requires Agrees(InteractionOf(st), f)
    ensures Optimistic(Optimistic(st, a, f), a, f) == st
  {
    var once := Optimistic(st, a, f);
    ToggleTwice(InteractionOf(st), a, f);
    WriteTwice(st, Toggle(InteractionOf(st), a, f), InteractionOf(st));
    WriteRead(st);
  }

  // ---------------------------------------------------------------------------
  // Reconciliation with the server's answer
  // ---------------------------------------------------------------------------

  /** Lines 88-96 on the toggled attributes. `prev` is `prevCount() ?? 0`,
      read when the answer arrives, so after the optimistic update. On a
      cancel whose server counter equals `prev`, the counter is lowered by
      one and the answer is not cached; otherwise, with a counter, it is set
      to `prev + 1` in the status and its boosted status, and the answer is
      cached. The flags are the server's. */
  function Settle(i: Interaction, isCancel: bool, f: Option<CountField>, prev: int): (r: (Interaction, bool))
    ensures forall b :: Flag(r.0, b) == Flag(i, b)
    ensures r.0.boosted.Some? <==> i.boosted.Some?
    ensures f.None? ==> r == (i, true)
    ensures f.Some? && isCancel && prev == Count(i.counts, f.value) ==>
      && !r.1 && Count(r.0.counts, f.value) == prev - 1 && r.0.boosted == i.boosted
    ensures f.Some? && !(isCancel && prev == Count(i.counts, f.value)) ==>
      && r.1 && Count(r.0.counts, f.value) == prev + 1
      && (r.0.boosted.Some? ==> Count(r.0.boosted.value, f.value) == prev + 1)
    ensures forall g :: Some(g) != f ==> Count(r.0.counts, g) == Count(i.counts, g)
  {
    if f.None? then (i, true)
    else if isCancel && prev == Count(i.counts, f.value) then
      (i.(counts := SetCount(i.counts, f.value, Count(i.counts, f.value) - 1)), false)
    else
      (Mirror(i, f.value, prev + 1), true)
  }

  /** The answer after the corrections of lines 88-96, and whether it is
      handed to `cacheStatus`. */
  datatype Settlement = Settlement(status: Status, cached: bool)

  /** The server's answer with its toggled attributes settled; nothing else
      of the answer changes. */
  function Reconciled(answer: Status, isCancel: bool, f: Option<CountField>, prev: int): (r: Settlement)
    ensures var s := Settle(InteractionOf(answer), isCancel, f, prev);
      InteractionOf(r.status) == s.0 && r.cached == s.1
    ensures WithInteraction(r.status, InteractionOf(answer)) == answer
  {
    var s := Settle(InteractionOf(answer), isCancel, f, prev);
    ReadWritten(answer, s.0);
    WriteTwice(answer, s.0, InteractionOf(answer));
    WriteRead(answer);
    Settlement(WithInteraction(answer, s.0), s.1)
  }

  /** Favouriting a status with `n` favourites: the optimistic copy shows
      `n + 1`, and when the server answers with `n + 1` as well, the status
      handed to the cache shows `n + 2`, because the count read back is the
      optimistic one. */
  lemma FavouriteCountedTwice(st: Status, answer: Status)
    requires !st.favourited && answer.favouritesCount == st.favouritesCount + 1
    ensures var local := Optimistic(st, Favourited, Some(FavouritesCount));
      var settled := Reconciled(answer, st.favourited, Some(FavouritesCount), local.favouritesCount);
      && local.favouritesCount == st.favouritesCount + 1
      && settled.cached && settled.status.favouritesCount == st.favouritesCount + 2
  {
    var local := Optimistic(st, Favourited, Some(FavouritesCount));
    assert local.favouritesCount == Count(InteractionOf(local).counts, FavouritesCount);
    var settled := Reconciled(answer, st.favourited, Some(FavouritesCount), local.favouritesCount);
    assert settled.status.favouritesCount == Count(CountsOf(settled.status), FavouritesCount);
  }

  // ---------------------------------------------------------------------------
  // Who may boost
  // ---------------------------------------------------------------------------

  /** canReblog: not a direct message, and a followers-only status only by
      its author. `me` is the signed-in user's account id. */
  predicate CanReblog(st: Status, me: Option<string>) {
    st.visibility != Direct && (st.visibility != Private || Some(st.account.id) == me)
  }

  /** The rule visibility by visibility. */
  lemma CanReblogByVisibility(st: Status, me: Option<string>)
    ensures st.visibility == Public || st.visibility == Unlisted ==> CanReblog(st, me)
    ensures st.visibility == Direct ==> !CanReblog(st, me)
    ensures st.visibility == Private ==> (CanReblog(st, me) <==> me == Some(st.account.id))
  {
  }

  // ---------------------------------------------------------------------------
  // The cache key of the toggles
  // ---------------------------------------------------------------------------

  /** The text of a boolean inside a template literal. */
  function BoolText(flag: bool): string {
    if flag then "true" else "false"
  }

  /** Lines 97, 100 and 116 as written call `cacheStatus(status, flag)`, whose
      second parameter is the server: the key is built from `true` or
      `false` in place of the server name, and `override` keeps its default,
      `false`. */
  function PositionalSession(s: Session, flag: bool): (r: Session)
    ensures r.userId == s.userId
    ensures r.server == BoolText(flag)
  {
    Session(BoolText(flag), s.userId)
  }

  /** Keys with different server names never meet. */
  lemma ServersApart(a: string, b: string, x: string, y: string)
    requires NoColon(a) && NoColon(b) && a != b
    ensures a + ":" + x != b + ":" + y
  {
    FirstColon(a, x);
    FirstColon(b, y);
    assert (a + ":" + x)[..|a|] == a;
    assert (b + ":" + y)[..|b|] == b;
  }

  /** As written, the toggled status is cached under a key that no status
      lookup of the signed-in session reads. */
  lemma PositionalKeyNeverRead(s: Session, flag: bool, id: string, other: string)
    requires ValidSession(s) && s.server != BoolText(flag)
    ensures StatusIdKey(PositionalSession(s, flag), id) != StatusIdKey(s, other)
  {
    var p := PositionalSession(s, flag);
    assert NoColon(BoolText(flag));
    assert StatusIdKey(p, id) == BoolText(flag) + ":" + (UserText(p) + ":status:" + id);
    assert StatusIdKey(s, other) == s.server + ":" + (UserText(s) + ":status:" + other);
    ServersApart(BoolText(flag), s.server, UserText(p) + ":status:" + id, UserText(s) + ":status:" + other);
  }

  /** The optimistic copy, cached without override, never replaces the
      entry a status already has. */
  lemma OptimisticCopyKeepsEntry(m: map<string, Entry>, s: Session, st: Status)
    requires StatusIdKey(s, st.id) in m
    ensures Written(m, StatusIdKey(s, st.id), Resolved(StatusValue(st)), false) == m
  {
  }

  // ---------------------------------------------------------------------------
  // The composable's state
  // ---------------------------------------------------------------------------

  /** useStatusActions: `status` is the status shown, `snapshot` is
      `_status`, the status the component received, and `cache` the status
      cache the toggles write to. */
  class StatusView {
    var status: Status
    var snapshot: Status
    /** Whether `status` and `_status` are the same object. A settled
        action assigns `_status` to `status` (line 103), and from then on
        the optimistic writes of lines 110-115 reach the snapshot too. */
    var shared: bool
    const cache: ResolutionCache

    /** Lines 13-14 and the immediate watcher of line 21: `status` is a
        copy of the component's status and `_status` the status itself, two
        objects with one value. */
    constructor(props: Status, cache: ResolutionCache)
      ensures status == props && snapshot == props && !shared && this.cache == cache
    {
      status := props;
      snapshot := props;
      shared := false;
      this.cache := cache;
    }

    /** toggleStatusAction up to the request, with the cache call as
        intended, `cacheStatus(status, server, false)`: without a login
        nothing changes; otherwise the optimistic update is applied and
        cached without override. `isCancel` is the flag before the flip.
        Once the two objects are shared, the snapshot takes the same
        writes. */
    method ToggleStatusAction(s: Session, loggedIn: bool, a: Action, f: Option<CountField>)
      returns (isCancel: bool)
      modifies this, cache
      ensures !loggedIn ==> status == old(status) && snapshot == old(snapshot) && cache.entries == old(cache.entries)
      ensures shared == old(shared)
      ensures loggedIn && old(shared) ==> snapshot == status
      ensures !old(shared) ==> snapshot == old(snapshot)
      ensures loggedIn ==> isCancel == Flag(InteractionOf(old(status)), a)
      ensures loggedIn ==> status == Optimistic(old(status), a, f)
      ensures loggedIn ==>
        cache.entries == Written(old(cache.entries), StatusIdKey(s, status.id), Resolved(StatusValue(status)), false)
    {
      if !loggedIn {
        return false;
      }
      isCancel := Flag(InteractionOf(status), a);
      status := Optimistic(status, a, f);
      if shared {
        snapshot := status;
      }
      cache.CacheStatus(s, status, false);
    }

    /** The answer to the request: `None` when it is rejected, which leaves
        the status as it is. Otherwise the answer is reconciled against the
        current counter and, unless it was lowered, cached with override as
        intended; `cacheStatus` returns nothing, so the status shown becomes
        `cachedPost ?? _status`: the snapshot object itself, which the two
        names share from then on. */
    method SettleToggle(s: Session, f: Option<CountField>, isCancel: bool, answer: Option<Status>)
      modifies this, cache
      ensures snapshot == old(snapshot)
      ensures answer.None? ==> status == old(status) && shared == old(shared) && cache.entries == old(cache.entries)
      ensures answer.Some? ==> status == snapshot && shared
      ensures answer.Some? ==>
        var r := Reconciled(answer.value, isCancel, f, if f.Some? then Count(CountsOf(old(status)), f.value) else 0);
        cache.entries == if r.cached
          then Written(old(cache.entries), StatusIdKey(s, r.status.id), Resolved(StatusValue(r.status)), true)
          else old(cache.entries)
    {
      if answer.None? {
        return;
      }
      var prev := if f.Some? then Count(CountsOf(status), f.value) else 0;
      var r := Reconciled(answer.value, isCancel, f, prev);
      if r.cached {
        cache.CacheStatus(s, r.status, true);
      }
      status := snapshot;
      shared := true;
    }
  }
}
