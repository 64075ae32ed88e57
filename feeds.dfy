/** The feed filters of composables/discovery/feeds.ts: predicates over a
    status, the selection of predicates from a profile of options
    (`makeFeed`), their conjunction (`shouldBeInFeed`) and the filter of a
    list of statuses (`applyFeed`). A feed is a list of transform names;
    `Accepts` is `availableTransforms[name](item)`. */
module Feeds {
  import opened JsText
  import opened Optional
  import opened Mastodon

  /** The keys of `FeedOptions`, one per transform. */
  datatype Transform =
    | AlwaysLargeAccounts | OnlyFamiliarAccounts | ExcludeBots | ExcludeLockedAccounts
    | ExcludeNewAccounts | ExcludeSpammyAccounts | OnlyPreferredLanguage | ExcludeBoosts
    | ExcludeCrossposts | ExcludeBirdsite | ExcludeNSFW | ExcludeReplies

  /** What the predicates read besides the status: the browser language,
      lower-cased, and `Date.now()` in milliseconds. */
  datatype Context = Context(userLanguage: string, now: int)

  /** `(useNavigatorLanguage().language.value ?? 'en-US').toLowerCase()`. */
  function UserLanguage(navigatorLanguage: Option<string>): string {
    Lower(navigatorLanguage.GetOr("en-US"))
  }

  const MsPerDay: int := 86400000

  // ---------------------------------------------------------------------------
  // The attributes the predicates test
  // ---------------------------------------------------------------------------

  /** `alwaysLargeAccounts`. */
  predicate IsLargeAccount(item: Status) {
    item.account.followersCount > 1000
  }

  /** `shouldNeverBeExcluded`: a large account, or a post the viewer has
      boosted, favourited or bookmarked. */
  predicate NeverExcluded(item: Status) {
    IsLargeAccount(item) || item.reblogged || item.favourited || item.bookmarked
  }

  /** Fewer than 100 followers, or created less than 30 days before `now`.
      `(now - createdAt) / 86400000 < 30` on integers below 2^53 is this
      comparison exactly. */
  predicate IsNewAccount(a: Account, now: int) {
    a.followersCount < 100 || now - a.createdAt < 30 * MsPerDay
  }

  /** `count / (elapsed / 86400000) > limit` with JavaScript division: a
      zero age gives `Infinity` for a positive count and `NaN` for zero; a
      negative age divides by a negative number. */
  predicate PostsPerDayAbove(count: int, elapsed: int, limit: int) {
    if elapsed > 0 then count * MsPerDay > limit * elapsed
    else if elapsed == 0 then count > 0
    else count * MsPerDay < limit * elapsed
  }

  /** A display name holding `nuop`, or more than 288 posts a day. */
  predicate IsSpammy(a: Account, now: int) {
    Contains(Lower(a.displayName), "nuop") || PostsPerDayAbove(a.statusesCount, now - a.createdAt, 288)
  }

  /** `item.language ? userLanguage.includes(item.language.toLowerCase()) : true`. */
  predicate InPreferredLanguage(item: Status, userLanguage: string) {
    if Truthy(item.language) then Contains(userLanguage, Lower(item.language.value)) else true
  }

  predicate IsCrosspost(item: Status) {
    item.application.Some? && Contains(Lower(item.application.value), "cross")
  }

  predicate MentionsBirdsite(item: Status) {
    Contains(Lower(item.content), "twitter.com") || Contains(Lower(item.content), "t.co")
  }

  predicate IsNsfw(item: Status) {
    || Contains(Lower(item.spoilerText), "nsfw")
    || Contains(Lower(item.spoilerText), "nudity")
    || Contains(Lower(item.content), "nsfw")
    || Contains(Lower(item.content), "porn")
  }

  /** A reply to somebody else. */
  predicate IsForeignReply(item: Status) {
    Truthy(item.inReplyToAccountId) && item.inReplyToAccountId.value != item.account.id
  }

  // ---------------------------------------------------------------------------
  // The transforms
  // ---------------------------------------------------------------------------

  /** The transforms that test one attribute, written `!(attr) || !shouldNeverBeExcluded(item)`. */
  predicate IsExclusion(t: Transform) {
    t in {ExcludeBots, ExcludeLockedAccounts, ExcludeNewAccounts, ExcludeSpammyAccounts,
          ExcludeBoosts, ExcludeCrossposts, ExcludeBirdsite, ExcludeNSFW, ExcludeReplies}
  }

  /** The attribute an exclusion tests. */
  predicate Attribute(t: Transform, item: Status, ctx: Context)
    requires IsExclusion(t)
  {
    match t
    case ExcludeBots => item.account.bot
    case ExcludeLockedAccounts => item.account.locked.Truthy()
    case ExcludeNewAccounts => IsNewAccount(item.account, ctx.now)
    case ExcludeSpammyAccounts => IsSpammy(item.account, ctx.now)
    case ExcludeBoosts => item.reblog.Some?
    case ExcludeCrossposts => IsCrosspost(item)
    case ExcludeBirdsite => MentionsBirdsite(item)
    case ExcludeNSFW => IsNsfw(item)
    case ExcludeReplies => IsForeignReply(item)
  }

  /** `availableTransforms[t](item)`. `onlyFamiliarAccounts` reads the
      relationships array before the request that would fill it settles (and
      `concat` would not fill it anyway), so it is always `false`. */
  predicate Accepts(t: Transform, item: Status, ctx: Context) {
    match t
    case AlwaysLargeAccounts => IsLargeAccount(item)
    case OnlyFamiliarAccounts => false
    case ExcludeBots => !item.account.bot || !NeverExcluded(item)
    case ExcludeLockedAccounts => !item.account.locked.Truthy() || !NeverExcluded(item)
    case ExcludeNewAccounts => !IsNewAccount(item.account, ctx.now) || !NeverExcluded(item)
    case ExcludeSpammyAccounts => !IsSpammy(item.account, ctx.now) || !NeverExcluded(item)
    case OnlyPreferredLanguage => InPreferredLanguage(item, ctx.userLanguage) || NeverExcluded(item)
    case ExcludeBoosts => !item.reblog.Some? || !NeverExcluded(item)
    case ExcludeCrossposts => !IsCrosspost(item) || !NeverExcluded(item)
    case ExcludeBirdsite => !MentionsBirdsite(item) || !NeverExcluded(item)
    case ExcludeNSFW => !IsNsfw(item) || !NeverExcluded(item)
    case ExcludeReplies => !IsForeignReply(item) || !NeverExcluded(item)
  }

  /** As written, an exclusion rejects a post exactly when the post has the
      attribute AND is one that should never be excluded: every ordinary post
      passes every exclusion. */
  lemma ExclusionsInverted(t: Transform, item: Status, ctx: Context)
    requires IsExclusion(t)
    ensures !Accepts(t, item, ctx) <==> Attribute(t, item, ctx) && NeverExcluded(item)
    ensures !NeverExcluded(item) ==> Accepts(t, item, ctx)
  {
  }

  /** `excludeReplies` passes every post that is not a reply and every reply
      to the author's own post. */
  lemma RepliesToSelfPass(item: Status, ctx: Context)
    requires !Truthy(item.inReplyToAccountId) || item.inReplyToAccountId.value == item.account.id
    ensures Accepts(ExcludeReplies, item, ctx)
  {
  }

  /** `onlyPreferredLanguage` passes a post without a language, one whose
      language is part of the user's, and any post never to be excluded. */
  lemma PreferredLanguagePasses(item: Status, ctx: Context)
    requires || !Truthy(item.language)
             || Contains(ctx.userLanguage, Lower(item.language.value))
             || NeverExcluded(item)
    ensures Accepts(OnlyPreferredLanguage, item, ctx)
  {
  }

  // ---------------------------------------------------------------------------
  // Feeds
  // ---------------------------------------------------------------------------

  /** One entry of a `FeedOptions` object, in the object's key order. */
  datatype Setting = Setting(key: Transform, enabled: bool)

  type FeedOptions = seq<Setting>

  type Feed = seq<Transform>

  /** `Object.entries(step).filter(_ => _[1]).map(_ => availableTransforms[_[0]])`. */
  function Enabled(step: FeedOptions): Feed {
    if step == [] then [] else (if step[0].enabled then [step[0].key] else []) + Enabled(step[1..])
  }

  /** `makeFeed(steps)`: `steps.flatMap(...)`. */
  function MakeFeed(steps: seq<FeedOptions>): Feed {
    if steps == [] then [] else Enabled(steps[0]) + MakeFeed(steps[1..])
  }

  /** `Enabled` keeps the options' order: it maps concatenation to concatenation. */
  lemma {:induction false} EnabledConcat(a: FeedOptions, b: FeedOptions)
    ensures Enabled(a + b) == Enabled(a) + Enabled(b)
    decreases |a|
  {
    if a == [] {
      assert a + b == b;
    } else {
      assert (a + b)[1..] == a[1..] + b;
      EnabledConcat(a[1..], b);
    }
  }

  /** `makeFeed` concatenates the steps' transforms in order. */
  lemma {:induction false} MakeFeedConcat(a: seq<FeedOptions>, b: seq<FeedOptions>)
    ensures MakeFeed(a + b) == MakeFeed(a) + MakeFeed(b)
    decreases |a|
  {
    if a == [] {
      assert a + b == b;
    } else {
      assert (a + b)[1..] == a[1..] + b;
      MakeFeedConcat(a[1..], b);
    }
  }

  /** A transform is in the feed exactly when some step enables it. */
  lemma {:induction false} MakeFeedMembers(steps: seq<FeedOptions>, t: Transform)
    ensures t in MakeFeed(steps) <==>
      exists i, j :: 0 <= i < |steps| && 0 <= j < |steps[i]| && steps[i][j] == Setting(t, true)
    decreases |steps|
  {
    if steps != [] {
      EnabledMembers(steps[0], t);
      MakeFeedMembers(steps[1..], t);
      if exists i, j :: 0 <= i < |steps| && 0 <= j < |steps[i]| && steps[i][j] == Setting(t, true) {
        var i, j :| 0 <= i < |steps| && 0 <= j < |steps[i]| && steps[i][j] == Setting(t, true);
        if i > 0 {
          assert steps[1..][i - 1][j] == Setting(t, true);
        }
      }
      if exists i, j :: 0 <= i < |steps[1..]| && 0 <= j < |steps[1..][i]| && steps[1..][i][j] == Setting(t, true) {
        var i, j :| 0 <= i < |steps[1..]| && 0 <= j < |steps[1..][i]| && steps[1..][i][j] == Setting(t, true);
        assert steps[i + 1][j] == Setting(t, true);
      }
    }
  }

  lemma {:induction false} EnabledMembers(step: FeedOptions, t: Transform)
    ensures t in Enabled(step) <==> exists j :: 0 <= j < |step| && step[j] == Setting(t, true)
    decreases |step|
  {
    if step != [] {
      EnabledMembers(step[1..], t);
      if exists j :: 0 <= j < |step| && step[j] == Setting(t, true) {
        var j :| 0 <= j < |step| && step[j] == Setting(t, true);
        if j > 0 {
          assert step[1..][j - 1] == Setting(t, true);
        }
      }
      if exists j :: 0 <= j < |step[1..]| && step[1..][j] == Setting(t, true) {
        var j :| 0 <= j < |step[1..]| && step[1..][j] == Setting(t, true);
        assert step[j + 1] == Setting(t, true);
      }
    }
  }

  /** `shouldBeInFeed(item, feed)`: `feed.every(_ => _(item))`. */
  predicate ShouldBeInFeed(item: Status, feed: Feed, ctx: Context) {
    forall i :: 0 <= i < |feed| ==> Accepts(feed[i], item, ctx)
  }

  /** Concatenated feeds accept what both accept; the empty feed accepts everything. */
  lemma FeedConjunction(item: Status, f: Feed, g: Feed, ctx: Context)
    ensures ShouldBeInFeed(item, f + g, ctx) <==> ShouldBeInFeed(item, f, ctx) && ShouldBeInFeed(item, g, ctx)
    ensures ShouldBeInFeed(item, [], ctx)
  {
    if ShouldBeInFeed(item, f, ctx) && ShouldBeInFeed(item, g, ctx) {
      forall i | 0 <= i < |f + g| ensures Accepts((f + g)[i], item, ctx) {
        if i >= |f| {
          assert (f + g)[i] == g[i - |f|];
        }
      }
    }
    if ShouldBeInFeed(item, f + g, ctx) {
      forall i | 0 <= i < |f| ensures Accepts(f[i], item, ctx) {
        assert (f + g)[i] == f[i];
      }
      forall i | 0 <= i < |g| ensures Accepts(g[i], item, ctx) {
        assert (f + g)[|f| + i] == g[i];
      }
    }
  }

  /** A feed whose transforms all occur in another accepts at least what the other accepts. */
  lemma FeedWeakening(item: Status, f: Feed, g: Feed, ctx: Context)
    requires forall t :: t in g ==> t in f
    requires ShouldBeInFeed(item, f, ctx)
    ensures ShouldBeInFeed(item, g, ctx)
  {
    forall i | 0 <= i < |g| ensures Accepts(g[i], item, ctx) {
      assert g[i] in f;
    }
  }

  /** `applyFeed(items, feed)`: `items.filter(item => feed.every(_ => _(item)))`. */
  function ApplyFeed(items: seq<Status>, feed: Feed, ctx: Context): seq<Status> {
    if items == [] then []
    else (if ShouldBeInFeed(items[0], feed, ctx) then [items[0]] else []) + ApplyFeed(items[1..], feed, ctx)
  }

  /** `applyFeed` is the order-preserving filter: it maps concatenation to
      concatenation, and keeps exactly the accepted items. */
  lemma {:induction false} ApplyFeedConcat(a: seq<Status>, b: seq<Status>, feed: Feed, ctx: Context)
    ensures ApplyFeed(a + b, feed, ctx) == ApplyFeed(a, feed, ctx) + ApplyFeed(b, feed, ctx)
    decreases |a|
  {
    if a == [] {
      assert a + b == b;
    } else {
      assert (a + b)[1..] == a[1..] + b;
      ApplyFeedConcat(a[1..], b, feed, ctx);
    }
  }

  lemma {:induction false} ApplyFeedMembers(items: seq<Status>, feed: Feed, ctx: Context)
    ensures forall x :: x in ApplyFeed(items, feed, ctx) <==> x in items && ShouldBeInFeed(x, feed, ctx)
    ensures |ApplyFeed(items, feed, ctx)| <= |items|
    decreases |items|
  {
    if items != [] {
      ApplyFeedMembers(items[1..], feed, ctx);
      assert items == [items[0]] + items[1..];
    }
  }

  /** Filtering twice is filtering once. */
  lemma {:induction false} ApplyFeedIdempotent(items: seq<Status>, feed: Feed, ctx: Context)
    ensures ApplyFeed(ApplyFeed(items, feed, ctx), feed, ctx) == ApplyFeed(items, feed, ctx)
    decreases |items|
  {
    if items != [] {
      var head := if ShouldBeInFeed(items[0], feed, ctx) then [items[0]] else [];
      ApplyFeedConcat(head, ApplyFeed(items[1..], feed, ctx), feed, ctx);
      ApplyFeedIdempotent(items[1..], feed, ctx);
    }
  }

  // ---------------------------------------------------------------------------
  // The three profiles and `useFeeds`
  // ---------------------------------------------------------------------------

  /** `DEFAULT__PUBLIC_TIMELINE_PREFERENCES`. */
  const PublicTimelinePreferences: FeedOptions := [
    Setting(AlwaysLargeAccounts, false), Setting(OnlyFamiliarAccounts, false),
    Setting(ExcludeBots, true), Setting(ExcludeLockedAccounts, true),
    Setting(ExcludeNewAccounts, true), Setting(ExcludeSpammyAccounts, true),
    Setting(OnlyPreferredLanguage, false), Setting(ExcludeBoosts, true),
    Setting(ExcludeCrossposts, true), Setting(ExcludeBirdsite, true),
    Setting(ExcludeNSFW, true), Setting(ExcludeReplies, true)]

  /** `DEFAULT__CACHING_PREFERENCES`. */
  const CachingPreferences: FeedOptions := [
    Setting(AlwaysLargeAccounts, false), Setting(OnlyFamiliarAccounts, false),
    Setting(ExcludeBots, true), Setting(ExcludeLockedAccounts, false),
    Setting(ExcludeNewAccounts, true), Setting(ExcludeSpammyAccounts, true),
    Setting(OnlyPreferredLanguage, false), Setting(ExcludeBoosts, false),
    Setting(ExcludeCrossposts, true), Setting(ExcludeBirdsite, true),
    Setting(ExcludeNSFW, true), Setting(ExcludeReplies, true)]

  /** `DEFAULT__ENRICHMENT_PREFERENCES`. */
  const EnrichmentPreferences: FeedOptions := [
    Setting(AlwaysLargeAccounts, false), Setting(OnlyFamiliarAccounts, false),
    Setting(ExcludeBots, false), Setting(ExcludeLockedAccounts, true),
    Setting(ExcludeNewAccounts, true), Setting(ExcludeSpammyAccounts, true),
    Setting(OnlyPreferredLanguage, false), Setting(ExcludeBoosts, false),
    Setting(ExcludeCrossposts, true), Setting(ExcludeBirdsite, true),
    Setting(ExcludeNSFW, true), Setting(ExcludeReplies, false)]

  /** The transforms of the public-timeline feed, in order. */
  lemma PublicTimelineFeed()
    ensures MakeFeed([PublicTimelinePreferences]) ==
      [ExcludeBots, ExcludeLockedAccounts, ExcludeNewAccounts, ExcludeSpammyAccounts, ExcludeBoosts,
       ExcludeCrossposts, ExcludeBirdsite, ExcludeNSFW, ExcludeReplies]
  {
  }

  /** The transforms of the caching feed, in order. */
  lemma CachingFeed()
    ensures MakeFeed([CachingPreferences]) ==
      [ExcludeBots, ExcludeNewAccounts, ExcludeSpammyAccounts,
       ExcludeCrossposts, ExcludeBirdsite, ExcludeNSFW, ExcludeReplies]
  {
  }

  /** The transforms of the enrichment feed, in order. */
  lemma EnrichmentFeed()
    ensures MakeFeed([EnrichmentPreferences]) ==
      [ExcludeLockedAccounts, ExcludeNewAccounts, ExcludeSpammyAccounts,
       ExcludeCrossposts, ExcludeBirdsite, ExcludeNSFW]
  {
  }

  /** The differences between the three feeds, on their lists of transforms. */
  lemma ListDifferences(t: Transform, p: Feed, c: Feed, e: Feed)
    requires p == [ExcludeBots, ExcludeLockedAccounts, ExcludeNewAccounts, ExcludeSpammyAccounts, ExcludeBoosts,
                   ExcludeCrossposts, ExcludeBirdsite, ExcludeNSFW, ExcludeReplies]
    requires c == [ExcludeBots, ExcludeNewAccounts, ExcludeSpammyAccounts,
                   ExcludeCrossposts, ExcludeBirdsite, ExcludeNSFW, ExcludeReplies]
    requires e == [ExcludeLockedAccounts, ExcludeNewAccounts, ExcludeSpammyAccounts,
                   ExcludeCrossposts, ExcludeBirdsite, ExcludeNSFW]
    ensures (t in c <==> t in p) <==> t !in {ExcludeLockedAccounts, ExcludeBoosts}
    ensures (t in e <==> t in p) <==> t !in {ExcludeBots, ExcludeBoosts, ExcludeReplies}
    ensures (t in c ==> t in p) && (t in e ==> t in p)
  {
  }

  /** The caching profile differs from the public-timeline one only in
      locked accounts and boosts; the enrichment profile only in bots,
      boosts and replies. Both are weaker. */
  lemma ProfileDifferences(t: Transform)
    ensures (t in MakeFeed([CachingPreferences]) <==> t in MakeFeed([PublicTimelinePreferences]))
            <==> t !in {ExcludeLockedAccounts, ExcludeBoosts}
    ensures (t in MakeFeed([EnrichmentPreferences]) <==> t in MakeFeed([PublicTimelinePreferences]))
            <==> t !in {ExcludeBots, ExcludeBoosts, ExcludeReplies}
    ensures t in MakeFeed([CachingPreferences]) ==> t in MakeFeed([PublicTimelinePreferences])
    ensures t in MakeFeed([EnrichmentPreferences]) ==> t in MakeFeed([PublicTimelinePreferences])
  {
    PublicTimelineFeed();
    CachingFeed();
    EnrichmentFeed();
    ListDifferences(t, MakeFeed([PublicTimelinePreferences]), MakeFeed([CachingPreferences]),
                    MakeFeed([EnrichmentPreferences]));
  }

  /** `useFeeds().shouldBeInGlobal`. */
  predicate ShouldBeInGlobal(item: Status, ctx: Context) {
    ShouldBeInFeed(item, MakeFeed([PublicTimelinePreferences]), ctx)
  }

  /** `useFeeds().shouldBeCached`. */
  predicate ShouldBeCached(item: Status, ctx: Context) {
    ShouldBeInFeed(item, MakeFeed([CachingPreferences]), ctx)
  }

  /** `useFeeds().shouldBeEnriched`. */
  predicate ShouldBeEnriched(item: Status, ctx: Context) {
    ShouldBeInFeed(item, MakeFeed([EnrichmentPreferences]), ctx)
  }

  /** `useFeeds().applyPublicTimelineFeed`. */
  function ApplyPublicTimelineFeed(items: seq<Status>, ctx: Context): seq<Status> {
    ApplyFeed(items, MakeFeed([PublicTimelinePreferences]), ctx)
  }

  /** A post fit for the public timeline is also cached and enriched. */
  lemma GlobalIsCachedAndEnriched(item: Status, ctx: Context)
    requires ShouldBeInGlobal(item, ctx)
    ensures ShouldBeCached(item, ctx) && ShouldBeEnriched(item, ctx)
  {
    forall t | t in MakeFeed([CachingPreferences]) ensures t in MakeFeed([PublicTimelinePreferences]) {
      ProfileDifferences(t);
    }
    forall t | t in MakeFeed([EnrichmentPreferences]) ensures t in MakeFeed([PublicTimelinePreferences]) {
      ProfileDifferences(t);
    }
    FeedWeakening(item, MakeFeed([PublicTimelinePreferences]), MakeFeed([CachingPreferences]), ctx);
    FeedWeakening(item, MakeFeed([PublicTimelinePreferences]), MakeFeed([EnrichmentPreferences]), ctx);
  }
}
