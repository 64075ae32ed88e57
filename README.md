# Elk (Fedified) client core, modelled in Dafny

Elk is a web client for Mastodon. This fork adds federation helpers. The
project models the client-side logic that decides what a user sees and what
the client remembers:

- **The resolution cache** (`composables/cache.ts`). One key-value store
  holds statuses, accounts, in-flight requests and remembered HTTP error
  codes.
  - Its resolvers (`fetchStatus`, `federateRemoteStatus`,
    `fetchAuthoritativeStatus`, `federateRemoteAccount`,
    `fetchAccountById`, `fetchAccountByHandle`) each look the key up, then
    answer from the cache, join a request in flight, give up on a
    remembered error, or start a request and cache its promise.
  - Once the request answers, they store the result.
  - The module also holds the webfinger normaliser
    `extractAccountWebfinger` and the snake-to-camel key rewriting
    `changeKeysToCamelCase`.
- **Account names and handles** (`composables/masto/account.ts`): the
  display name without custom-emoji shortcodes, the short, full and
  server-relative handles, and parsing a handle typed by the user.
- **Timeline stitching** (`composables/timeline.ts`). Statuses that a
  server-side filter hides are removed. Then a reply that arrives before
  the status it answers is moved next to it.
- **Feed filters** (`composables/discovery/feeds.ts`): predicates over a
  status, chosen from option profiles, and the three profiles the client
  uses.
- **Status interactions** (`composables/masto/status.ts`). Boost,
  favourite, bookmark, pin and mute are toggles with an optimistic local
  update, a reconciliation with the server's answer, and the rule for who
  may boost.
- **The paginator** (`composables/paginator.ts`). It tracks the shown list,
  the held-back tail of a page, the streamed statuses behind the "new
  items" banner, the raw stream queue, and the loading state machine.
- **Quoting** (`composables/quote.ts`): whether a status may be quoted, the
  explanation shown when it may not, and `getDiffStyle`, the computation of
  the CSS declarations that differ from the defaults.

Supporting modules:

- `Optional` (in `mastodon.dfy`) is an option type with JavaScript
  truthiness.
- `Mastodon` holds the entities of the Mastodon API that the core reads.
- `JsText` (`jstext.dfy`) models the JavaScript string operations the source
  relies on: `indexOf`, `includes`, `replace` with a string pattern,
  `split`, `lastIndexOf` and `toLowerCase`.

The cache is a class, `CacheStore.ResolutionCache`, whose map the methods
update. Each method is proved against a function of the old map.

- `useStatusActions` is the class `StatusActions.StatusView`.
- `usePaginator` is the class `Paginator.Buffered`.
- `reorderedTimeline` and both loops of `getDiffStyle` are methods with loop
  invariants, proved against specification functions.

Everything else is functions and lemmas.

## Model

| member | source | states |
|---|---|---|
| AccountHandles.StripShortcodes | composables/masto/account.ts:7 | Removing the `:name:` shortcodes never lengthens a name, and a name without a colon is returned unchanged. |
| AccountHandles.ShortcodeRemoved | composables/masto/account.ts:7 | A shortcode is removed whole, and the left-to-right pass resumes right after it. |
| AccountHandles.PlainPrefixKept | composables/masto/account.ts:7 | Text without a colon in front of the rest is kept verbatim, whatever follows it. |
| AccountHandles.SinglePass | composables/masto/account.ts:7 | The replacement is one pass: removing `:x:` from `::x:b:` leaves `:b:`, a shortcode that stays in the result even though the pass would remove it on its own. |
| AccountHandles.NameOf | composables/masto/account.ts:4 | The name is the first non-empty of display name, username and acct, and is empty exactly when all three are. |
| AccountHandles.DisplayName | composables/masto/account.ts:3-8 | The rich form is the name itself. The plain form is the name without shortcodes, and is never longer. |
| AccountHandles.PlainNameIsRichName | composables/masto/account.ts:3-8 | For a name without shortcodes, the plain and rich forms agree. |
| AccountHandles.EmojiOnlyNameIsEmpty | composables/masto/account.ts:4-7 | A display name made of one custom emoji shows as the empty string. The username fallback is decided before the shortcodes are removed. |
| AccountHandles.ShortHandle | composables/masto/account.ts:10-14 | The short handle is empty exactly when the account has no acct. Otherwise it is `@` followed by the username. |
| AccountHandles.ServerName | composables/masto/account.ts:16-18 | The server name never holds a `/` and is never longer than the URL. |
| AccountHandles.ServerNameOfUrl | composables/masto/account.ts:16-18 | The server name of `https://host/path` is `host`. |
| AccountHandles.QualifiedHandle | composables/masto/account.ts:21 | For an account with an acct, the handle is the short handle, then `@`, then the server name. It always opens with `@` and has a second `@` right after the username. |
| AccountHandles.FullHandle | composables/masto/account.ts:20-23 | This is the full handle as written. Without a signed-in server, or when `@server` does not occur, it is `@username@host`. It is never longer than that. |
| AccountHandles.FullHandleIsAcct | composables/masto/account.ts:20-28 | Unless the handle opens with `@server`, the full handle is `@` followed by the server-relative acct. |
| AccountHandles.FullHandleFixed | composables/masto/account.ts:20-23 | This is the corrected full handle. It starts with `@`, and its acct expands back to `@username@host`. |
| AccountHandles.FullHandleAgreesWithFix | composables/masto/account.ts:20-23 | The handle as written and the corrected one agree for local accounts and for hosts that do not contain the server name. |
| AccountHandles.FullHandleOfExtendedHost | composables/masto/account.ts:20-23 | An account on `example.com.au` seen from `example.com` gets the handle `@user.au`. |
| AccountHandles.FullHandleOfPrefixedUsername | composables/masto/account.ts:20-23 | A username that begins with a dotless server name (e.g. `localhostuser` on `localhost`) loses its start instead of the host. |
| AccountHandles.AcctFromPerspective | composables/masto/account.ts:25-28 | This is the server-relative acct as written. When `@server` does not occur, it is `username@host`. It is never longer than that. |
| AccountHandles.LocalAcct | composables/masto/account.ts:25-28 | This is the acct convention the function aims at. For a username without `@`, the acct holds no `@` exactly when the host is the current server. |
| AccountHandles.LocalAcctRoundTrip | composables/masto/account.ts:25-28 | Expanding the acct on the current server gives back `username@host`. |
| AccountHandles.AcctFromPerspectiveFixed | composables/masto/account.ts:25-28 | This is the corrected acct. It expands back to `username@host`, and it is the bare username exactly when the host is the current server. |
| AccountHandles.AcctAgreesWithFix | composables/masto/account.ts:25-28 | The acct as written equals the corrected one for local accounts and for hosts that do not contain `@server`. |
| AccountHandles.AcctOfExtendedHost | composables/masto/account.ts:25-28 | A host that extends the current server's name loses that name from its middle. The result no longer expands to the account. |
| AccountHandles.ParseAcct | composables/masto/account.ts:30-32 | Parsing gives `undefined` exactly when the input does not normalise to a webfinger address. |
| AccountHandles.LocalPart | composables/masto/account.ts:31 | The local part is `undefined` exactly when the address is. It is never longer than the address, and is unchanged when `@server` does not occur in it. |
| AccountHandles.LocalHandleLocalPart | composables/masto/account.ts:31 | The local part of `user@server` is `user`. |
| AccountHandles.ParseRemoteHandle | composables/masto/account.ts:30-32 | A remote address that does not contain the server's name parses to itself. |
| AccountHandles.ParseTypedHandle | composables/masto/account.ts:30-32 | A typed `user@server` handle of the current server parses to `user`. |
| Normalize.StripStatusesSuffix | composables/cache.ts:73 | Only the leftmost match of `/statuses/...` that reaches the end is cut off. A text without a match, or without a slash, is unchanged. |
| Normalize.ExtractAccountWebfinger | composables/cache.ts:60-66 | Any input containing `/tags/` gives `null`. A handle-shaped pre-normal form is returned without its leading `@`s. |
| Normalize.HostPathHandle | composables/cache.ts:68-78 | `host/@user` normalises to `user@host`. |
| Normalize.ProfileUrlHandle | composables/cache.ts:60-78 | `https://host/@user` normalises to `user@host`, except on the host `tags`, which gives `null`. |
| Normalize.UsersUrlHandle | composables/cache.ts:60-78 | `https://host/users/user` normalises to `user@host`. |
| Normalize.ShortUsersUrlHandle | composables/cache.ts:60-78 | `https://host/u/user` normalises to `user@host`. |
| Normalize.StatusUrlHandle | composables/cache.ts:60-78 | A status URL `https://host/@user/statuses/id` with a numeric id normalises to its author's handle `user@host`. |
| Normalize.WebfingerShape | composables/cache.ts:75-95 | Every non-null result holds `@` or is a bare local username. Every other normal form gives `null`. |
| Normalize.HostWordRejected | composables/cache.ts:91-95 | A URL `https://host/word` that is not a profile URL, such as `https://host/about`, gives `null`. |
| Normalize.BareUsername | composables/cache.ts:87-95 | A bare word username is kept exactly when it has at most 30 characters. Otherwise it is `null`. |
| Normalize.HandleIsFixedPoint | composables/cache.ts:65-66 | A `user@host.tld` handle normalises to itself, so normalising is idempotent on handles. |
| Normalize.CamelCase | composables/cache.ts:29-31 | The camel-case form of a key is never longer than the key. |
| Normalize.CamelCaseNoUnderscore | composables/cache.ts:29-31 | A key without underscores is unchanged. |
| Normalize.CamelCaseConcat | composables/cache.ts:29-31 | Rewriting distributes over concatenation at any cut not preceded by `_`. |
| Normalize.SnakeSegment | composables/cache.ts:29-31 | `first_rest` becomes `firstRest`: the underscore goes and the next character is upper-cased. |
| Normalize.TransformKey | composables/cache.ts:46-54 | Keys containing `:`, and keys starting with `_`, are kept. Every other key is camel-cased. |
| Normalize.AddEntrySpec | composables/cache.ts:37 | One `Object.fromEntries` step keeps keys distinct and adds the new key with its value. The entries of the other keys are unchanged. |
| Normalize.FromEntriesSpec | composables/cache.ts:37 | `Object.fromEntries` yields distinct keys, the same key set as its input, and for each key the last value given. |
| Normalize.FromEntriesDistinct | composables/cache.ts:37 | When the keys are already distinct, every entry keeps its place and value. |
| Normalize.TransformJson | composables/cache.ts:32-43 | Scalars are returned as they are. Arrays keep their length. Objects stay objects. |
| Normalize.ObjectEntriesRenamed | composables/cache.ts:36-41 | When the renamed keys stay distinct, each entry keeps its position and holds its renamed key and its transformed value. |
| Normalize.CamelDocumentFixed | composables/cache.ts:28-58 | A document already in camel case, with distinct keys and no `_`, is returned unchanged. |
| CacheStore.Written | composables/cache.ts:20-23 | `setCached` without override keeps an existing entry, and with override replaces it. Only that key is added, and no other key changes. |
| CacheStore.FirstWriteWins | composables/cache.ts:20-23 | Without override, a second write under the same key changes nothing. |
| CacheStore.WebfingerKey | composables/cache.ts:98-103 | The webfinger key exists exactly when the input normalises to a non-empty address, and it is the account-id key of that address. |
| CacheStore.StopKeysApart | composables/cache.ts:109-115 | `stop:` keys never coincide with status-id keys or authoritative-status keys. |
| CacheStore.StatusKeysDistinct | composables/cache.ts:105-115 | Status-id keys determine the id. They never coincide with account-id keys, which determine their id too. |
| CacheStore.PendingJoins | composables/cache.ts:143-168 | Every lookup joins a request in flight, whatever `force` says. |
| CacheStore.ForceNeverHits | composables/cache.ts:143-168 | A forced lookup never answers from a cached value. |
| CacheStore.StopMarkHolds | composables/cache.ts:228-233 | Once an identifier is marked `stop:`, `fetchStatus`, `federateRemoteStatus` and `fetchAuthoritativeStatus` give `null` for it and leave the cache alone. |
| CacheStore.InvalidIdStopped | composables/cache.ts:243-248 | An id that is neither numeric nor a URI is marked `stop:` with 418, and every later `fetchStatus` for it gives `null` whatever its flags. |
| CacheStore.StatusCodeObeyed | composables/cache.ts:250-266 | A code remembered under a status id gives `null` when it is 401, 403, 404, 418, 429, 500, 501 or 503, even under `force`. Any other code starts a new fetch. |
| CacheStore.ForceRetriesMissing | composables/cache.ts:527-557 | The account resolvers hold a missing account and an unresponsive server unless forced. They hold a refusal, a rate limit and an invalid id either way. |
| CacheStore.AccountIdCodeObeyed | composables/cache.ts:527-557 | A code remembered under an account id gives `null` when it suppresses under the given `force`. Otherwise the account is fetched again. |
| CacheStore.RemoteCodeObeyed | composables/cache.ts:450-494 | The same rule for `federateRemoteAccount`: `null`, or a new search. |
| CacheStore.HandleCodeObeyed | composables/cache.ts:603-640 | The same rule for `fetchAccountByHandle`. A code that does not hold leads to a new lookup for a local handle, and to `federateRemoteAccount` for a remote one. |
| CacheStore.UriSegments | composables/cache.ts:344 | Splitting a URI gives at least one segment. With two or more segments, each is shorter than the URI. |
| CacheStore.FetchStatusJoins | composables/cache.ts:227-325 | After `fetchStatus` starts a request, only a placeholder under a status-id key is new. A second call for the same id joins it, whatever its flags. |
| CacheStore.FederateStatusJoins | composables/cache.ts:117-225 | The same holds for `federateRemoteStatus`, through its redirects to `fetchStatus`. |
| CacheStore.AuthoritativeStatusJoins | composables/cache.ts:327-429 | The same holds for `fetchAuthoritativeStatus`, for every branch. |
| CacheStore.AuthoritativeNumericJoins | composables/cache.ts:336-342 | A numeric id is redirected to `fetchStatus`, and a second call joins there. |
| CacheStore.AuthoritativeLocalJoins | composables/cache.ts:352-360 | A URL on the user's own server is redirected to `fetchStatus` with its last segment, and a second call joins there. |
| CacheStore.AuthoritativeRemoteJoins | composables/cache.ts:362-388 | A remote URL puts the placeholder under the authoritative key, which a second call finds before any stop key. |
| CacheStore.CachedStatusServed | composables/cache.ts:251-266 | A cached status is served unchanged, and the cache is untouched. A forced fetch starts a new request instead. |
| CacheStore.FederateStartKeepsFrame | composables/cache.ts:431-520 | `federateRemoteAccount` starts a request only under a key with nothing in flight. Otherwise it changes nothing in the cache. |
| CacheStore.HandleStartKeepsFrame | composables/cache.ts:593-667 | The same frame holds for `fetchAccountByHandle`. |
| CacheStore.ByIdStartKeepsFrame | composables/cache.ts:522-591 | The same frame holds for `fetchAccountById`. |
| CacheStore.FederateAccountJoins | composables/cache.ts:450-494 | A second `federateRemoteAccount` for the same input joins the first one's search. |
| CacheStore.HandleAccountJoins | composables/cache.ts:603-640 | A second `fetchAccountByHandle` for the same handle joins the first one's request. |
| CacheStore.AccountByIdJoins | composables/cache.ts:527-571 | A second `fetchAccountById` for the same id joins the first one's request. |
| CacheStore.CachedAccountFederated | composables/cache.ts:679-682 | An account stored by `cacheAccount` is served by `federateRemoteAccount` for every input that normalises to its handle. |
| CacheStore.CachedAccountFoundByEveryForm | composables/cache.ts:679-682 | With the program's normaliser, a cached account is found from its profile URL, from the `/users/` form and from its handle. |
| CacheStore.Enrich | composables/cache.ts:184-214 | Enrichment changes only the three counters. It takes them only from another copy (a different id) of the same post (the same uri). |
| CacheStore.EnrichIdempotent | composables/cache.ts:184-214 | Enriching twice from the same source is enriching once. |
| CacheStore.AcctFromProfileUrl | composables/cache.ts:179-181 | The acct of a post whose account URL is `https://h/@u` is `u@h`. |
| CacheStore.AcctWithoutProfilePath | composables/cache.ts:179-181 | A profile URL without `/@` gives the acct `undefined@...`. |
| CacheStore.ResolutionCache.constructor | composables/cache.ts:5-14 | The cache starts empty, with the webfinger normaliser. |
| CacheStore.ResolutionCache.SetCached | composables/cache.ts:20-23 | The new map is the old one after the write rule. |
| CacheStore.ResolutionCache.RemoveCached | composables/cache.ts:24-26 | The key is gone, and nothing else changes. |
| CacheStore.ResolutionCache.CacheStatus | composables/cache.ts:669-672 | The status is written under its status-id key with the given override. |
| CacheStore.ResolutionCache.RemoveCachedStatus | composables/cache.ts:674-677 | The status-id key is removed. |
| CacheStore.ResolutionCache.CacheAccount | composables/cache.ts:679-682 | The account is written under its id key, then under the webfinger key of its URL (the `null` key when the URL does not normalise). |
| CacheStore.ResolutionCache.FetchStatus | composables/cache.ts:227-325 | The answer and the new map are those of the `fetchStatus` start function on the old map. |
| CacheStore.ResolutionCache.FederateRemoteStatus | composables/cache.ts:117-225 | The answer and the new map are those of the `federateRemoteStatus` start function. |
| CacheStore.ResolutionCache.FetchAuthoritativeStatus | composables/cache.ts:327-429 | The answer and the new map are those of the `fetchAuthoritativeStatus` start function. |
| CacheStore.ResolutionCache.FederateRemoteAccount | composables/cache.ts:431-520 | The method agrees with its start function whenever that finishes within the hop bound, and always keeps the start frame. |
| CacheStore.ResolutionCache.FetchAccountByHandle | composables/cache.ts:593-667 | The same holds for `fetchAccountByHandle`. |
| CacheStore.ResolutionCache.FetchAccountById | composables/cache.ts:522-591 | The answer and the new map are those of the `fetchAccountById` start function. |
| CacheStore.ResolutionCache.SettleStatusFetch | composables/cache.ts:268-322 | A rejected fetch leaves the promise cached. A local post is stored under both keys. A remote post is stored, enriched only when it is public and enrichment was asked for. |
| CacheStore.ResolutionCache.SettleStatusSearch | composables/cache.ts:170-222 | A failed search stores `null`. An empty result stores 404. A found post is stored under the search key. |
| CacheStore.ResolutionCache.SettleAuthoritativeFetch | composables/cache.ts:395-425 | A network error stores `null`. A non-200 answer or a missing body ends as 400. A post is stored with its normalised acct. |
| CacheStore.ResolutionCache.SettleAccountSearch | composables/cache.ts:496-517 | A failed search stores `null` and an empty result stores 404. A found account is stored under the search key, the id key of its handle and its bare handle. |
| CacheStore.ResolutionCache.SettleAccountFetch | composables/cache.ts:573-588 | A rejected fetch stores 404. An account whose URL does not normalise stores nothing. Otherwise the account is stored with its normalised acct. |
| CacheStore.ResolutionCache.SettleAccountLookup | composables/cache.ts:649-664 | A rejected lookup stores 404. Otherwise the account is stored under the webfinger key and under its id. |
| Timeline.BoostedParent | composables/timeline.ts:7-10 | A boost of the status that a reply answers counts as that reply's parent. |
| Timeline.BoostedReply | composables/timeline.ts:7-10 | A boost of a reply follows a parent exactly when the reply does. |
| Timeline.NoTargetNoParent | composables/timeline.ts:7-10 | A status with no (or an empty) reply target follows nothing. |
| Timeline.RemoveFilteredItems | composables/timeline.ts:12-39 | The kept statuses are exactly the input's statuses that pass both filter checks, in order and without additions. |
| Timeline.NothingHidden | composables/timeline.ts:12-39 | When no status is hidden, the list is returned unchanged. |
| Timeline.Move | composables/timeline.ts:71-74 | The splice pair moves a run back, in order, and shifts the statuses in between behind it. The result is a permutation. |
| Timeline.ParentMovedBeforeReply | composables/timeline.ts:56-60 | After the move, the parent stands at `i - k` and its reply right after it. |
| Timeline.RunEnd | composables/timeline.ts:66-70 | With the bound corrected, the scan returns the end of the longest run of consecutive replies starting at `i`. |
| Timeline.RunEndAsWritten | composables/timeline.ts:66-70 | This is the scan as written, bounded by the unfiltered length. It faults exactly when the filtered list is shorter and the run reaches its end. Otherwise it agrees with the corrected scan. |
| Timeline.HiddenLastStatusDropped | composables/timeline.ts:12-39 | A hidden last status is dropped, and the others keep their order. |
| Timeline.HiddenLastStatusFaults | composables/timeline.ts:41-81 | Four statuses with the last hidden and the third answering the first reach the faulting scan. |
| Timeline.ReorderedTimeline | composables/timeline.ts:41-81 | With the run scan corrected (`RunEnd`), the result is a permutation of the filtered list, the step count stays within the budget, and a list with no replies among its statuses is returned as filtered. |
| Feeds.ExclusionsInverted | composables/discovery/feeds.ts:64-131 | Each exclusion rejects a post exactly when the post has the attribute AND must never be excluded. Posts that may be excluded always pass. |
| Feeds.RepliesToSelfPass | composables/discovery/feeds.ts:126-131 | Non-replies and replies to oneself pass `excludeReplies`. |
| Feeds.PreferredLanguagePasses | composables/discovery/feeds.ts:92-96 | Posts without a language, in the user's language, or never to be excluded pass the language filter. |
| Feeds.EnabledConcat | composables/discovery/feeds.ts:151 | Selecting the enabled transforms preserves the options' order across concatenation. |
| Feeds.EnabledMembers | composables/discovery/feeds.ts:151 | A transform is selected exactly when its option is set to true. |
| Feeds.MakeFeedConcat | composables/discovery/feeds.ts:150-152 | The transforms of concatenated steps are the concatenation of each step's transforms. |
| Feeds.MakeFeedMembers | composables/discovery/feeds.ts:150-152 | A transform is in the feed exactly when some step enables it. |
| Feeds.FeedConjunction | composables/discovery/feeds.ts:154-156 | A concatenated feed accepts exactly what both parts accept, and the empty feed accepts everything. |
| Feeds.FeedWeakening | composables/discovery/feeds.ts:154-156 | A feed made of a subset of another's transforms accepts at least as much. |
| Feeds.ApplyFeedConcat | composables/discovery/feeds.ts:158-160 | Applying a feed is an order-preserving filter that distributes over concatenation. |
| Feeds.ApplyFeedMembers | composables/discovery/feeds.ts:158-160 | The kept posts are exactly the accepted input posts, and there are never more of them. |
| Feeds.ApplyFeedIdempotent | composables/discovery/feeds.ts:158-160 | Applying a feed twice is applying it once. |
| Feeds.PublicTimelineFeed | composables/discovery/feeds.ts:162-177 | The public-timeline profile selects these nine exclusions, in this order. |
| Feeds.CachingFeed | composables/discovery/feeds.ts:179-194 | The caching profile selects its seven exclusions, in order. |
| Feeds.EnrichmentFeed | composables/discovery/feeds.ts:196-211 | The enrichment profile selects its six exclusions, in order. |
| Feeds.ProfileDifferences | composables/discovery/feeds.ts:162-215 | The same differences hold for the feeds built from the three profiles. Both are subsets of the public feed. |
| Feeds.GlobalIsCachedAndEnriched | composables/discovery/feeds.ts:217-223 | A post fit for the public timeline is also cached and enriched. |
| Quote.NothingDirectQuotable | composables/quote.ts:45-65 | A missing status and a direct message are never quotable. |
| Quote.PublicQuotable | composables/quote.ts:45-65 | A public status is quotable exactly when its author is discoverable, unlocked and has no no-quote note. |
| Quote.LimitedQuotable | composables/quote.ts:45-65 | An unlisted or followers-only status is quotable only by its author, only when it is no reply to someone else, and under the author conditions. |
| Quote.MentionForbids | composables/quote.ts:59 | Any capitalisation of a no-quote tag anywhere in the note forbids quoting. |
| Quote.Explain | composables/quote.ts:67-87 | The explanation is empty exactly when there is no status. |
| Quote.ExplanationsAreReasons | composables/quote.ts:45-87 | The locked, no-quote and direct-message explanations name real reasons the status is not quotable. |
| Quote.QuotableExplanations | composables/quote.ts:45-87 | A quotable public status gets the catch-all text, and a quotable non-public one the visibility text. An undiscoverable author also gets the catch-all. |
| Quote.SecondNoteCheckUnreachable | composables/quote.ts:67-87 | The no-quote explanation comes only from the first note check. The second is never reached. |
| Quote.PrefixBeforeLastDash | composables/quote.ts:1616-1617 | A property's prefix is the text before its last `-`. It is empty exactly when no `-` follows the first character. |
| Quote.FiledHolds | composables/quote.ts:1611-1625 | The prefix tree files exactly the prefixed declarations, each under its own prefix, with its own value and priority. |
| Quote.KeptHolds | composables/quote.ts:1611-1634 | The first loop keeps exactly the unprefixed declarations that differ from the default or carry a priority. |
| Quote.NotedHolds | composables/quote.ts:1627-1631 | The noted prefixes are exactly the prefixes of kept prefixed declarations. |
| Quote.MergedHolds | composables/quote.ts:1636-1639 | The second loop adds every declaration filed under a noted prefix, and nothing else. |
| Quote.DiffStyleHolds | composables/quote.ts:1603-1642 | A declaration is in the diff exactly when it differs itself, or when some declaration with its prefix differs. It carries its own value and priority. |
| Quote.FileDeclarations | composables/quote.ts:1611-1634 | The first loop computes the kept map, the noted prefixes and the prefix tree of the style. |
| Quote.MergePrefixes | composables/quote.ts:1636-1639 | The second loop computes the merge of the noted prefixes' declarations. |
| Quote.GetDiffStyle | composables/quote.ts:1603-1642 | The diff contains a declaration exactly when it is emitted, with its value and priority. |
| StatusActions.SetFlag | composables/masto/status.ts:110 | Only the named flag changes, and the counters stay. |
| StatusActions.Mirror | composables/masto/status.ts:112-115 | The counter takes the value in the status and, for a boost, in the boosted status. Nothing else changes. |
| StatusActions.Toggle | composables/masto/status.ts:110-115 | The flag flips and the other flags stay. The counter moves by one in the flag's new direction, and the boosted status copies it. |
| StatusActions.FlipBack | composables/masto/status.ts:110 | Flipping a flag back restores the interaction. |
| StatusActions.FlagAndCounterCommute | composables/masto/status.ts:110-115 | Setting a flag and setting a counter commute. |
| StatusActions.MirrorTwice | composables/masto/status.ts:112-115 | Of two counter settings the second counts. Setting the current value changes nothing. |
| StatusActions.ToggleTwice | composables/masto/status.ts:110-115 | Toggling twice restores the toggled attributes when the boosted counter agreed. |
| StatusActions.Optimistic | composables/masto/status.ts:109-116 | The optimistic copy differs from the status only in the toggled attributes. |
| StatusActions.ToggleTwiceRestores | composables/masto/status.ts:109-116 | Toggling a status twice gives the status back. |
| StatusActions.Settle | composables/masto/status.ts:85-101 | A cancel that the server did not count is lowered by one and not cached. Otherwise the counter becomes the previous one plus one, mirrored into the boost, and the result is cached. |
| StatusActions.Reconciled | composables/masto/status.ts:85-101 | The server's answer changes only in the settled attributes. |
| StatusActions.FavouriteCountedTwice | composables/masto/status.ts:74-116 | Favouriting a status with n favourites shows n+1. When the server also answers n+1, the cached answer shows n+2. |
| StatusActions.CanReblogByVisibility | composables/masto/status.ts:119-124 | Public and unlisted statuses can be boosted and direct ones cannot. A followers-only status can be boosted exactly by its author. |
| StatusActions.PositionalSession | composables/masto/status.ts:116 | The boolean passed positionally becomes the server name of the key. |
| StatusActions.ServersApart | composables/cache.ts:671 | Keys built on different server names never coincide. |
| StatusActions.PositionalKeyNeverRead | composables/masto/status.ts:116 | The status cached by a toggle sits under a key that no status lookup of the session reads. |
| StatusActions.OptimisticCopyKeepsEntry | composables/masto/status.ts:116 | Caching without override never replaces a status that is already cached. |
| StatusActions.StatusView.constructor | composables/masto/status.ts:13-22 | The shown status and the snapshot both start as the component's status, as two objects that are not yet shared. |
| StatusActions.StatusView.ToggleStatusAction | composables/masto/status.ts:65-116 | Without a login nothing changes. Otherwise the shown status becomes the optimistic copy, which is cached without override. The snapshot takes the same write once the two are one object, and keeps its value before that. |
| StatusActions.StatusView.SettleToggle | composables/masto/status.ts:85-108 | A rejection changes nothing. Otherwise the reconciled answer is cached unless lowered, and the shown status becomes the snapshot object, which both names share from then on. |
| Paginator.FindId | composables/paginator.ts:46 | The result is -1 exactly when no item holds the id. Otherwise it is the first position holding it. |
| Paginator.WithoutId | composables/paginator.ts:46-48 | Only the first item holding the id is removed. Nothing happens when there is none. |
| Paginator.WithoutIdUnique | composables/paginator.ts:46-52 | Removing an id keeps ids unique and leaves no item with that id. |
| Paginator.Enqueued | composables/paginator.ts:50-53 | The event goes to the front, and any earlier copy leaves the queue. |
| Paginator.EnqueuedUnique | composables/paginator.ts:44-55 | An update event keeps the queue free of repeated statuses. |
| Paginator.Split | composables/paginator.ts:164-168 | Shown plus held back is the page. Up to the buffer size everything is shown. Beyond it, exactly `buffer` items are held back. |
| Paginator.DrainedQueueShort | composables/paginator.ts:117-150 | With a buffer, the watcher leaves fewer than `buffer` items queued. Without one, it leaves the queue empty whenever preprocessing kept something. |
| Paginator.DrainedKeepsEverything | composables/paginator.ts:117-150 | When preprocessing keeps everything, no status is lost between the queue and the waiting list. |
| Paginator.StatusUpdateAsWritten | composables/paginator.ts:91-99 | The handler as written throws exactly for a processable, cacheable status when items are shown. |
| Paginator.Replaced | composables/paginator.ts:95-98 | The first item with the status's id becomes the status, and every other item stays. |
| Paginator.EditOfShownStatusLost | composables/paginator.ts:91-99 | An edit of a shown cacheable status is lost as written, where the intended replacement would show it. |
| Paginator.PageKeepsOrder | composables/paginator.ts:160-170 | A page adds exactly its preprocessed items to shown plus held back, in order. |
| Paginator.Buffered.constructor | composables/paginator.ts:18-22 | Every list starts empty. The paginator is loading after setup: a hydrated one starts its first page through `resume: loadNext()` (line 227), and an unhydrated one starts out loading. |
| Paginator.Buffered.OnHydrated | composables/paginator.ts:200-204 | Hydration makes the paginator idle and `loadNext` then starts a request, so it ends up loading from any state. The lists and the error stay as they were. |
| Paginator.Buffered.Update | composables/paginator.ts:30-40 | The waiting statuses go on top of the shown ones (through preprocess for notifications), and the waiting list empties. |
| Paginator.Buffered.OnUpdate | composables/paginator.ts:44-55 | A processable status leaves the waiting list and goes to the front of the queue. Unique queue ids are preserved. |
| Paginator.Buffered.OnStatusUpdate | composables/paginator.ts:91-100 | A processable status replaces its shown copy and is cached when cacheable. |
| Paginator.Buffered.OnDelete | composables/paginator.ts:102-109 | The status leaves the cache and the shown list. |
| Paginator.Buffered.ProcessQueue | composables/paginator.ts:117-150 | The queue and the waiting list become what `Drained` gives, and nothing else changes. |
| Paginator.Buffered.StartLoading | composables/paginator.ts:152-156 | Only an idle paginator starts loading. |
| Paginator.Buffered.FinishLoading | composables/paginator.ts:157-185 | A page is split and shown. An exhausted paginator shows its tail and is done. An error is recorded. |

## Left out

- The cache's one-hour expiry, its 1000-entry LRU eviction and its stale-serving options (`composables/cache.ts:5-14`) are not modelled. The cache is an unbounded map, so the behaviours that wait for an entry to expire are modelled as the entry staying.
- Network requests, promises and their timing are not modelled. Each resolver is split into its start (lookup and placeholder) and a settle method that takes the request's outcome as a parameter.
- Logging in development mode and `console` calls are not modelled.
- CacheStore.ResolutionCache.FederateRemoteAccount: the mutual redirects with `fetchAccountByHandle` are bounded by a `hops` parameter, and the method promises agreement with the start function only when that function finishes within the bound.
- CacheStore.ResolutionCache.FetchAccountByHandle: bounded by `hops` in the same way.
- CacheStore.ResolutionCache.SettleStatusFetch: the nested `fetchAuthoritativeStatus(post.uri, force)` (`composables/cache.ts:285`) is not run inside this method. Its outcome is the parameter `auth`, with `None` for `null` and for a thrown error. Its own cache writes, the placeholder and the result under the authoritative key, are left to the caller. The caller makes them through `FetchAuthoritativeStatus` and `SettleAuthoritativeFetch` before settling. Nothing ties `auth` to what those calls stored.
- CacheStore.ResolutionCache.SettleStatusSearch: the nested `fetchAuthoritativeStatus(statusUri, force)` (`composables/cache.ts:186`) is taken as the parameter `auth` in the same way, and its cache writes are left to the caller in the same way.
- CacheStore.ResolutionCache.SettleAccountSearch and CacheStore.ResolutionCache.SettleAuthoritativeFetch: a handle that does not normalise, which `extractAccountWebfinger(...)!` (`composables/cache.ts:505` and `:413`) would store as `null` in the account's `acct`, is stored as the empty text `""`.
- CacheStore.ResolutionCache.SettleAuthoritativeFetch: the response body arrives as a typed status, so `changeKeysToCamelCase(parsedPost)` (`composables/cache.ts:411`) is not applied to it here. That renaming is modelled on JSON documents by `Normalize.TransformJson` and its lemmas.
- The normaliser is a parameter of the cache lemmas that do not depend on its definition. The program's normaliser, `Normalize.ExtractAccountWebfinger`, is plugged in by the constructor and by `CachedAccountFoundByEveryForm`.
- A rejected request in the promise chains of `fetchStatus` and `fetchAccountById` leaves the rejected promise cached. This is modelled as the entry staying `Pending`.
- Statuses and accounts share the cache as tagged values. The untyped reads of the source, where an account could be read back as a status, are not modelled.
- Object identity and aliasing are not modelled in general. Cached statuses and shown statuses are values, so the source's in-place writes to a status shared with the cache are not captured. The one sharing the status actions depend on, `status` and `_status` becoming one object after a settled action, is tracked by `StatusView.shared`.
- `Object.entries` enumeration order is modelled as the order of the entries list. Integer-like keys, which JavaScript enumerates first, are not distinguished.
- The extra federated-timeline filters (`applyExtraFilters = true`, `composables/timeline.ts:16-37`) are not modelled. Every caller in the source uses the default `false`.
- Feeds.IsNewAccount and Feeds.PostsPerDayAbove use integer milliseconds. Floating-point rounding and a `NaN` creation date are not modelled.
- `onlyFamiliarAccounts` (`composables/discovery/feeds.ts:55-62`) reads relationships filled in by a promise that has not resolved when it looks. It is modelled as always false.
- The user's browser language and the current time are parameters of the feed predicates.
- Feeds.PublicTimelineFeed, Feeds.CachingFeed and Feeds.EnrichmentFeed state the exact transform lists. They do not state what the feeds accept; that is left to FeedConjunction and GlobalIsCachedAndEnriched.
- `parseAccountWebfingerRoute` (`composables/masto/account.ts:34-39`) only pairs the current server with `AcctFromPerspective`. It is not modelled separately.
- The `isLoading` flags of the status actions are not modelled.
- The status actions' watcher, which refetches when the target becomes visible (`composables/masto/status.ts:19-53`), is not modelled.
- `toggleReblog`'s unwrapping of `res.reblog!` (`composables/masto/status.ts:126-136`) is not modelled. The server's answer is a parameter.
- The login check is a boolean parameter.
- The notification and conversation handlers of the paginator (`composables/paginator.ts:57-88`) are not modelled. They search the queue by the event's own id and enqueue only events with a `type`, which the status stream never delivers.
- `preprocess`, `isProcessableItem` and `isCacheable` are parameters of the paginator, and exceptions thrown by `preprocess` are not modelled.
- The truthiness filter `filter(_ => !!_)` keeps every status, since statuses are objects.
- Element bounding, `nextTick` and the scroll watcher of the paginator are not modelled.
- `loadNext` is split into `StartLoading` and `FinishLoading` around the awaited page.
- Quote.DiffStyleHolds and Quote.GetDiffStyle require a style that lists each property once, as a `CSSStyleDeclaration` does. Map insertion order is not modelled; the diff is a map.
- `toLowerCase` is modelled on ASCII letters only.
- The rest of `composables/quote.ts`, the SVG screenshot pipeline that `getDiffStyle` serves, is not modelled.
- `content-render.ts`, `trends.ts`, `conversation.ts`, `notification.ts` and `settings/definition.ts` are not part of this model.

## Findings

| source | as written | input that shows it | evidently intended | confidence | as-written member | corrected member |
|---|---|---|---|---|---|---|
| composables/timeline.ts:66-70 | The run scan is bounded by `items.length`, the unfiltered input, but reads `newItems`, the filtered list. | Four statuses whose last is hidden: the third answers the first, and the second answers neither. The scan reads `newItems[3]`, which is `undefined`, and throws. | The scan should stop at `newItems.length - 1`. | high, not executed | Timeline.RunEndAsWritten | Timeline.RunEnd |
| composables/masto/account.ts:25-28 | The first `@<currentServer>` is removed anywhere in `username@host`. | An account on `example.com.au` seen from `example.com` gives `user.au`. | The host should be dropped only when it equals the current server. | high, not executed | AccountHandles.AcctOfExtendedHost | AccountHandles.AcctFromPerspectiveFixed |
| composables/masto/account.ts:20-23 | The first `@<server>` is removed anywhere in `@username@host`. | `@user@example.com.au` seen from `example.com` gives `@user.au`. | The result should be `@username` for the user's own server and `@username@host` otherwise. | high, not executed | AccountHandles.FullHandleOfExtendedHost | AccountHandles.FullHandleFixed |
| composables/masto/status.ts:97 | `cacheStatus(newStatus, true)` passes `true` as the server parameter, so the key begins `true:`. Line 100 passes `true` again, and line 116 passes `false`, giving the key prefix `false:`. | Any toggle: the status is cached under `true:<user>:status:<id>`, which no lookup reads. | `cacheStatus(status, server, override)`: the status cached under the session's key. | high, not executed | StatusActions.PositionalKeyNeverRead | StatusActions.StatusView.ToggleStatusAction |
| composables/paginator.ts:93-96 | `await cacheStatus(aStatus)` is `undefined` because `cacheStatus` returns nothing. The search callback then reads `undefined.id` and throws. | A `status.update` event for a shown, cacheable status. | The status should be cached and the shown copy replaced by it. | high, not executed | Paginator.EditOfShownStatusLost | Paginator.Buffered.OnStatusUpdate |
