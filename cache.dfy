/** The resolution cache of composables/cache.ts: an LRU map from text keys
    to resolved statuses and accounts, in-flight requests, remembered HTTP
    error codes and `null`, and the six resolvers that consult it before
    asking a server.

    A resolver is split in two. Its start (`FetchStatus`, ...) makes the
    synchronous decisions: the `stop:` check, the redirects between
    resolvers, the cache lookup, and the `Pending` placeholder written under
    the request's key. Its settle (`SettleStatusFetch`, ...) is what the
    promise chain does once the network answers; the answer is a parameter. */
module CacheStore {
  import opened JsText
  import opened Optional
  import opened Mastodon
  import opened Normalize

  // ---------------------------------------------------------------------------
  // Entries and keys
  // ---------------------------------------------------------------------------

  datatype Value = StatusValue(status: Status) | AccountValue(account: Account) {
    /** `cached.id`: statuses and accounts both have one. */
    function Id(): string {
      match this
      case StatusValue(st) => st.id
      case AccountValue(a) => a.id
    }
  }

  /** What the cache may hold under a key: a value, the promise of a request
      still in flight, a remembered HTTP status code, or `null`. */
  datatype Entry = Resolved(value: Value) | Pending | Negative(code: int) | NullEntry

  /** The signed-in context the keys are built from: `currentServer` and the
      id of `currentUser`'s account, which is `undefined` when signed out. */
  datatype Session = Session(server: string, userId: Option<string>)

  /** `${currentUser.value?.account.id}` inside a template literal. */
  function UserText(s: Session): string {
    s.userId.GetOr("undefined")
  }

  predicate NoColon(t: string) {
    forall i :: 0 <= i < |t| ==> t[i] != ':'
  }

  /** A host name and an account id hold no `:`, and no host is called `stop`. */
  predicate ValidSession(s: Session) {
    NoColon(s.server) && s.server != "stop" && NoColon(UserText(s))
  }

  /** The key that marks an identifier as invalid for good. */
  function StopKey(x: string): string { "stop:" + x }

  /** `generateStatusIdCacheKeyAccessibleToCurrentUser`. */
  function StatusIdKey(s: Session, id: string): string {
    s.server + ":" + UserText(s) + ":status:" + id
  }

  /** `generateAuthoritativeStatusCacheKey`. */
  function AuthoritativeStatusKey(s: Session, uri: string): string {
    s.server + ":status:" + uri
  }

  /** `generateAccountIdCacheKey`. */
  function AccountIdKey(s: Session, id: string): string {
    s.server + ":" + UserText(s) + ":account:" + id
  }

  /** A webfinger normaliser: `extractAccountWebfinger(input, server)`. The
      resolvers take it as a value so that their proofs need not look inside
      it; the cache object is built with `ExtractAccountWebfinger`. */
  type Normalizer = (string, string) -> Option<string>

  /** `generateAccountWebfingerCacheKeyAccessibleToCurrentUser`: the input is
      normalised again, and a falsy normal form gives the `null` key. */
  function WebfingerKey(norm: Normalizer, s: Session, input: string): (k: Option<string>)
    ensures k.Some? <==> (norm(input, s.server).Some? && norm(input, s.server).value != "")
    ensures k.Some? ==> k.value == AccountIdKey(s, norm(input, s.server).value)
  {
    var wf := norm(input, s.server);
    if wf.None? || wf.value == "" then None else Some(AccountIdKey(s, wf.value))
  }

  /** JavaScript's `null` used as a key. No other key is empty: every
      generated key holds a `:`, and a raw `acct` key is a non-empty handle. */
  const NullKey: string := ""

  function KeyOrNull(k: Option<string>): string { k.GetOr(NullKey) }

  function Get(m: map<string, Entry>, k: string): Option<Entry> {
    if k in m then Some(m[k]) else None
  }

  /** `setCached(key, value, override)`: without `override`, a key already
      present (even holding `null`) keeps its entry. */
  function Written(m: map<string, Entry>, k: string, v: Entry, override: bool): (r: map<string, Entry>)
    ensures k in r && r[k] == (if override || k !in m then v else m[k])
    ensures r.Keys == m.Keys + {k}
    ensures forall j :: j in m && j != k ==> r[j] == m[j]
  {
    if override || k !in m then m[k := v] else m
  }

  /** Without `override` the first write wins. */
  lemma FirstWriteWins(m: map<string, Entry>, k: string, v: Entry, w: Entry)
    ensures Written(Written(m, k, v, false), k, w, false) == Written(m, k, v, false)
    ensures Written(m, k, v, false)[k] == (if k in m then m[k] else v)
  {
  }

  /** The position of the first `:` of `a:b` when `a` has none. */
  lemma FirstColon(a: string, b: string)
    requires NoColon(a)
    ensures IndexOf(a + ":" + b, ":") == |a|
  {
    var t := a + ":" + b;
    assert t[|a|..|a| + 1] == ":";
    forall j | 0 <= j < |a| ensures !OccursAt(t, ":", j) {
      assert t[j..j + 1][0] == t[j] == a[j];
    }
    IndexOfIs(t, ":", |a|);
  }

  /** A `stop:` key never collides with a key that starts with the server name. */
  lemma StopKeyNotSessionKey(s: Session, x: string, rest: string)
    requires ValidSession(s)
    ensures StopKey(x) != s.server + ":" + rest
  {
    FirstColon("stop", x);
    FirstColon(s.server, rest);
    assert StopKey(x) == "stop" + ":" + x;
    assert (s.server + ":" + rest)[..|s.server|] == s.server;
    assert StopKey(x)[..4] == "stop";
  }

  /** The keys the status resolvers write are not `stop:` keys. */
  lemma StopKeysApart(s: Session, x: string, y: string)
    requires ValidSession(s)
    ensures StopKey(x) != StatusIdKey(s, y)
    ensures StopKey(x) != AuthoritativeStatusKey(s, y)
  {
    assert StatusIdKey(s, y) == s.server + ":" + (UserText(s) + ":status:" + y);
    StopKeyNotSessionKey(s, x, UserText(s) + ":status:" + y);
    assert AuthoritativeStatusKey(s, y) == s.server + ":" + ("status:" + y);
    StopKeyNotSessionKey(s, x, "status:" + y);
  }

  /** Status keys name one status each, and never an account. */
  lemma StatusKeysDistinct(s: Session, a: string, b: string)
    ensures StatusIdKey(s, a) == StatusIdKey(s, b) ==> a == b
    ensures StatusIdKey(s, a) != AccountIdKey(s, b)
    ensures AccountIdKey(s, a) == AccountIdKey(s, b) ==> a == b
  {
    var p := s.server + ":" + UserText(s) + ":";
    assert StatusIdKey(s, a) == p + ("status:" + a);
    assert StatusIdKey(s, b) == p + ("status:" + b);
    assert AccountIdKey(s, a) == p + ("account:" + a);
    assert AccountIdKey(s, b) == p + ("account:" + b);
    assert StatusIdKey(s, a)[|p|] == 's' && AccountIdKey(s, b)[|p|] == 'a';
    if StatusIdKey(s, a) == StatusIdKey(s, b) {
      assert a == StatusIdKey(s, a)[|p| + 7..];
    }
    if AccountIdKey(s, a) == AccountIdKey(s, b) {
      assert a == AccountIdKey(s, a)[|p| + 8..];
    }
  }

  // ---------------------------------------------------------------------------
  // Resolutions and lookups
  // ---------------------------------------------------------------------------

  /** The request a resolver starts, with what its settle needs. */
  datatype Request =
    | StatusFetch(key: string, id: string, enrich: bool)
    | StatusSearch(key: string, uri: string, enrich: bool)
    | AuthoritativeFetch(key: string, uri: string)
    | AccountSearch(key: string, webfinger: string)
    | AccountFetch(key: string, id: string)
    | AccountLookup(key: string, webfinger: string)

  /** What a resolver's promise settles to, as far as the start decides it:
      a cached value, `null`, the promise already cached under `key`, or a
      new request. */
  datatype Resolution = Hit(value: Value) | NoResult | Joined(key: string) | Started(request: Request)

  /** The outcome of consulting the cache: answer now, or go to the network. */
  datatype Decision = Answer(resolution: Resolution) | Fetch

  /** The codes for which `fetchStatus` waits for the entry to expire. */
  predicate StatusIdSuppressed(c: int) {
    c in {401, 403, 404, 418, 429, 500, 501, 503}
  }

  /** The account resolvers' rule: a refusal or rate limit always holds; a
      missing account or an unresponsive server holds unless `force`. */
  predicate AccountCodeSuppresses(c: int, force: bool) {
    c in {401, 403, 418, 429} || (!force && c in {404, 500, 501, 503})
  }

  /** The lookup of `fetchStatus`. */
  function StatusIdLookup(key: string, e: Option<Entry>, id: string, force: bool): Decision {
    match e
    case None => Fetch
    case Some(Pending) => Answer(Joined(key))
    case Some(NullEntry) => Fetch
    case Some(Negative(c)) => if StatusIdSuppressed(c) then Answer(NoResult) else Fetch
    case Some(Resolved(v)) => if v.Id() == id && !force then Answer(Hit(v)) else Fetch
  }

  /** The lookup of `federateRemoteStatus` and `fetchAuthoritativeStatus`:
      any remembered code (zero is falsy) gives `null`. */
  function StatusUriLookup(key: string, e: Option<Entry>, uri: string, force: bool): Decision {
    match e
    case None => Fetch
    case Some(Pending) => Answer(Joined(key))
    case Some(NullEntry) => Fetch
    case Some(Negative(c)) => if c != 0 then Answer(NoResult) else Fetch
    case Some(Resolved(v)) =>
      if v.StatusValue? && v.status.uri == uri && !force then Answer(Hit(v)) else Fetch
  }

  /** The lookup of `federateRemoteAccount`. */
  function RemoteAccountLookup(key: string, e: Option<Entry>, webfinger: string, force: bool): Decision {
    match e
    case None => Fetch
    case Some(Pending) => Answer(Joined(key))
    case Some(NullEntry) => Fetch
    case Some(Negative(c)) => if AccountCodeSuppresses(c, force) then Answer(NoResult) else Fetch
    case Some(Resolved(v)) =>
      if v.AccountValue? && v.account.acct == webfinger && !force then Answer(Hit(v)) else Fetch
  }

  /** The lookup of `fetchAccountById`: only an account served by the
      current server is trusted. */
  function AccountIdLookup(key: string, e: Option<Entry>, id: string, server: string, force: bool): Decision {
    match e
    case None => Fetch
    case Some(Pending) => Answer(Joined(key))
    case Some(NullEntry) => Fetch
    case Some(Negative(c)) => if AccountCodeSuppresses(c, force) then Answer(NoResult) else Fetch
    case Some(Resolved(v)) =>
      if v.AccountValue? && v.account.id == id && !force && Contains(v.account.url, server)
      then Answer(Hit(v)) else Fetch
  }

  /** The lookup of `fetchAccountByHandle`; `Fetch` here means "go on to the
      routing decision". */
  function HandleLookup(key: string, e: Option<Entry>, webfinger: string, server: string, force: bool): Decision {
    match e
    case None => Fetch
    case Some(Pending) => Answer(Joined(key))
    case Some(NullEntry) => Fetch
    case Some(Negative(c)) => if AccountCodeSuppresses(c, force) then Answer(NoResult) else Fetch
    case Some(Resolved(v)) =>
      if v.AccountValue? && v.account.acct == webfinger && !force && Contains(v.account.url, server)
      then Answer(Hit(v)) else Fetch
  }

  /** No lookup starts a second request while one is in flight, whatever `force` says. */
  lemma PendingJoins(key: string, x: string, server: string, force: bool)
    ensures StatusIdLookup(key, Some(Pending), x, force) == Answer(Joined(key))
    ensures StatusUriLookup(key, Some(Pending), x, force) == Answer(Joined(key))
    ensures RemoteAccountLookup(key, Some(Pending), x, force) == Answer(Joined(key))
    ensures AccountIdLookup(key, Some(Pending), x, server, force) == Answer(Joined(key))
    ensures HandleLookup(key, Some(Pending), x, server, force) == Answer(Joined(key))
  {
  }

  /** `force` never returns a cached value. */
  lemma ForceNeverHits(key: string, e: Option<Entry>, x: string, server: string)
    ensures !(StatusIdLookup(key, e, x, true).Answer? && StatusIdLookup(key, e, x, true).resolution.Hit?)
    ensures !(StatusUriLookup(key, e, x, true).Answer? && StatusUriLookup(key, e, x, true).resolution.Hit?)
    ensures !(RemoteAccountLookup(key, e, x, true).Answer? && RemoteAccountLookup(key, e, x, true).resolution.Hit?)
    ensures !(AccountIdLookup(key, e, x, server, true).Answer? && AccountIdLookup(key, e, x, server, true).resolution.Hit?)
    ensures !(HandleLookup(key, e, x, server, true).Answer? && HandleLookup(key, e, x, server, true).resolution.Hit?)
  {
  }

  // ---------------------------------------------------------------------------
  // The starts, as functions of the cache
  // ---------------------------------------------------------------------------

  /** The result of a start and the cache after it. */
  datatype Step = Step(result: Resolution, entries: map<string, Entry>)

  /** The redirect order: an id starting with `h` goes on to the URI resolver. */
  function FetchRank(id: string): nat {
    if StartsWith(id, "h") then 2 else 0
  }

  lemma NumericRank(x: string)
    requires IsNumeric(x)
    ensures FetchRank(x) == 0
  {
    assert IsDigit(x[0]);
    assert x[..1][0] == x[0];
  }

  /** The start of `fetchStatus(statusId, force, enrich)`. */
  function FetchStatusStep(m: map<string, Entry>, s: Session, id: string, force: bool, enrich: bool): Step
    decreases |id|, FetchRank(id)
  {
    if StopKey(id) in m then Step(NoResult, m)
    else if StartsWith(id, "h") then FederateStatusStep(m, s, id, force, false)
    else if !IsNumeric(id) then Step(NoResult, m[StopKey(id) := Negative(418)])
    else
      var key := StatusIdKey(s, id);
      match StatusIdLookup(key, Get(m, key), id, force)
      case Answer(r) => Step(r, m)
      case Fetch => Step(Started(StatusFetch(key, id, enrich)), m[key := Pending])
  }

  /** The start of `federateRemoteStatus(statusUri, force, enrich)`. */
  function FederateStatusStep(m: map<string, Entry>, s: Session, uri: string, force: bool, enrich: bool): Step
    decreases |uri|, 1
  {
    if StopKey(uri) in m then Step(NoResult, m)
    else if StartsWith(uri, "https://" + s.server) then
      assert uri[..|"https://" + s.server|][6] == '/';
      FetchStatusStep(m, s, AfterLast(uri, '/'), false, false)
    else if IsNumeric(uri) then
      NumericRank(uri);
      FetchStatusStep(m, s, uri, force, false)
    else
      var key := StatusIdKey(s, uri);
      match StatusUriLookup(key, Get(m, key), uri, force)
      case Answer(r) => Step(r, m)
      case Fetch => Step(Started(StatusSearch(key, uri, enrich)), m[key := Pending])
  }

  /** `statusUri.replace('https://', '').split('/')`. */
  function UriSegments(uri: string): (parts: seq<string>)
    ensures |parts| >= 1
    ensures |parts| >= 2 ==> forall i :: 0 <= i < |parts| ==> |parts[i]| < |uri|
  {
    Split(ReplaceFirst(uri, "https://", ""), "/")
  }

  /** The start of `fetchAuthoritativeStatus(statusUri, force)`. */
  function AuthoritativeStatusStep(m: map<string, Entry>, s: Session, uri: string, force: bool): Step
    decreases |uri|, 1
  {
    if StopKey(uri) in m then Step(NoResult, m)
    else if IsNumeric(uri) then
      NumericRank(uri);
      FetchStatusStep(m, s, uri, force, false)
    else
      var parts := UriSegments(uri);
      if !StartsWith(uri, "https://") || |parts| < 3 then Step(NoResult, m[StopKey(uri) := Negative(418)])
      else if parts[0] == s.server then FetchStatusStep(m, s, parts[|parts| - 1], false, false)
      else
        var key := AuthoritativeStatusKey(s, uri);
        match StatusUriLookup(key, Get(m, key), uri, force)
        case Answer(r) => Step(r, m)
        case Fetch => Step(Started(AuthoritativeFetch(key, uri)), m[key := Pending])
  }

  /** Two `fetchStatus` calls for the same id while the first one's request
      is in flight share that request, whatever their flags: the second
      joins the promise the first cached. The first only writes the
      placeholder, under a status id key. */
  lemma {:induction false} FetchStatusJoins(m: map<string, Entry>, s: Session, id: string,
                                            f1: bool, e1: bool, f2: bool, e2: bool)
    requires ValidSession(s)
    requires FetchStatusStep(m, s, id, f1, e1).result.Started?
    ensures var st := FetchStatusStep(m, s, id, f1, e1);
      && st.entries == m[st.result.request.key := Pending]
      && (exists x :: st.result.request.key == StatusIdKey(s, x))
      && FetchStatusStep(st.entries, s, id, f2, e2) == Step(Joined(st.result.request.key), st.entries)
    decreases |id|, FetchRank(id)
  {
    if StartsWith(id, "h") {
      FederateStatusJoins(m, s, id, f1, false, f2, false);
      var st := FederateStatusStep(m, s, id, f1, false);
      var x :| st.result.request.key == StatusIdKey(s, x);
      StopKeysApart(s, id, x);
    } else {
      StopKeysApart(s, id, id);
    }
  }

  /** The same for `federateRemoteStatus`, through its redirects to `fetchStatus`. */
  lemma {:induction false} FederateStatusJoins(m: map<string, Entry>, s: Session, uri: string,
                                               f1: bool, e1: bool, f2: bool, e2: bool)
    requires ValidSession(s)
    requires FederateStatusStep(m, s, uri, f1, e1).result.Started?
    ensures var st := FederateStatusStep(m, s, uri, f1, e1);
      && st.entries == m[st.result.request.key := Pending]
      && (exists x :: st.result.request.key == StatusIdKey(s, x))
      && FederateStatusStep(st.entries, s, uri, f2, e2) == Step(Joined(st.result.request.key), st.entries)
    decreases |uri|, 1
  {
    if StartsWith(uri, "https://" + s.server) {
      assert uri[..|"https://" + s.server|][6] == '/';
      var last := AfterLast(uri, '/');
      FetchStatusJoins(m, s, last, false, false, false, false);
      var st := FetchStatusStep(m, s, last, false, false);
      var x :| st.result.request.key == StatusIdKey(s, x);
      StopKeysApart(s, uri, x);
    } else if IsNumeric(uri) {
      NumericRank(uri);
      FetchStatusJoins(m, s, uri, f1, false, f2, false);
      var st := FetchStatusStep(m, s, uri, f1, false);
      var x :| st.result.request.key == StatusIdKey(s, x);
      StopKeysApart(s, uri, x);
    } else {
      StopKeysApart(s, uri, uri);
    }
  }

  /** The same for `fetchAuthoritativeStatus`. */
  lemma AuthoritativeStatusJoins(m: map<string, Entry>, s: Session, uri: string, f1: bool, f2: bool)
    requires ValidSession(s)
    requires AuthoritativeStatusStep(m, s, uri, f1).result.Started?
    ensures var st := AuthoritativeStatusStep(m, s, uri, f1);
      && st.entries == m[st.result.request.key := Pending]
      && AuthoritativeStatusStep(st.entries, s, uri, f2) == Step(Joined(st.result.request.key), st.entries)
  {
    if IsNumeric(uri) {
      AuthoritativeNumericJoins(m, s, uri, f1, f2);
    } else {
      var parts := UriSegments(uri);
      if StartsWith(uri, "https://") && |parts| >= 3 {
        if parts[0] == s.server {
          AuthoritativeLocalJoins(m, s, uri, f1, f2);
        } else {
          AuthoritativeRemoteJoins(m, s, uri, f1, f2);
        }
      }
    }
  }

  /** The remote branch: the placeholder goes under the authoritative key,
      which the second call finds before any stop key. */
  lemma AuthoritativeRemoteJoins(m: map<string, Entry>, s: Session, uri: string, f1: bool, f2: bool)
    requires ValidSession(s) && !IsNumeric(uri)
    requires StartsWith(uri, "https://") && |UriSegments(uri)| >= 3 && UriSegments(uri)[0] != s.server
    requires AuthoritativeStatusStep(m, s, uri, f1).result.Started?
    ensures var st := AuthoritativeStatusStep(m, s, uri, f1);
      && st.entries == m[st.result.request.key := Pending]
      && AuthoritativeStatusStep(st.entries, s, uri, f2) == Step(Joined(st.result.request.key), st.entries)
  {
    var key := AuthoritativeStatusKey(s, uri);
    StopKeysApart(s, uri, uri);
    assert AuthoritativeStatusStep(m, s, uri, f1) == Step(Started(AuthoritativeFetch(key, uri)), m[key := Pending]);
  }

  /** The numeric branch: a status id goes to `fetchStatus`. */
  lemma AuthoritativeNumericJoins(m: map<string, Entry>, s: Session, uri: string, f1: bool, f2: bool)
    requires ValidSession(s) && IsNumeric(uri)
    requires AuthoritativeStatusStep(m, s, uri, f1).result.Started?
    ensures var st := AuthoritativeStatusStep(m, s, uri, f1);
      && st.entries == m[st.result.request.key := Pending]
      && AuthoritativeStatusStep(st.entries, s, uri, f2) == Step(Joined(st.result.request.key), st.entries)
  {
    NumericRank(uri);
    FetchStatusJoins(m, s, uri, f1, false, f2, false);
    var st := FetchStatusStep(m, s, uri, f1, false);
    var x :| st.result.request.key == StatusIdKey(s, x);
    StopKeysApart(s, uri, x);
  }

  /** The local branch: a URL on the user's own server goes to `fetchStatus`
      with its last segment. */
  lemma AuthoritativeLocalJoins(m: map<string, Entry>, s: Session, uri: string, f1: bool, f2: bool)
    requires ValidSession(s) && !IsNumeric(uri)
    requires StartsWith(uri, "https://") && |UriSegments(uri)| >= 3 && UriSegments(uri)[0] == s.server
    requires AuthoritativeStatusStep(m, s, uri, f1).result.Started?
    ensures var st := AuthoritativeStatusStep(m, s, uri, f1);
      && st.entries == m[st.result.request.key := Pending]
      && AuthoritativeStatusStep(st.entries, s, uri, f2) == Step(Joined(st.result.request.key), st.entries)
  {
    var parts := UriSegments(uri);
    var last := parts[|parts| - 1];
    FetchStatusJoins(m, s, last, false, false, false, false);
    var st := FetchStatusStep(m, s, last, false, false);
    var x :| st.result.request.key == StatusIdKey(s, x);
    StopKeysApart(s, uri, x);
  }

  /** A status cached under its id is served from the cache by `fetchStatus`
      until a forced fetch, which starts a new request. */
  lemma CachedStatusServed(m: map<string, Entry>, s: Session, id: string, p: Status, enrich: bool)
    requires StopKey(id) !in m && IsNumeric(id) && p.id == id
    requires Get(m, StatusIdKey(s, id)) == Some(Resolved(StatusValue(p)))
    ensures FetchStatusStep(m, s, id, false, enrich) == Step(Hit(StatusValue(p)), m)
    ensures FetchStatusStep(m, s, id, true, enrich) ==
      Step(Started(StatusFetch(StatusIdKey(s, id), id, enrich)), m[StatusIdKey(s, id) := Pending])
  {
    NumericRank(id);
  }

  /** A `stop:` mark ends every status resolver at once with `null`, and
      leaves the cache as it is. */
  lemma StopMarkHolds(m: map<string, Entry>, s: Session, x: string, force: bool, enrich: bool)
    requires StopKey(x) in m
    ensures FetchStatusStep(m, s, x, force, enrich) == Step(NoResult, m)
    ensures FederateStatusStep(m, s, x, force, enrich) == Step(NoResult, m)
    ensures AuthoritativeStatusStep(m, s, x, force) == Step(NoResult, m)
  {
  }

  /** An id that is neither numeric nor a URI is marked `stop:` with the
      code 418, and from then on every `fetchStatus` for it gives `null`
      without touching the cache. */
  lemma InvalidIdStopped(m: map<string, Entry>, s: Session, id: string, f1: bool, e1: bool, f2: bool, e2: bool)
    requires StopKey(id) !in m && !StartsWith(id, "h") && !IsNumeric(id)
    ensures var m' := m[StopKey(id) := Negative(418)];
      FetchStatusStep(m, s, id, f1, e1) == Step(NoResult, m')
      && FetchStatusStep(m', s, id, f2, e2) == Step(NoResult, m')
  {
  }

  /** A code remembered under a status id: `fetchStatus` gives `null` for a
      suppressing code whatever `force` says, and asks the server again
      for any other code. */
  lemma StatusCodeObeyed(m: map<string, Entry>, s: Session, id: string, c: int, force: bool, enrich: bool)
    requires StopKey(id) !in m && IsNumeric(id)
    requires Get(m, StatusIdKey(s, id)) == Some(Negative(c))
    ensures var key := StatusIdKey(s, id);
      FetchStatusStep(m, s, id, force, enrich) ==
        if StatusIdSuppressed(c) then Step(NoResult, m)
        else Step(Started(StatusFetch(key, id, enrich)), m[key := Pending])
  {
    NumericRank(id);
  }

  /** The account resolvers hand some requests on to each other: a start
      either finishes or redirects to the other resolver with a handle. */
  datatype AccountStart = Done(step: Step) | Redirect(webfinger: string)

  /** The start of `federateRemoteAccount(webfingerOrUriOrUrl, force)`: a
      handle on the current server is handed to `fetchAccountByHandle`. */
  function FederateAccountStart(m: map<string, Entry>, s: Session, norm: Normalizer, input: string, force: bool): AccountStart {
    var wf := norm(input, s.server);
    if wf.None? || wf.value == "" then Done(Step(NoResult, m))
    else if Contains(wf.value, s.server) then Redirect(wf.value)
    else
      var key := KeyOrNull(WebfingerKey(norm, s, wf.value));
      match RemoteAccountLookup(key, Get(m, key), wf.value, force)
      case Answer(r) => Done(Step(r, m))
      case Fetch => Done(Step(Started(AccountSearch(key, wf.value)), m[key := Pending]))
  }

  /** The start of `fetchAccountByHandle(str, force)`; `None` is a missing
      argument. A handle on another server that the cache does not answer
      is handed to `federateRemoteAccount`. */
  function AccountByHandleStart(m: map<string, Entry>, s: Session, norm: Normalizer, str: Option<string>, force: bool): AccountStart {
    if str.None? || IsBlank(str.value) then Done(Step(NoResult, m))
    else
      var wf := norm(str.value, s.server);
      if wf.None? || wf.value == "" then Done(Step(NoResult, m))
      else
        var key := KeyOrNull(WebfingerKey(norm, s, wf.value));
        match HandleLookup(key, Get(m, key), wf.value, s.server, force)
        case Answer(r) => Done(Step(r, m))
        case Fetch =>
          if !Contains(wf.value, s.server) then Redirect(wf.value)
          else Done(Step(Started(AccountLookup(key, wf.value)), m[key := Pending]))
  }

  /** What every start does to the cache: a new request only under a key
      with no request in flight, and that key then holds the promise; a
      joined key holds one; a hit comes out of the cache; nothing else
      changes. */
  predicate StartFrame(m: map<string, Entry>, m': map<string, Entry>, r: Resolution) {
    match r
    case Started(req) => Get(m, req.key) != Some(Pending) && m' == m[req.key := Pending]
    case Joined(k) => Get(m, k) == Some(Pending) && m' == m
    case Hit(v) => m' == m && exists k :: k in m && m[k] == Resolved(v)
    case NoResult => m' == m
  }

  /** `federateRemoteAccount` keeps the frame whenever it finishes. */
  lemma FederateStartKeepsFrame(m: map<string, Entry>, s: Session, norm: Normalizer, input: string, force: bool)
    ensures FederateAccountStart(m, s, norm, input, force).Done? ==>
      StartFrame(m, FederateAccountStart(m, s, norm, input, force).step.entries,
                 FederateAccountStart(m, s, norm, input, force).step.result)
  {
    var wf := norm(input, s.server);
    if wf.Some? && wf.value != "" && !Contains(wf.value, s.server) {
      var key := KeyOrNull(WebfingerKey(norm, s, wf.value));
      var d := RemoteAccountLookup(key, Get(m, key), wf.value, force);
      assert d.Answer? && d.resolution.Hit? ==> key in m && m[key] == Resolved(d.resolution.value);
    }
  }

  /** `fetchAccountByHandle` keeps the frame whenever it finishes. */
  lemma HandleStartKeepsFrame(m: map<string, Entry>, s: Session, norm: Normalizer, str: Option<string>, force: bool)
    ensures AccountByHandleStart(m, s, norm, str, force).Done? ==>
      StartFrame(m, AccountByHandleStart(m, s, norm, str, force).step.entries,
                 AccountByHandleStart(m, s, norm, str, force).step.result)
  {
    if str.Some? && !IsBlank(str.value) {
      var wf := norm(str.value, s.server);
      if wf.Some? && wf.value != "" {
        var key := KeyOrNull(WebfingerKey(norm, s, wf.value));
        var d := HandleLookup(key, Get(m, key), wf.value, s.server, force);
        assert d.Answer? && d.resolution.Hit? ==> key in m && m[key] == Resolved(d.resolution.value);
      }
    }
  }

  /** `fetchAccountById` keeps the frame. */
  lemma ByIdStartKeepsFrame(m: map<string, Entry>, s: Session, id: Option<string>, force: bool)
    ensures StartFrame(m, AccountByIdStep(m, s, id, force).entries, AccountByIdStep(m, s, id, force).result)
  {
  }

  /** A second `federateRemoteAccount` for the same input while the first
      one's search is in flight joins it. */
  lemma FederateAccountJoins(m: map<string, Entry>, s: Session, norm: Normalizer, input: string, f1: bool, f2: bool)
    requires FederateAccountStart(m, s, norm, input, f1).Done?
    requires FederateAccountStart(m, s, norm, input, f1).step.result.Started?
    ensures var st := FederateAccountStart(m, s, norm, input, f1).step;
      FederateAccountStart(st.entries, s, norm, input, f2) == Done(Step(Joined(st.result.request.key), st.entries))
  {
  }

  /** The same for `fetchAccountByHandle`. */
  lemma HandleAccountJoins(m: map<string, Entry>, s: Session, norm: Normalizer, str: Option<string>, f1: bool, f2: bool)
    requires AccountByHandleStart(m, s, norm, str, f1).Done?
    requires AccountByHandleStart(m, s, norm, str, f1).step.result.Started?
    ensures var st := AccountByHandleStart(m, s, norm, str, f1).step;
      AccountByHandleStart(st.entries, s, norm, str, f2) == Done(Step(Joined(st.result.request.key), st.entries))
  {
  }

  /** The same for `fetchAccountById`. */
  lemma AccountByIdJoins(m: map<string, Entry>, s: Session, id: Option<string>, f1: bool, f2: bool)
    requires AccountByIdStep(m, s, id, f1).result.Started?
    ensures var st := AccountByIdStep(m, s, id, f1);
      AccountByIdStep(st.entries, s, id, f2) == Step(Joined(st.result.request.key), st.entries)
  {
  }

  /** An account cached with `cacheAccount` is served by
      `federateRemoteAccount` for any input that normalises to its handle,
      when the normaliser keeps that handle as it is. */
  lemma CachedAccountFederated(m: map<string, Entry>, s: Session, norm: Normalizer, a: Account, input: string)
    requires norm(a.url, s.server) == Some(a.acct) && norm(input, s.server) == Some(a.acct)
    requires norm(a.acct, s.server) == Some(a.acct)
    requires a.acct != "" && !Contains(a.acct, s.server)
    ensures var m' := Written(Written(m, AccountIdKey(s, a.id), Resolved(AccountValue(a)), true),
                              KeyOrNull(WebfingerKey(norm, s, a.url)), Resolved(AccountValue(a)), true);
      FederateAccountStart(m', s, norm, input, false) == Done(Step(Hit(AccountValue(a)), m'))
  {
  }

  /** With the normaliser of the program: an account cached from its
      profile URL `https://h/@u` is found again from that URL, from the
      `https://h/users/u` form and from the handle `u@h`. */
  lemma CachedAccountFoundByEveryForm(m: map<string, Entry>, s: Session, a: Account, h: string, u: string, input: string)
    requires |h| > 0 && |u| > 0 && h != "tags"
    requires forall j :: 0 <= j < |h| ==> IsHostChar(h[j])
    requires AllWord(u) && IsHandleShape(u + "@" + h)
    requires a.url == "https://" + h + "/@" + u && a.acct == u + "@" + h
    requires input == a.url || input == "https://" + h + "/users/" + u || input == a.acct
    requires !Contains(a.acct, s.server)
    ensures var m' := Written(Written(m, AccountIdKey(s, a.id), Resolved(AccountValue(a)), true),
                              KeyOrNull(WebfingerKey(ExtractAccountWebfinger, s, a.url)), Resolved(AccountValue(a)), true);
      FederateAccountStart(m', s, ExtractAccountWebfinger, input, false) == Done(Step(Hit(AccountValue(a)), m'))
  {
    ProfileUrlHandle(h, u, s.server);
    UsersUrlHandle(h, u, s.server);
    HandleIsFixedPoint(a.acct, s.server);
    CachedAccountFederated(m, s, ExtractAccountWebfinger, a, input);
  }

  /** The start of `fetchAccountById(accountId, force)`; `None` is a missing argument. */
  function AccountByIdStep(m: map<string, Entry>, s: Session, id: Option<string>, force: bool): Step {
    if id.None? || IsBlank(id.value) then Step(NoResult, m)
    else
      var key := AccountIdKey(s, id.value);
      match AccountIdLookup(key, Get(m, key), id.value, s.server, force)
      case Answer(r) => Step(r, m)
      case Fetch => Step(Started(AccountFetch(key, id.value)), m[key := Pending])
  }

  /** A code remembered under an account id: `fetchAccountById` gives
      `null` when the code suppresses under `force`, and otherwise asks the
      server again. */
  lemma AccountIdCodeObeyed(m: map<string, Entry>, s: Session, id: string, c: int, force: bool)
    requires !IsBlank(id)
    requires Get(m, AccountIdKey(s, id)) == Some(Negative(c))
    ensures var key := AccountIdKey(s, id);
      AccountByIdStep(m, s, Some(id), force) ==
        if AccountCodeSuppresses(c, force) then Step(NoResult, m)
        else Step(Started(AccountFetch(key, id)), m[key := Pending])
  {
  }

  /** A code remembered under a remote handle: `federateRemoteAccount`
      gives `null` when the code suppresses under `force`, and otherwise
      searches again. */
  lemma RemoteCodeObeyed(m: map<string, Entry>, s: Session, norm: Normalizer, input: string, wf: string, c: int, force: bool)
    requires norm(input, s.server) == Some(wf) && wf != "" && !Contains(wf, s.server)
    requires Get(m, KeyOrNull(WebfingerKey(norm, s, wf))) == Some(Negative(c))
    ensures var key := KeyOrNull(WebfingerKey(norm, s, wf));
      FederateAccountStart(m, s, norm, input, force) ==
        if AccountCodeSuppresses(c, force) then Done(Step(NoResult, m))
        else Done(Step(Started(AccountSearch(key, wf)), m[key := Pending]))
  {
  }

  /** A code remembered under a handle: `fetchAccountByHandle` gives `null`
      when the code suppresses under `force`; otherwise a local handle is
      looked up again and a remote one is handed to `federateRemoteAccount`. */
  lemma HandleCodeObeyed(m: map<string, Entry>, s: Session, norm: Normalizer, str: string, wf: string, c: int, force: bool)
    requires !IsBlank(str) && norm(str, s.server) == Some(wf) && wf != ""
    requires Get(m, KeyOrNull(WebfingerKey(norm, s, wf))) == Some(Negative(c))
    ensures var key := KeyOrNull(WebfingerKey(norm, s, wf));
      AccountByHandleStart(m, s, norm, Some(str), force) ==
        if AccountCodeSuppresses(c, force) then Done(Step(NoResult, m))
        else if !Contains(wf, s.server) then Redirect(wf)
        else Done(Step(Started(AccountLookup(key, wf)), m[key := Pending]))
  {
  }

  /** Under `force` the account resolvers retry a missing account and an
      unresponsive server, which they hold without it; a refusal, a rate
      limit and an invalid id hold either way. */
  lemma ForceRetriesMissing(c: int)
    ensures c in {404, 500, 501, 503} ==> !AccountCodeSuppresses(c, true) && AccountCodeSuppresses(c, false)
    ensures c in {401, 403, 418, 429} ==> AccountCodeSuppresses(c, true) && AccountCodeSuppresses(c, false)
  {
  }

  // ---------------------------------------------------------------------------
  // What the promise chains store
  // ---------------------------------------------------------------------------

  /** `${splitUri[1]}@${splitUri[0]}` with `splitUri` the profile URL without
      its scheme split at `/@`; a URL without `/@` gives `undefined@...`. */
  function AcctFromUrl(url: string): string {
    var parts := Split(ReplaceFirst(url, "https://", ""), "/@");
    (if |parts| >= 2 then parts[1] else "undefined") + "@" + parts[0]
  }

  function WithAcct(st: Status, acct: string): Status {
    st.(account := st.account.(acct := acct))
  }

  /** The post as the status resolvers rewrite it: its account's `acct`
      taken from the profile URL. */
  function Localized(post: Status): Status {
    WithAcct(post, AcctFromUrl(post.account.url))
  }

  /** The enrichment with authoritative statistics: taken only from another
      copy (a different id) of the same post (the same uri). */
  function Enrich(post: Status, auth: Option<Status>): (r: Status)
    ensures r.id == post.id && r.uri == post.uri && r.account == post.account
    ensures r == post.(reblogsCount := r.reblogsCount, repliesCount := r.repliesCount,
                       favouritesCount := r.favouritesCount)
    ensures auth.Some? && auth.value.id != post.id && auth.value.uri == post.uri ==>
      r.reblogsCount == auth.value.reblogsCount && r.repliesCount == auth.value.repliesCount
      && r.favouritesCount == auth.value.favouritesCount
    ensures !(auth.Some? && auth.value.id != post.id && auth.value.uri == post.uri) ==> r == post
  {
    if auth.Some? && auth.value.id != post.id && auth.value.uri == post.uri then
      post.(reblogsCount := auth.value.reblogsCount, repliesCount := auth.value.repliesCount,
            favouritesCount := auth.value.favouritesCount)
    else post
  }

  /** Enriching twice from the same source is enriching once. */
  lemma EnrichIdempotent(post: Status, auth: Option<Status>)
    ensures Enrich(Enrich(post, auth), auth) == Enrich(post, auth)
  {
  }

  /** The status a settled status request stores: enriched only for a
      public post when enrichment was asked for. */
  function Stored(post: Status, enrich: bool, auth: Option<Status>): Status {
    if enrich && post.visibility == Public then Enrich(post, auth) else post
  }

  /** The outcome of a search on the signed-in server. */
  datatype SearchOutcome<T> = SearchFailed | SearchEmpty | Found(item: T)

  /** The outcome of the unauthenticated fetch from the authoritative
      server: the promise rejected (network or JSON error), or a response
      with its status code and, for 200, its parsed body (`None` for `null`). */
  datatype HttpOutcome = NetworkError | Response(code: int, body: Option<Status>)

  /** The first `/@` of `h/@u` is the one after `h` when `h` has none. */
  lemma ProfileSplit(h: string, u: string)
    requires !Contains(h, "/@")
    ensures IndexOf(h + "/@" + u, "/@") == |h|
  {
    var t := h + "/@" + u;
    ContainsIff(h, "/@");
    assert t[|h|..|h| + 2] == "/@";
    forall j | 0 <= j < |h| ensures !OccursAt(t, "/@", j) {
      if j + 2 <= |h| {
        assert t[j..j + 2] == h[j..j + 2];
        assert !OccursAt(h, "/@", j);
      } else {
        assert t[j + 1] == '/';
        assert t[j..j + 2][1] == t[j + 1];
      }
    }
    IndexOfIs(t, "/@", |h|);
  }

  /** An `https://host/@user` profile URL yields `user@host`. */
  lemma AcctFromProfileUrl(h: string, u: string)
    requires !Contains(h, "/@") && !Contains(u, "/@")
    ensures AcctFromUrl("https://" + h + "/@" + u) == u + "@" + h
  {
    var t := h + "/@" + u;
    ConcatAssoc("https://", h, "/@");
    ConcatAssoc("https://", h + "/@", u);
    DropScheme(t);
    ProfileSplit(h, u);
    assert t[..|h|] == h && t[|h| + 2..] == u;
    var parts := Split(t, "/@");
    assert parts == [h] + Split(u, "/@");
    assert parts == [h, u];
  }

  /** A URL without `/@` gives the account the handle `undefined@...`. */
  lemma AcctWithoutProfilePath(url: string)
    requires !Contains(ReplaceFirst(url, "https://", ""), "/@")
    ensures AcctFromUrl(url) == "undefined@" + ReplaceFirst(url, "https://", "")
  {
  }

  // ---------------------------------------------------------------------------
  // The cache object
  // ---------------------------------------------------------------------------

  class ResolutionCache {
    var entries: map<string, Entry>
    /** The webfinger normaliser of composables/cache.ts. */
    const normalize: Normalizer

    constructor()
      ensures entries == map[] && normalize == ExtractAccountWebfinger
    {
      entries := map[];
      normalize := ExtractAccountWebfinger;
    }

    /** `setCached(key, value, override)`. */
    method SetCached(key: string, value: Entry, override: bool)
      modifies this
      ensures entries == Written(old(entries), key, value, override)
    {
      if override || key !in entries {
        entries := entries[key := value];
      }
    }

    /** `removeCached(key)`. */
    method RemoveCached(key: string)
      modifies this
      ensures entries == old(entries) - {key}
    {
      entries := entries - {key};
    }

    /** `cacheStatus(status, server, override)`, with the signed-in user's id from `s`. */
    method CacheStatus(s: Session, status: Status, override: bool)
      modifies this
      ensures entries == Written(old(entries), StatusIdKey(s, status.id), Resolved(StatusValue(status)), override)
    {
      SetCached(StatusIdKey(s, status.id), Resolved(StatusValue(status)), override);
    }

    /** `removeCachedStatus(id, server)`. */
    method RemoveCachedStatus(s: Session, id: string)
      modifies this
      ensures entries == old(entries) - {StatusIdKey(s, id)}
    {
      RemoveCached(StatusIdKey(s, id));
    }

    /** `cacheAccount(account, override)`: under its id, and under the
      normal form of its profile URL (the `null` key when it has none). */
    method CacheAccount(s: Session, account: Account, override: bool)
      modifies this
      ensures entries == Written(Written(old(entries), AccountIdKey(s, account.id), Resolved(AccountValue(account)), override),
                                 KeyOrNull(WebfingerKey(normalize, s, account.url)), Resolved(AccountValue(account)), override)
    {
      SetCached(AccountIdKey(s, account.id), Resolved(AccountValue(account)), override);
      SetCached(KeyOrNull(WebfingerKey(normalize, s, account.url)), Resolved(AccountValue(account)), override);
    }

    /** `fetchStatus(statusId, force, enrich)` up to the request. */
    method FetchStatus(s: Session, id: string, force: bool, enrich: bool) returns (r: Resolution)
      modifies this
      ensures Step(r, entries) == FetchStatusStep(old(entries), s, id, force, enrich)
      decreases |id|, FetchRank(id)
    {
      if StopKey(id) in entries {
        return NoResult;
      }
      if StartsWith(id, "h") {
        r := FederateRemoteStatus(s, id, force, false);
        return;
      }
      if !IsNumeric(id) {
        entries := entries[StopKey(id) := Negative(418)];
        return NoResult;
      }
      var key := StatusIdKey(s, id);
      var d := StatusIdLookup(key, Get(entries, key), id, force);
      if d.Answer? {
        return d.resolution;
      }
      entries := entries[key := Pending];
      r := Started(StatusFetch(key, id, enrich));
    }

    /** `federateRemoteStatus(statusUri, force, enrich)` up to the request. */
    method FederateRemoteStatus(s: Session, uri: string, force: bool, enrich: bool) returns (r: Resolution)
      modifies this
      ensures Step(r, entries) == FederateStatusStep(old(entries), s, uri, force, enrich)
      decreases |uri|, 1
    {
      if StopKey(uri) in entries {
        return NoResult;
      }
      if StartsWith(uri, "https://" + s.server) {
        assert uri[..|"https://" + s.server|][6] == '/';
        r := FetchStatus(s, AfterLast(uri, '/'), false, false);
        return;
      }
      if IsNumeric(uri) {
        NumericRank(uri);
        r := FetchStatus(s, uri, force, false);
        return;
      }
      var key := StatusIdKey(s, uri);
      var d := StatusUriLookup(key, Get(entries, key), uri, force);
      if d.Answer? {
        return d.resolution;
      }
      entries := entries[key := Pending];
      r := Started(StatusSearch(key, uri, enrich));
    }

    /** `fetchAuthoritativeStatus(statusUri, force)` up to the request. */
    method FetchAuthoritativeStatus(s: Session, uri: string, force: bool) returns (r: Resolution)
      modifies this
      ensures Step(r, entries) == AuthoritativeStatusStep(old(entries), s, uri, force)
      decreases |uri|, 1
    {
      if StopKey(uri) in entries {
        return NoResult;
      }
      if IsNumeric(uri) {
        NumericRank(uri);
        r := FetchStatus(s, uri, force, false);
        return;
      }
      var parts := UriSegments(uri);
      if !StartsWith(uri, "https://") || |parts| < 3 {
        entries := entries[StopKey(uri) := Negative(418)];
        return NoResult;
      }
      if parts[0] == s.server {
        r := FetchStatus(s, parts[|parts| - 1], false, false);
        return;
      }
      var key := AuthoritativeStatusKey(s, uri);
      var d := StatusUriLookup(key, Get(entries, key), uri, force);
      if d.Answer? {
        return d.resolution;
      }
      entries := entries[key := Pending];
      r := Started(AuthoritativeFetch(key, uri));
    }

    /** `federateRemoteAccount(webfingerOrUriOrUrl, force)` up to the request.
      `hops` bounds the redirects to and from `fetchAccountByHandle`. */
    method FederateRemoteAccount(s: Session, input: string, force: bool, hops: nat) returns (r: Resolution)
      modifies this
      ensures FederateAccountStart(old(entries), s, normalize, input, force).Done? ==>
        Step(r, entries) == FederateAccountStart(old(entries), s, normalize, input, force).step
      ensures StartFrame(old(entries), entries, r)
      decreases hops, 1
    {
      var wf := normalize(input, s.server);
      if wf.None? || wf.value == "" {
        return NoResult;
      }
      if Contains(wf.value, s.server) {
        r := FetchAccountByHandle(s, wf, force, hops);
        return;
      }
      var key := KeyOrNull(WebfingerKey(normalize, s, wf.value));
      var d := RemoteAccountLookup(key, Get(entries, key), wf.value, force);
      if d.Answer? {
        return d.resolution;
      }
      entries := entries[key := Pending];
      r := Started(AccountSearch(key, wf.value));
    }

    /** `fetchAccountByHandle(str, force)` up to the request. */
    method FetchAccountByHandle(s: Session, str: Option<string>, force: bool, hops: nat) returns (r: Resolution)
      modifies this
      ensures AccountByHandleStart(old(entries), s, normalize, str, force).Done? ==>
        Step(r, entries) == AccountByHandleStart(old(entries), s, normalize, str, force).step
      ensures StartFrame(old(entries), entries, r)
      decreases hops, 0
    {
      if str.None? || IsBlank(str.value) {
        return NoResult;
      }
      var wf := normalize(str.value, s.server);
      if wf.None? || wf.value == "" {
        return NoResult;
      }
      var key := KeyOrNull(WebfingerKey(normalize, s, wf.value));
      var d := HandleLookup(key, Get(entries, key), wf.value, s.server, force);
      if d.Answer? {
        return d.resolution;
      }
      if !Contains(wf.value, s.server) {
        if hops == 0 {
          return NoResult;
        }
        r := FederateRemoteAccount(s, wf.value, force, hops - 1);
        return;
      }
      entries := entries[key := Pending];
      r := Started(AccountLookup(key, wf.value));
    }

    /** `fetchAccountById(accountId, force)` up to the request. */
    method FetchAccountById(s: Session, id: Option<string>, force: bool) returns (r: Resolution)
      modifies this
      ensures Step(r, entries) == AccountByIdStep(old(entries), s, id, force)
    {
      if id.None? || IsBlank(id.value) {
        return NoResult;
      }
      var key := AccountIdKey(s, id.value);
      var d := AccountIdLookup(key, Get(entries, key), id.value, s.server, force);
      if d.Answer? {
        return d.resolution;
      }
      entries := entries[key := Pending];
      r := Started(AccountFetch(key, id.value));
    }

    /** The promise chain of `fetchStatus`. `fetched` is `None` when the
      request rejects: the chain has no `catch`, so the rejected promise
      stays cached. `auth` is what the nested authoritative resolution gave
      (`None` for `null` or a rejection). */
    method SettleStatusFetch(s: Session, req: Request, fetched: Option<Status>, auth: Option<Status>)
      returns (r: Option<Status>)
      requires req.StatusFetch?
      modifies this
      ensures fetched.None? ==> r == None && entries == old(entries)
      ensures fetched.Some? && StartsWith(fetched.value.uri, "https://" + s.server) ==>
        r == Some(Localized(fetched.value))
        && entries == old(entries)[req.key := Resolved(StatusValue(Localized(fetched.value)))]
                                  [AuthoritativeStatusKey(s, fetched.value.uri) := Resolved(StatusValue(Localized(fetched.value)))]
      ensures fetched.Some? && !StartsWith(fetched.value.uri, "https://" + s.server) ==>
        r == Some(Stored(Localized(fetched.value), req.enrich, auth))
        && entries == old(entries)[req.key := Resolved(StatusValue(Stored(Localized(fetched.value), req.enrich, auth)))]
    {
      if fetched.None? {
        return None;
      }
      var post := Localized(fetched.value);
      if StartsWith(post.uri, "https://" + s.server) {
        entries := entries[req.key := Resolved(StatusValue(post))];
        entries := entries[AuthoritativeStatusKey(s, post.uri) := Resolved(StatusValue(post))];
        return Some(post);
      }
      if req.enrich && post.visibility == Public {
        post := Enrich(post, auth);
      }
      entries := entries[req.key := Resolved(StatusValue(post))];
      r := Some(post);
    }

    /** The promise chain of `federateRemoteStatus`. */
    method SettleStatusSearch(req: Request, outcome: SearchOutcome<Status>, auth: Option<Status>)
      returns (r: Option<Status>)
      requires req.StatusSearch?
      modifies this
      ensures outcome.SearchFailed? ==> r == None && entries == old(entries)[req.key := NullEntry]
      ensures outcome.SearchEmpty? ==> r == None && entries == old(entries)[req.key := Negative(404)]
      ensures outcome.Found? ==>
        r == Some(Stored(Localized(outcome.item), req.enrich, auth))
        && entries == old(entries)[req.key := Resolved(StatusValue(Stored(Localized(outcome.item), req.enrich, auth)))]
    {
      match outcome
      case SearchFailed =>
        entries := entries[req.key := NullEntry];
        r := None;
      case SearchEmpty =>
        entries := entries[req.key := Negative(404)];
        r := None;
      case Found(post0) =>
        var post := Localized(post0);
        if req.enrich && post.visibility == Public {
          post := Enrich(post, auth);
        }
        entries := entries[req.key := Resolved(StatusValue(post))];
        r := Some(post);
    }

    /** The promise chain of `fetchAuthoritativeStatus`. A non-200 code is
      stored and then replaced by 400 by the next step of the chain, which
      sees `null`. */
    method SettleAuthoritativeFetch(s: Session, req: Request, outcome: HttpOutcome)
      returns (r: Option<Status>)
      requires req.AuthoritativeFetch?
      modifies this
      ensures outcome.NetworkError? ==> r == None && entries == old(entries)[req.key := NullEntry]
      ensures outcome.Response? && (outcome.code != 200 || outcome.body.None?) ==>
        r == None && entries == old(entries)[req.key := Negative(400)]
      ensures outcome.Response? && outcome.code == 200 && outcome.body.Some? ==>
        var post := WithAcct(outcome.body.value,
                             normalize(outcome.body.value.account.url, s.server).GetOr(""));
        r == Some(post) && entries == old(entries)[req.key := Resolved(StatusValue(post))]
    {
      match outcome
      case NetworkError =>
        entries := entries[req.key := NullEntry];
        r := None;
      case Response(code, body) =>
        if code != 200 {
          entries := entries[req.key := Negative(code)];
        }
        if code != 200 || body.None? {
          entries := entries[req.key := Negative(400)];
          return None;
        }
        var wf := normalize(body.value.account.url, s.server);
        var post := WithAcct(body.value, wf.GetOr(""));
        entries := entries[req.key := Resolved(StatusValue(post))];
        r := Some(post);
    }

    /** The promise chain of `federateRemoteAccount`: the account is stored
      under the webfinger key, under the id key built from its handle, and
      under its bare handle. A handle that does not normalise becomes `null`
      (written `""` here). */
    method SettleAccountSearch(s: Session, req: Request, outcome: SearchOutcome<Account>)
      returns (r: Option<Account>)
      requires req.AccountSearch?
      modifies this
      ensures outcome.SearchFailed? ==> r == None && entries == old(entries)[req.key := NullEntry]
      ensures outcome.SearchEmpty? ==> r == None && entries == old(entries)[req.key := Negative(404)]
      ensures outcome.Found? ==>
        var wf := normalize(outcome.item.acct, s.server);
        var a := outcome.item.(acct := wf.GetOr(""));
        r == Some(a)
        && entries == old(entries)[req.key := Resolved(AccountValue(a))]
                                  [AccountIdKey(s, wf.GetOr("null")) := Resolved(AccountValue(a))]
                                  [wf.GetOr(NullKey) := Resolved(AccountValue(a))]
    {
      match outcome
      case SearchFailed =>
        entries := entries[req.key := NullEntry];
        r := None;
      case SearchEmpty =>
        entries := entries[req.key := Negative(404)];
        r := None;
      case Found(a0) =>
        var wf := normalize(a0.acct, s.server);
        var a := a0.(acct := wf.GetOr(""));
        entries := entries[req.key := Resolved(AccountValue(a))];
        entries := entries[AccountIdKey(s, wf.GetOr("null")) := Resolved(AccountValue(a))];
        entries := entries[wf.GetOr(NullKey) := Resolved(AccountValue(a))];
        r := Some(a);
    }

    /** The promise chain of `fetchAccountById`. `fetched` is `None` when the
      request rejects. When the profile URL does not normalise, nothing is
      written and the settled promise stays cached. */
    method SettleAccountFetch(s: Session, req: Request, fetched: Option<Account>)
      returns (r: Option<Account>)
      requires req.AccountFetch?
      modifies this
      ensures fetched.None? ==> r == None && entries == old(entries)[req.key := Negative(404)]
      ensures fetched.Some? ==>
        var wf := normalize(fetched.value.url, s.server);
        if wf.None? || wf.value == "" then r == None && entries == old(entries)
        else (r == Some(fetched.value.(acct := wf.value))
              && entries == old(entries)[req.key := Resolved(AccountValue(fetched.value.(acct := wf.value)))])
    {
      if fetched.None? {
        entries := entries[req.key := Negative(404)];
        return None;
      }
      var wf := normalize(fetched.value.url, s.server);
      if wf.None? || wf.value == "" {
        return None;
      }
      var a := fetched.value.(acct := wf.value);
      entries := entries[req.key := Resolved(AccountValue(a))];
      r := Some(a);
    }

    /** The promise chain of `fetchAccountByHandle`: the account is stored
      under the webfinger key and under its id. */
    method SettleAccountLookup(s: Session, req: Request, fetched: Option<Account>)
      returns (r: Option<Account>)
      requires req.AccountLookup?
      modifies this
      ensures fetched.None? ==> r == None && entries == old(entries)[req.key := Negative(404)]
      ensures fetched.Some? ==>
        var a := fetched.value.(acct := req.webfinger);
        r == Some(a)
        && entries == old(entries)[req.key := Resolved(AccountValue(a))][AccountIdKey(s, a.id) := Resolved(AccountValue(a))]
    {
      if fetched.None? {
        entries := entries[req.key := Negative(404)];
        return None;
      }
      var a := fetched.value.(acct := req.webfinger);
      entries := entries[req.key := Resolved(AccountValue(a))];
      entries := entries[AccountIdKey(s, a.id) := Resolved(AccountValue(a))];
      r := Some(a);
    }
  }
}
