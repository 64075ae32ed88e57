/** JavaScript's `null` / `undefined` for a value that may be missing. */
module Optional {
  datatype Option<+T> = None | Some(value: T) {
    function GetOr(default: T): T {
      match this
      case Some(v) => v
      case None => default
    }
  }
}

/** The records of the Mastodon client API that the core reads and writes,
    reduced to the attributes the core uses. */
module Mastodon {
  import opened Optional

  /** A boolean attribute the server may also send as `null`. */
  datatype Tri = Yes | No | Null {
    /** JavaScript truthiness: only `true` is truthy. */
    predicate Truthy() { this == Yes }
  }

  datatype Visibility = Public | Unlisted | Private | Direct

  datatype FilterAction = Hide | Warn

  /** A server-side keyword filter that matched a status: its action and the
      contexts (`home`, `public`, `thread`, ...) it applies to. */
  datatype FilterResult = FilterResult(action: FilterAction, context: seq<string>)

  /** `createdAt` is the account's creation time in milliseconds since the epoch. */
  datatype Account = Account(
    id: string,
    username: string,
    acct: string,
    displayName: string,
    url: string,
    note: string,
    bot: bool,
    locked: Tri,
    discoverable: Tri,
    followersCount: int,
    statusesCount: int,
    createdAt: int)

  /** A status (post). `reblog` is the boosted status when this one is a boost;
      `application` is the name of the posting application when known. */
  datatype Status = Status(
    id: string,
    uri: string,
    account: Account,
    visibility: Visibility,
    language: Option<string>,
    inReplyToId: Option<string>,
    inReplyToAccountId: Option<string>,
    reblog: Option<Status>,
    reblogsCount: int,
    repliesCount: int,
    favouritesCount: int,
    reblogged: bool,
    favourited: bool,
    bookmarked: bool,
    pinned: bool,
    muted: bool,
    content: string,
    spoilerText: string,
    application: Option<string>,
    filtered: seq<FilterResult>)

  /** JavaScript truthiness of an optional string: present and non-empty. */
  predicate Truthy(s: Option<string>) {
    s.Some? && s.value != ""
  }
}
