/** Identifier normalisation of composables/cache.ts: `extractAccountWebfinger`,
    which turns a handle, profile URL or status URL into `user@host`, and
    `changeKeysToCamelCase`, which renames the keys of a JSON document. */
module Normalize {
  import opened JsText
  import opened Optional

  // ---------------------------------------------------------------------------
  // The regular expressions of extractAccountWebfinger
  // ---------------------------------------------------------------------------

  /** `[\w\.]` */
  predicate IsHostChar(c: char) { IsWord(c) || c == '.' }

  /** The host part of `/^[\w]+@[a-z0-9][\w\.]+\.[a-z]+$/i`: an alphanumeric
      character, then at least one host character, a dot, and a non-empty
      run of letters. Since the trailing letters hold no dot, the dot the
      pattern needs is the last one. */
  predicate IsHostShape(h: string) {
    && |h| >= 1
    && (IsLetter(h[0]) || IsDigit(h[0]))
    && var t := h[1..];
    && var d := LastIndexOf(t, '.');
    && d >= 1
    && d + 1 < |t|
    && (forall j :: 0 <= j < d ==> IsHostChar(t[j]))
    && (forall j :: d < j < |t| ==> IsLetter(t[j]))
  }

  /** `/^[\w]+@[a-z0-9][\w\.]+\.[a-z]+$/i`: word characters up to the first
      `@`, then a host of the shape above. */
  predicate IsHandleShape(t: string) {
    var i := IndexOf(t, "@");
    && i >= 1
    && AllWord(t[..i])
    && IsHostShape(t[i + 1..])
  }

  /** `/^[a-z0-9_]{1,30}$/i`: a bare local user name. */
  predicate IsLocalUsername(n: string) {
    1 <= |n| <= 30 && AllWord(n)
  }

  /** `[0-9a-z\/]` under the `i` flag. */
  predicate IsStatusPathChar(c: char) { IsDigit(c) || IsLetter(c) || c == '/' }

  /** `/\/statuses\/[0-9a-z\/]+$/i` matches at position `p`. */
  predicate StatusesSuffixAt(s: string, p: int) {
    && 0 <= p
    && p + 10 < |s|
    && Lower(s[p..p + 10]) == "/statuses/"
    && forall j :: p + 10 <= j < |s| ==> IsStatusPathChar(s[j])
  }

  /** The leftmost position at or after `p` where the suffix pattern matches, or -1. */
  function StatusesSuffixFrom(s: string, p: nat): (r: int)
    requires p <= |s|
    ensures r == -1 || (p <= r && StatusesSuffixAt(s, r))
    ensures r == -1 ==> forall j :: p <= j <= |s| ==> !StatusesSuffixAt(s, j)
    ensures r >= 0 ==> forall j :: p <= j < r ==> !StatusesSuffixAt(s, j)
    decreases |s| - p
  {
    if StatusesSuffixAt(s, p) then p
    else if p == |s| then -1
    else StatusesSuffixFrom(s, p + 1)
  }

  /** `s.replace(/\/statuses\/[0-9a-z\/]+$/ig, '')`: the match is anchored at
      the end, so at most one (the leftmost) is removed. */
  function StripStatusesSuffix(s: string): (r: string)
    ensures (forall j :: 0 <= j <= |s| ==> !StatusesSuffixAt(s, j)) ==> r == s
    ensures StatusesSuffixFrom(s, 0) >= 0 ==> r == s[..StatusesSuffixFrom(s, 0)]
    ensures (forall j :: 0 <= j < |s| ==> s[j] != '/') ==> r == s
  {
    NoSlashNoSuffix(s);
    var p := StatusesSuffixFrom(s, 0);
    if p < 0 then s else s[..p]
  }

  /** The suffix pattern starts with `/`, so it needs a slash in the text. */
  lemma NoSlashNoSuffix(s: string)
    ensures (forall j :: 0 <= j < |s| ==> s[j] != '/') ==> forall p :: !StatusesSuffixAt(s, p)
  {
    forall p | StatusesSuffixAt(s, p) ensures exists j :: 0 <= j < |s| && s[j] == '/' {
      assert Lower(s[p..p + 10])[0] == ToLowerChar(s[p..p + 10][0]);
    }
  }

  // ---------------------------------------------------------------------------
  // extractAccountWebfinger
  // ---------------------------------------------------------------------------

  /** The input with its first `https://` and its first `/<server>/@` removed. */
  function PreNormalized(input: string, server: string): string {
    ReplaceFirst(ReplaceFirst(input, "https://", ""), "/" + server + "/@", "")
  }

  /** The slow path's rewriting of path conventions, in the source's order. */
  function NormalizedPath(pre: string): string {
    var a := ReplaceFirst(pre, "https://", "");
    var b := ReplaceFirst(a, "/users/", "/@");
    var c := ReplaceFirst(b, "/u/", "/@");
    var d := ReplaceFirst(c, "@@", "@");
    StripStatusesSuffix(StripLeadingAts(d))
  }

  /** `n` holds exactly one `@`, which is not its first character, and no `/`. */
  predicate IsPlainHandle(n: string) {
    && !Contains(n, "/")
    && !StartsWith(n, "@")
    && Contains(n, "@")
    && IndexOf(n, "@") == LastIndexOf(n, '@')
  }
  /** `extractAccountWebfinger(webfingerOrUriOrUrl)` with `currentServer`
      given as `server`; `None` is the source's `null`. */
  function ExtractAccountWebfinger(input: string, server: string): (r: Option<string>)
    ensures Contains(input, "/tags/") ==> r == None
    ensures !Contains(input, "/tags/") && IsHandleShape(StripLeadingAts(PreNormalized(input, server)))
      ==> r == Some(StripLeadingAts(PreNormalized(input, server)))
  {
    if Contains(input, "/tags/") then None
    else
      var pre := PreNormalized(input, server);
      if IsHandleShape(StripLeadingAts(pre)) then Some(StripLeadingAts(pre))
      else FromPath(NormalizedPath(pre))
  }

  /** The end of the slow path: `path/@user` becomes `user@path`; a plain
      handle or a bare local user name is kept; anything else is `None`. */
  function FromPath(n: string): Option<string> {
    if Contains(n, "/@") then
      var parts := Split(n, "/@");
      Some(parts[1] + "@" + parts[0])
    else if IsPlainHandle(n) then Some(n)
    else if IsLocalUsername(n) then Some(n)
    else None
  }

  // ---------------------------------------------------------------------------
  // What extractAccountWebfinger accepts
  // ---------------------------------------------------------------------------

  /** A text none of whose patterns occur is left as it is by the slow path's rewriting. */
  lemma NormalizedPathFixed(s: string)
    requires !Contains(s, "https://") && !Contains(s, "/users/")
    requires !Contains(s, "/u/") && !Contains(s, "@@")
    requires s == [] || s[0] != '@'
    requires forall p :: !StatusesSuffixAt(s, p)
    ensures NormalizedPath(s) == s
  {
  }

  /** A text with neither a `https://` nor a `/<server>/@` is its own pre-normal form. */
  lemma PreNormalizedFixed(s: string, server: string)
    requires !Contains(s, "https://") && !Contains(s, "/" + server + "/@")
    ensures PreNormalized(s, server) == s
  {
  }

  /** The text after `https://` decides whether the URL holds `/tags/`: only
      a text starting with `tags/` adds an occurrence. */
  lemma SchemeNoTags(s: string)
    requires !Contains(s, "/tags/")
    requires !StartsWith(s, "tags/")
    ensures !Contains("https://" + s, "/tags/")
  {
    var x := "https://" + s;
    ContainsIff(s, "/tags/");
    assert x[..8] == "https://";
    assert x[0] == 'h' && x[1] == 't' && x[2] == 't' && x[3] == 'p' && x[4] == 's' && x[5] == ':';
    assert x[7] == '/';
    forall j ensures !OccursAt(x, "/tags/", j) {
      if 0 <= j && j + 6 <= |x| {
        var w := x[j..j + 6];
        if j >= 8 {
          assert w == s[j - 8..j - 2];
          assert !OccursAt(s, "/tags/", j - 8);
        } else if j == 7 {
          assert w[1..] == s[..5];
        } else if j == 6 {
          assert w[1] == x[7];
        } else {
          assert w[0] == x[j];
        }
      }
    }
    ContainsIff(x, "/tags/");
  }

  /** With no `https://` after it, the leading scheme is all the pre-normalisation removes. */
  lemma SchemeDropped(s: string, server: string)
    requires !Contains(s, "https://")
    ensures PreNormalized("https://" + s, server) == PreNormalized(s, server)
  {
    DropScheme(s);
  }

  /** Inputs free of `/tags/` with the same pre-normal form are normalised alike. */
  lemma SamePreNormalized(x: string, s: string, server: string)
    requires !Contains(x, "/tags/") && !Contains(s, "/tags/")
    requires PreNormalized(x, server) == PreNormalized(s, server)
    ensures ExtractAccountWebfinger(x, server) == ExtractAccountWebfinger(s, server)
  {
  }

  /** The slow path rewrites `/users/` to `/@` before anything else it does. */
  lemma UsersRewrite(p: string)
    requires !Contains(p, "https://")
    requires !Contains(ReplaceFirst(p, "/users/", "/@"), "https://")
    requires !Contains(ReplaceFirst(p, "/users/", "/@"), "/users/")
    ensures NormalizedPath(p) == NormalizedPath(ReplaceFirst(p, "/users/", "/@"))
  {
  }

  /** Removing the leading `https://` of a URL. */
  lemma DropScheme(rest: string)
    ensures ReplaceFirst("https://" + rest, "https://", "") == rest
  {
    var x := "https://" + rest;
    assert x[..8] == "https://";
    IndexOfIs(x, "https://", 0);
    assert x[8..] == rest;
  }

  /** The suffix pattern starts with a slash and has another nine characters on. */
  lemma SuffixSlashes(s: string, p: int)
    requires StatusesSuffixAt(s, p)
    ensures s[p] == '/' && s[p + 9] == '/'
  {
    var w := s[p..p + 10];
    assert Lower(w)[0] == ToLowerChar(w[0]) && Lower(w)[9] == ToLowerChar(w[9]);
  }

  /** So a text with at most one slash has no status suffix. */
  lemma SuffixNeedsTwoSlashes(s: string)
    requires AtMostOnce(s, '/')
    ensures forall p :: !StatusesSuffixAt(s, p)
  {
    forall p ensures !StatusesSuffixAt(s, p) {
      if StatusesSuffixAt(s, p) {
        SuffixSlashes(s, p);
      }
    }
  }

  /** A text whose only `/` and `@` are the `/@` between a host and a user name. */
  lemma HostPathChars(h: string, u: string)
    requires forall j :: 0 <= j < |h| ==> IsHostChar(h[j])
    requires AllWord(u)
    ensures var s := h + "/@" + u;
      && s[|h|] == '/' && s[|h| + 1] == '@'
      && (forall j :: 0 <= j < |s| && j != |h| ==> s[j] != '/')
      && (forall j :: 0 <= j < |s| && j != |h| + 1 ==> s[j] != '@')
      && (forall j :: 0 <= j < |s| ==> s[j] != ':')
      && AtMostOnce(s, '/') && AtMostOnce(s, '@')
  {
    var s := h + "/@" + u;
    forall j | 0 <= j < |s|
      ensures j != |h| ==> s[j] != '/'
      ensures j != |h| + 1 ==> s[j] != '@'
      ensures s[j] != ':'
    {
      if j < |h| { assert s[j] == h[j]; }
      else if j > |h| + 1 { assert s[j] == u[j - |h| - 2]; }
    }
  }

  /** `host/@user` is not handle-shaped: its `@` follows a slash. */
  lemma HostPathNotHandle(h: string, u: string)
    requires |h| > 0
    requires forall j :: 0 <= j < |h| ==> IsHostChar(h[j])
    requires AllWord(u)
    ensures StripLeadingAts(h + "/@" + u) == h + "/@" + u
    ensures !IsHandleShape(h + "/@" + u)
  {
    var s := h + "/@" + u;
    HostPathChars(h, u);
    assert s[0] == h[0];
    assert s[|h| + 1..|h| + 2] == "@";
    forall j | 0 <= j < |h| + 1 ensures !OccursAt(s, "@", j) {
      assert s[j..j + 1][0] == s[j];
    }
    IndexOfIs(s, "@", |h| + 1);
    assert s[..|h| + 1][|h|] == '/';
  }

  /** The slow path of `host/@user` leaves the text as it is and swaps its halves. */
  lemma HostPathSlowPath(h: string, u: string)
    requires |h| > 0 && |u| > 0
    requires forall j :: 0 <= j < |h| ==> IsHostChar(h[j])
    requires AllWord(u)
    ensures NormalizedPath(h + "/@" + u) == h + "/@" + u
    ensures FromPath(h + "/@" + u) == Some(u + "@" + h)
  {
    HostPathNormalized(h, u);
    HostPathSplit(h, u);
  }

  /** None of the slow path's rewritings applies to `host/@user`. */
  lemma HostPathNormalized(h: string, u: string)
    requires |h| > 0
    requires forall j :: 0 <= j < |h| ==> IsHostChar(h[j])
    requires AllWord(u)
    ensures NormalizedPath(h + "/@" + u) == h + "/@" + u
  {
    var s := h + "/@" + u;
    HostPathChars(h, u);
    assert s[0] == h[0];
    NotContainsMissingChar(s, "https://", 5);
    NotContainsTwice(s, "/users/", '/', 6);
    NotContainsTwice(s, "/u/", '/', 2);
    NotContainsTwice(s, "@@", '@', 1);
    SuffixNeedsTwoSlashes(s);
    NormalizedPathFixed(s);
  }

  /** `host/@user` splits at its `/@` into the host and the user name. */
  lemma HostPathSplit(h: string, u: string)
    requires forall j :: 0 <= j < |h| ==> IsHostChar(h[j])
    requires AllWord(u)
    ensures FromPath(h + "/@" + u) == Some(u + "@" + h)
  {
    var s := h + "/@" + u;
    HostPathChars(h, u);
    assert s[|h|..|h| + 2] == "/@";
    forall j | 0 <= j < |h| ensures !OccursAt(s, "/@", j) {
      assert s[j..j + 2][0] == s[j];
    }
    IndexOfIs(s, "/@", |h|);
    assert s[..|h|] == h && s[|h| + 2..] == u;
    NotContainsMissingChar(u, "/@", 0);
    assert Split(s, "/@") == [h] + Split(u, "/@");
  }

  /** `host/@user` yields `user@host`. */
  lemma HostPathHandle(h: string, u: string, server: string)
    requires |h| > 0 && |u| > 0
    requires forall j :: 0 <= j < |h| ==> IsHostChar(h[j])
    requires AllWord(u)
    ensures ExtractAccountWebfinger(h + "/@" + u, server) == Some(u + "@" + h)
  {
    var s := h + "/@" + u;
    HostPathChars(h, u);
    NotContainsTwice(s, "/tags/", '/', 5);
    NotContainsMissingChar(s, "https://", 5);
    NotContainsTwice(s, "/" + server + "/@", '/', |server| + 1);
    PreNormalizedFixed(s, server);
    HostPathNotHandle(h, u);
    HostPathSlowPath(h, u);
  }

  /** The URL `https://tags/@user` holds `/tags/`. */
  lemma TagsHostRejected(u: string, server: string)
    ensures ExtractAccountWebfinger("https://tags/@" + u, server) == None
  {
    var x := "https://tags/@" + u;
    var pre := "https://tags/@";
    assert x[..14] == pre;
    assert x[7..13] == pre[7..13];
    assert pre[7..13] == "/tags/";
    assert OccursAt(x, "/tags/", 7);
    ContainsIff(x, "/tags/");
  }

  /** A profile URL `https://host/@user` yields `user@host`, except for the
      host `tags`, whose URL holds `/tags/` and is rejected. */
  lemma ProfileUrlHandle(h: string, u: string, server: string)
    requires |h| > 0 && |u| > 0
    requires forall j :: 0 <= j < |h| ==> IsHostChar(h[j])
    requires AllWord(u)
    ensures h != "tags" ==> ExtractAccountWebfinger("https://" + h + "/@" + u, server) == Some(u + "@" + h)
    ensures h == "tags" ==> ExtractAccountWebfinger("https://" + h + "/@" + u, server) == None
  {
    if h == "tags" {
      assert "https://" + h + "/@" + u == "https://tags/@" + u;
      TagsHostRejected(u, server);
    } else {
      ProfileUrlOtherHost(h, u, server);
    }
  }

  lemma ProfileUrlOtherHost(h: string, u: string, server: string)
    requires |h| > 0 && |u| > 0
    requires forall j :: 0 <= j < |h| ==> IsHostChar(h[j])
    requires AllWord(u)
    requires h != "tags"
    ensures ExtractAccountWebfinger("https://" + h + "/@" + u, server) == Some(u + "@" + h)
  {
    var s := h + "/@" + u;
    var x := "https://" + h + "/@" + u;
    assert x == "https://" + s;
    HostPathChars(h, u);
    NotContainsTwice(s, "/tags/", '/', 5);
    if |s| >= 5 {
      assert s[..5][4] == s[4];
      if |h| == 4 { assert s[..4] == h; }
    }
    SchemeNoTags(s);
    NotContainsMissingChar(s, "https://", 5);
    SchemeDropped(s, server);
    SamePreNormalized(x, s, server);
    HostPathHandle(h, u, server);
  }

  /** The characters of `host/users/user`. */
  lemma UsersPathChars(h: string, u: string)
    requires |h| > 0
    requires forall j :: 0 <= j < |h| ==> IsHostChar(h[j])
    requires AllWord(u)
    requires h != "tags"
    ensures var s2 := h + "/users/" + u;
      && (forall j :: 0 <= j < |s2| ==> s2[j] != '@' && s2[j] != ':')
      && s2[0] != '@'
      && !Contains(s2, "/tags/") && !StartsWith(s2, "tags/")
  {
    var s2 := h + "/users/" + u;
    assert s2[|h|..|h| + 7] == "/users/";
    forall j | 0 <= j < |s2|
      ensures s2[j] == '/' ==> j == |h| || j == |h| + 6
      ensures s2[j] != '@' && s2[j] != ':'
    {
      if j < |h| { assert s2[j] == h[j]; }
      else if j > |h| + 6 { assert s2[j] == u[j - |h| - 7]; }
    }
    assert s2[0] == h[0];
    forall j ensures !OccursAt(s2, "/tags/", j) {
      if 0 <= j && j + 6 <= |s2| {
        var w := s2[j..j + 6];
        assert w[0] == s2[j] && w[1] == s2[j + 1] && w[5] == s2[j + 5];
      }
    }
    ContainsIff(s2, "/tags/");
    if |s2| >= 5 {
      assert s2[..5][4] == s2[4];
      if |h| == 4 { assert s2[..4] == h; }
    }
  }

  /** In `host/users/user` the first `/users/` follows the host, and
      rewriting it to `/@` gives `host/@user`. */
  lemma UsersPathRewritten(h: string, u: string)
    requires forall j :: 0 <= j < |h| ==> IsHostChar(h[j])
    ensures ReplaceFirst(h + "/users/" + u, "/users/", "/@") == h + "/@" + u
  {
    var s2 := h + "/users/" + u;
    assert s2[|h|..|h| + 7] == "/users/";
    forall j | 0 <= j < |h| ensures !OccursAt(s2, "/users/", j) {
      assert s2[j..j + 7][0] == s2[j];
      assert s2[j] == h[j];
    }
    IndexOfIs(s2, "/users/", |h|);
    assert s2[..|h|] == h && s2[|h| + 7..] == u;
  }

  /** `https://host/users/user` goes the slow path with the text `host/users/user`. */
  lemma UsersUrlSlowPath(h: string, u: string, server: string)
    requires |h| > 0
    requires forall j :: 0 <= j < |h| ==> IsHostChar(h[j])
    requires AllWord(u)
    requires h != "tags"
    ensures ExtractAccountWebfinger("https://" + h + "/users/" + u, server)
      == FromPath(NormalizedPath(h + "/users/" + u))
  {
    var s2 := h + "/users/" + u;
    var x := "https://" + s2;
    assert x == "https://" + h + "/users/" + u;
    UsersPathChars(h, u);
    SchemeNoTags(s2);
    NotContainsMissingChar(s2, "https://", 5);
    SchemeDropped(s2, server);
    NotContainsMissingChar(s2, "/" + server + "/@", |server| + 2);
    PreNormalizedFixed(s2, server);
    NotContainsMissingChar(s2, "@", 0);
    assert !IsHandleShape(s2);
  }

  /** A profile URL `https://host/users/user` yields `user@host`, except for
      the host `tags`. */
  lemma UsersUrlHandle(h: string, u: string, server: string)
    requires |h| > 0 && |u| > 0
    requires forall j :: 0 <= j < |h| ==> IsHostChar(h[j])
    requires AllWord(u)
    requires h != "tags"
    ensures ExtractAccountWebfinger("https://" + h + "/users/" + u, server) == Some(u + "@" + h)
  {
    UsersUrlSlowPath(h, u, server);
    UsersPathNormalized(h, u);
    HostPathSlowPath(h, u);
  }

  /** The slow path's rewriting turns `host/users/user` into `host/@user`. */
  lemma UsersPathNormalized(h: string, u: string)
    requires |h| > 0 && |u| > 0
    requires forall j :: 0 <= j < |h| ==> IsHostChar(h[j])
    requires AllWord(u)
    requires h != "tags"
    ensures NormalizedPath(h + "/users/" + u) == h + "/@" + u
  {
    var s2 := h + "/users/" + u;
    var s := h + "/@" + u;
    UsersPathChars(h, u);
    NotContainsMissingChar(s2, "https://", 5);
    UsersPathRewritten(h, u);
    HostPathChars(h, u);
    NotContainsMissingChar(s, "https://", 5);
    NotContainsTwice(s, "/users/", '/', 6);
    UsersRewrite(s2);
    HostPathSlowPath(h, u);
  }

  /** The characters of `host/u/user`: no `@` or `:`, and slashes only
      around the `u`. */
  lemma ShortUsersPathChars(h: string, u: string)
    requires |h| > 0
    requires forall j :: 0 <= j < |h| ==> IsHostChar(h[j])
    requires AllWord(u)
    requires h != "tags"
    ensures var s2 := h + "/u/" + u;
      && (forall j :: 0 <= j < |s2| ==> s2[j] != '@' && s2[j] != ':')
      && s2[0] != '@'
      && !Contains(s2, "/tags/") && !StartsWith(s2, "tags/")
      && !Contains(s2, "/users/")
  {
    var s2 := h + "/u/" + u;
    assert s2[|h|..|h| + 3] == "/u/";
    forall j | 0 <= j < |s2|
      ensures s2[j] == '/' ==> j == |h| || j == |h| + 2
      ensures s2[j] != '@' && s2[j] != ':'
    {
      if j < |h| { assert s2[j] == h[j]; }
      else if j > |h| + 2 { assert s2[j] == u[j - |h| - 3]; }
    }
    assert s2[0] == h[0];
    forall j ensures !OccursAt(s2, "/tags/", j) && !OccursAt(s2, "/users/", j) {
      if 0 <= j && j + 6 <= |s2| {
        var w := s2[j..j + 6];
        assert w[0] == s2[j] && w[5] == s2[j + 5];
      }
      if 0 <= j && j + 7 <= |s2| {
        var w := s2[j..j + 7];
        assert w[0] == s2[j] && w[6] == s2[j + 6];
      }
    }
    ContainsIff(s2, "/tags/");
    ContainsIff(s2, "/users/");
    if |s2| >= 5 {
      assert s2[..5][4] == s2[4] && s2[..5][2] == s2[2];
      if |h| == 4 { assert s2[..4] == h; }
    }
  }

  /** In `host/u/user` the first `/u/` follows the host, and rewriting it
      to `/@` gives `host/@user`. */
  lemma ShortUsersRewritten(h: string, u: string)
    requires forall j :: 0 <= j < |h| ==> IsHostChar(h[j])
    ensures ReplaceFirst(h + "/u/" + u, "/u/", "/@") == h + "/@" + u
  {
    var s2 := h + "/u/" + u;
    assert s2[|h|..|h| + 3] == "/u/";
    forall j | 0 <= j < |h| ensures !OccursAt(s2, "/u/", j) {
      assert s2[j..j + 3][0] == s2[j];
      assert s2[j] == h[j];
    }
    IndexOfIs(s2, "/u/", |h|);
    assert s2[..|h|] == h && s2[|h| + 3..] == u;
  }

  /** `https://host/u/user` goes the slow path with the text `host/u/user`. */
  lemma ShortUsersSlowPath(h: string, u: string, server: string)
    requires |h| > 0
    requires forall j :: 0 <= j < |h| ==> IsHostChar(h[j])
    requires AllWord(u)
    requires h != "tags"
    ensures ExtractAccountWebfinger("https://" + h + "/u/" + u, server)
      == FromPath(NormalizedPath(h + "/u/" + u))
  {
    var s2 := h + "/u/" + u;
    var x := "https://" + s2;
    assert x == "https://" + h + "/u/" + u;
    ShortUsersPathChars(h, u);
    SchemeNoTags(s2);
    NotContainsMissingChar(s2, "https://", 5);
    SchemeDropped(s2, server);
    NotContainsMissingChar(s2, "/" + server + "/@", |server| + 2);
    PreNormalizedFixed(s2, server);
    NotContainsMissingChar(s2, "@", 0);
    assert !IsHandleShape(s2);
  }

  /** The slow path's rewriting turns `host/u/user` into `host/@user`. */
  lemma ShortUsersNormalized(h: string, u: string)
    requires |h| > 0
    requires forall j :: 0 <= j < |h| ==> IsHostChar(h[j])
    requires AllWord(u)
    requires h != "tags"
    ensures NormalizedPath(h + "/u/" + u) == h + "/@" + u
  {
    var s2 := h + "/u/" + u;
    var s := h + "/@" + u;
    ShortUsersPathChars(h, u);
    NotContainsMissingChar(s2, "https://", 5);
    ReplaceFirstAbsent(s2, "https://", "");
    ReplaceFirstAbsent(s2, "/users/", "/@");
    ShortUsersRewritten(h, u);
    HostPathChars(h, u);
    NotContainsTwice(s, "@@", '@', 1);
    ReplaceFirstAbsent(s, "@@", "@");
    assert s[0] == h[0];
    SuffixNeedsTwoSlashes(s);
  }

  /** A profile URL `https://host/u/user` yields `user@host`, except for
      the host `tags`. */
  lemma ShortUsersUrlHandle(h: string, u: string, server: string)
    requires |h| > 0 && |u| > 0
    requires forall j :: 0 <= j < |h| ==> IsHostChar(h[j])
    requires AllWord(u)
    requires h != "tags"
    ensures ExtractAccountWebfinger("https://" + h + "/u/" + u, server) == Some(u + "@" + h)
  {
    ShortUsersSlowPath(h, u, server);
    ShortUsersNormalized(h, u);
    HostPathSplit(h, u);
  }

  /** The characters of `host/@user/statuses/id`: slashes after the host,
      after the user name and after `statuses`, each followed by `@`, `s`
      or a digit; a single `@`; no `:`. */
  lemma StatusPathChars(h: string, u: string, id: string)
    requires |h| > 0 && |u| > 0
    requires forall j :: 0 <= j < |h| ==> IsHostChar(h[j])
    requires AllWord(u) && IsNumeric(id)
    ensures var q := |h| + 2 + |u|; var s2 := h + "/@" + u + "/statuses/" + id;
      && q + 10 < |s2|
      && s2[..q] == h + "/@" + u && s2[q..q + 10] == "/statuses/" && s2[q + 10..] == id
      && s2[0] == h[0] && s2[|h|] == '/' && s2[|h| + 1] == '@'
      && (forall j :: 0 <= j < |s2| && s2[j] == '/' ==> j == |h| || j == q || j == q + 9)
      && (forall j :: 0 <= j < |s2| && s2[j] == '@' ==> j == |h| + 1)
      && (forall j :: 0 <= j < |s2| ==> s2[j] != ':')
      && (forall j :: q + 10 <= j < |s2| ==> IsDigit(s2[j]))
  {
    var q := |h| + 2 + |u|;
    var t := h + "/@" + u;
    var s2 := t + "/statuses/" + id;
    assert s2[..q] == t && s2[q..q + 10] == "/statuses/" && s2[q + 10..] == id;
    forall j | 0 <= j < |s2|
      ensures s2[j] == '/' ==> j == |h| || j == q || j == q + 9
      ensures s2[j] == '@' ==> j == |h| + 1
      ensures s2[j] != ':'
      ensures j >= q + 10 ==> IsDigit(s2[j])
    {
      if j < |h| { assert s2[j] == h[j]; }
      else if |h| + 1 < j < q { assert s2[j] == u[j - |h| - 2]; }
      else if q <= j < q + 10 { assert s2[j] == "/statuses/"[j - q]; }
      else if j >= q + 10 { assert s2[j] == id[j - q - 10]; }
    }
  }

  /** A pattern whose second character follows no slash of `s` does not
      occur in `s`. */
  lemma NotAfterSlash(s: string, p: string)
    requires |p| >= 2 && p[0] == '/'
    requires forall j :: 0 <= j < |s| - 1 && s[j] == '/' ==> s[j + 1] != p[1]
    ensures !Contains(s, p)
  {
    forall j ensures !OccursAt(s, p, j) {
      if 0 <= j && j + |p| <= |s| {
        assert s[j..j + |p|][0] == s[j] && s[j..j + |p|][1] == s[j + 1];
      }
    }
    ContainsIff(s, p);
  }

  /** None of the rewritings before the status suffix applies to
      `host/@user/statuses/id`, and it does not open with `tags/`. */
  lemma StatusPathPatterns(h: string, u: string, id: string, server: string)
    requires |h| > 0 && |u| > 0
    requires forall j :: 0 <= j < |h| ==> IsHostChar(h[j])
    requires AllWord(u) && IsNumeric(id)
    requires h != "tags"
    ensures var s2 := h + "/@" + u + "/statuses/" + id;
      && !Contains(s2, "/tags/") && !Contains(s2, "/users/") && !Contains(s2, "/u/")
      && !Contains(s2, "https://") && !Contains(s2, "@@") && !Contains(s2, "/" + server + "/@")
      && !StartsWith(s2, "tags/")
  {
    StatusPathRewrites(h, u, id);
    StatusPathNoServer(h, u, id, server);
    StatusPathNotTagsPrefix(h, u, id);
  }

  /** The slash-led patterns, the scheme and `@@` do not occur in `host/@user/statuses/id`. */
  lemma StatusPathRewrites(h: string, u: string, id: string)
    requires |h| > 0 && |u| > 0
    requires forall j :: 0 <= j < |h| ==> IsHostChar(h[j])
    requires AllWord(u) && IsNumeric(id)
    ensures var s2 := h + "/@" + u + "/statuses/" + id;
      && !Contains(s2, "/tags/") && !Contains(s2, "/users/") && !Contains(s2, "/u/")
      && !Contains(s2, "https://") && !Contains(s2, "@@")
  {
    var s2 := h + "/@" + u + "/statuses/" + id;
    var q := |h| + 2 + |u|;
    StatusPathChars(h, u, id);
    assert s2[q + 1] == "/statuses/"[1];
    NotAfterSlash(s2, "/tags/");
    NotAfterSlash(s2, "/users/");
    NotAfterSlash(s2, "/u/");
    NotContainsMissingChar(s2, "https://", 5);
    NotContainsTwice(s2, "@@", '@', 1);
  }

  /** `/<server>/@` does not occur: the only `@` comes right after the first slash. */
  lemma StatusPathNoServer(h: string, u: string, id: string, server: string)
    requires |h| > 0 && |u| > 0
    requires forall j :: 0 <= j < |h| ==> IsHostChar(h[j])
    requires AllWord(u) && IsNumeric(id)
    ensures !Contains(h + "/@" + u + "/statuses/" + id, "/" + server + "/@")
  {
    var s2 := h + "/@" + u + "/statuses/" + id;
    StatusPathChars(h, u, id);
    var p := "/" + server + "/@";
    assert p[0] == '/' && p[|server| + 2] == '@';
    forall j ensures !OccursAt(s2, p, j) {
      if 0 <= j && j + |p| <= |s2| {
        assert s2[j..j + |p|][0] == s2[j] && s2[j..j + |p|][|server| + 2] == s2[j + |server| + 2];
      }
    }
    ContainsIff(s2, p);
  }

  /** Only the host `tags` would make the text open with `tags/`. */
  lemma StatusPathNotTagsPrefix(h: string, u: string, id: string)
    requires |h| > 0 && |u| > 0
    requires forall j :: 0 <= j < |h| ==> IsHostChar(h[j])
    requires AllWord(u) && IsNumeric(id)
    requires h != "tags"
    ensures !StartsWith(h + "/@" + u + "/statuses/" + id, "tags/")
  {
    var s2 := h + "/@" + u + "/statuses/" + id;
    StatusPathChars(h, u, id);
    if |h| == 4 {
      assert s2[..5][..4] == s2[..4] == h;
    } else if |h| < 4 {
      assert s2[..5][|h|] == '/';
    } else {
      assert s2[..5][4] == h[4];
    }
  }

  /** The status suffix of `host/@user/statuses/id` starts after the user
      name, and removing it leaves `host/@user`. */
  lemma StatusSuffixStripped(h: string, u: string, id: string)
    requires |h| > 0 && |u| > 0
    requires forall j :: 0 <= j < |h| ==> IsHostChar(h[j])
    requires AllWord(u) && IsNumeric(id)
    ensures StripStatusesSuffix(h + "/@" + u + "/statuses/" + id) == h + "/@" + u
  {
    var s2 := h + "/@" + u + "/statuses/" + id;
    var q := |h| + 2 + |u|;
    StatusSuffixAfterUser(h, u, id);
    StatusPathChars(h, u, id);
    var r := StatusesSuffixFrom(s2, 0);
    assert r == q;
  }

  /** In `host/@user/statuses/id` the suffix pattern matches after the user
      name and nowhere before. */
  lemma StatusSuffixAfterUser(h: string, u: string, id: string)
    requires |h| > 0 && |u| > 0
    requires forall j :: 0 <= j < |h| ==> IsHostChar(h[j])
    requires AllWord(u) && IsNumeric(id)
    ensures var s2 := h + "/@" + u + "/statuses/" + id; var q := |h| + 2 + |u|;
      StatusesSuffixAt(s2, q) && forall j :: 0 <= j < q ==> !StatusesSuffixAt(s2, j)
  {
    var s2 := h + "/@" + u + "/statuses/" + id;
    var q := |h| + 2 + |u|;
    StatusPathChars(h, u, id);
    StatusSuffixAtEnd(s2, q);
    forall j | 0 <= j < q ensures !StatusesSuffixAt(s2, j) {
      if j == |h| {
        NoSuffixBeforeAt(s2, j);
      } else if StatusesSuffixAt(s2, j) {
        SuffixSlashes(s2, j);
      }
    }
  }

  /** A slash followed by `@` does not start the suffix pattern. */
  lemma NoSuffixBeforeAt(s: string, j: int)
    requires 0 <= j && j + 1 < |s| && s[j + 1] == '@'
    ensures !StatusesSuffixAt(s, j)
  {
    if j + 10 < |s| {
      assert Lower(s[j..j + 10])[1] == '@';
    }
  }

  /** `/statuses/` followed by digits up to the end is a match of the suffix pattern. */
  lemma StatusSuffixAtEnd(s2: string, q: int)
    requires 0 <= q && q + 10 < |s2| && s2[q..q + 10] == "/statuses/"
    requires forall j :: q + 10 <= j < |s2| ==> IsDigit(s2[j])
    ensures StatusesSuffixAt(s2, q)
  {
    var w := s2[q..q + 10];
    forall i | 0 <= i < 10 ensures Lower(w)[i] == w[i] {
      assert !('A' <= w[i] <= 'Z');
    }
    assert Lower(w) == w;
  }

  /** `https://host/@user/statuses/id` goes the slow path with the text
      `host/@user/statuses/id`. */
  lemma StatusUrlSlowPath(h: string, u: string, id: string, server: string)
    requires |h| > 0 && |u| > 0
    requires forall j :: 0 <= j < |h| ==> IsHostChar(h[j])
    requires AllWord(u) && IsNumeric(id)
    requires h != "tags"
    ensures ExtractAccountWebfinger("https://" + h + "/@" + u + "/statuses/" + id, server)
      == FromPath(NormalizedPath(h + "/@" + u + "/statuses/" + id))
  {
    var s2 := h + "/@" + u + "/statuses/" + id;
    var x := "https://" + s2;
    ConcatAssoc("https://", h + "/@" + u, "/statuses/" + id);
    ConcatAssoc("https://", h + "/@", u);
    ConcatAssoc("https://", h, "/@");
    assert x == "https://" + h + "/@" + u + "/statuses/" + id;
    StatusPathChars(h, u, id);
    StatusPathPatterns(h, u, id, server);
    SchemeNoTags(s2);
    SchemeDropped(s2, server);
    PreNormalizedFixed(s2, server);
    StatusPathNotHandle(h, u, id);
  }

  /** `host/@user/statuses/id` is not handle-shaped: its first `@` follows a slash. */
  lemma StatusPathNotHandle(h: string, u: string, id: string)
    requires |h| > 0 && |u| > 0
    requires forall j :: 0 <= j < |h| ==> IsHostChar(h[j])
    requires AllWord(u) && IsNumeric(id)
    ensures StripLeadingAts(h + "/@" + u + "/statuses/" + id) == h + "/@" + u + "/statuses/" + id
    ensures !IsHandleShape(h + "/@" + u + "/statuses/" + id)
  {
    var s2 := h + "/@" + u + "/statuses/" + id;
    StatusPathChars(h, u, id);
    assert s2[|h| + 1..|h| + 2] == "@";
    forall j | 0 <= j < |h| + 1 ensures !OccursAt(s2, "@", j) {
      assert s2[j..j + 1][0] == s2[j];
    }
    IndexOfIs(s2, "@", |h| + 1);
    assert s2[..|h| + 1][|h|] == '/';
  }

  /** The slow path's rewriting turns `host/@user/statuses/id` into `host/@user`. */
  lemma StatusPathNormalized(h: string, u: string, id: string)
    requires |h| > 0 && |u| > 0
    requires forall j :: 0 <= j < |h| ==> IsHostChar(h[j])
    requires AllWord(u) && IsNumeric(id)
    requires h != "tags"
    ensures NormalizedPath(h + "/@" + u + "/statuses/" + id) == h + "/@" + u
  {
    var s2 := h + "/@" + u + "/statuses/" + id;
    StatusPathChars(h, u, id);
    StatusPathPatterns(h, u, id, "");
    ReplaceFirstAbsent(s2, "https://", "");
    ReplaceFirstAbsent(s2, "/users/", "/@");
    ReplaceFirstAbsent(s2, "/u/", "/@");
    ReplaceFirstAbsent(s2, "@@", "@");
    StatusSuffixStripped(h, u, id);
  }

  /** A status URL `https://host/@user/statuses/id` yields its author's
      handle `user@host`, except for the host `tags`. */
  lemma StatusUrlHandle(h: string, u: string, id: string, server: string)
    requires |h| > 0 && |u| > 0
    requires forall j :: 0 <= j < |h| ==> IsHostChar(h[j])
    requires AllWord(u) && IsNumeric(id)
    requires h != "tags"
    ensures ExtractAccountWebfinger("https://" + h + "/@" + u + "/statuses/" + id, server) == Some(u + "@" + h)
  {
    StatusUrlSlowPath(h, u, id, server);
    StatusPathNormalized(h, u, id);
    HostPathSplit(h, u);
  }

  /** Whatever the input, a result is a text holding `@` or a bare local
      user name; every other normal form gives `null`. */
  lemma WebfingerShape(input: string, server: string)
    ensures var r := ExtractAccountWebfinger(input, server);
      r.Some? ==> Contains(r.value, "@") || IsLocalUsername(r.value)
  {
    if !Contains(input, "/tags/") {
      FromPathShape(NormalizedPath(PreNormalized(input, server)));
    }
  }

  /** The end of the slow path keeps only a text holding `@` or a bare
      local user name. */
  lemma FromPathShape(n: string)
    ensures FromPath(n).Some? ==> Contains(FromPath(n).value, "@") || IsLocalUsername(FromPath(n).value)
  {
    if Contains(n, "/@") {
      var parts := Split(n, "/@");
      var v := parts[1] + "@" + parts[0];
      assert FromPath(n) == Some(v);
      assert v[|parts[1]|..|parts[1]| + 1] == "@";
      assert OccursAt(v, "@", |parts[1]|);
      ContainsIff(v, "@");
    }
  }

  /** The characters of `host/word`: one slash, no `@` and no `:`. */
  lemma HostWordChars(h: string, w: string)
    requires |h| > 0
    requires forall j :: 0 <= j < |h| ==> IsHostChar(h[j])
    requires AllWord(w)
    requires h != "tags"
    ensures var s2 := h + "/" + w;
      && (forall j :: 0 <= j < |s2| ==> s2[j] != '@' && s2[j] != ':')
      && s2[|h|] == '/' && AtMostOnce(s2, '/')
      && !StartsWith(s2, "tags/")
  {
    var s2 := h + "/" + w;
    forall j | 0 <= j < |s2|
      ensures s2[j] == '/' ==> j == |h|
      ensures s2[j] != '@' && s2[j] != ':'
    {
      if j < |h| { assert s2[j] == h[j]; }
      else if j > |h| { assert s2[j] == w[j - |h| - 1]; }
    }
    if |s2| >= 5 {
      if |h| == 4 {
        assert s2[..5][..4] == s2[..4] == h;
      } else if |h| < 4 {
        assert s2[..5][|h|] == '/';
      } else {
        assert s2[..5][4] == h[4];
      }
    }
  }

  /** A URL `https://host/word` that is not a profile URL, such as
      `https://host/about`, gives `null`. */
  lemma HostWordRejected(h: string, w: string, server: string)
    requires |h| > 0
    requires forall j :: 0 <= j < |h| ==> IsHostChar(h[j])
    requires AllWord(w)
    requires h != "tags"
    ensures ExtractAccountWebfinger("https://" + h + "/" + w, server) == None
  {
    HostWordSlowPath(h, w, server);
    HostWordNormalized(h, w);
    HostWordNoPath(h, w);
  }

  /** `host/word` has no `/@`, is no plain handle and no bare user name. */
  lemma HostWordNoPath(h: string, w: string)
    requires |h| > 0
    requires forall j :: 0 <= j < |h| ==> IsHostChar(h[j])
    requires AllWord(w)
    requires h != "tags"
    ensures FromPath(h + "/" + w) == None
  {
    var s2 := h + "/" + w;
    HostWordChars(h, w);
    NotContainsMissingChar(s2, "/@", 1);
    NotContainsMissingChar(s2, "@", 0);
    assert !IsLocalUsername(s2) by { assert !IsWord(s2[|h|]); }
  }

  /** `https://host/word` goes the slow path with the text `host/word`. */
  lemma HostWordSlowPath(h: string, w: string, server: string)
    requires |h| > 0
    requires forall j :: 0 <= j < |h| ==> IsHostChar(h[j])
    requires AllWord(w)
    requires h != "tags"
    ensures ExtractAccountWebfinger("https://" + h + "/" + w, server)
      == FromPath(NormalizedPath(h + "/" + w))
  {
    var s2 := h + "/" + w;
    var x := "https://" + s2;
    assert x == "https://" + h + "/" + w;
    HostWordChars(h, w);
    NotContainsTwice(s2, "/tags/", '/', 5);
    SchemeNoTags(s2);
    NotContainsMissingChar(s2, "https://", 5);
    SchemeDropped(s2, server);
    NotContainsMissingChar(s2, "/" + server + "/@", |server| + 2);
    PreNormalizedFixed(s2, server);
    NotContainsMissingChar(s2, "@", 0);
    assert !IsHandleShape(s2);
  }

  /** None of the slow path's rewritings applies to `host/word`. */
  lemma HostWordNormalized(h: string, w: string)
    requires |h| > 0
    requires forall j :: 0 <= j < |h| ==> IsHostChar(h[j])
    requires AllWord(w)
    requires h != "tags"
    ensures NormalizedPath(h + "/" + w) == h + "/" + w
  {
    var s2 := h + "/" + w;
    HostWordChars(h, w);
    NotContainsMissingChar(s2, "https://", 5);
    NotContainsTwice(s2, "/users/", '/', 6);
    NotContainsTwice(s2, "/u/", '/', 2);
    NotContainsMissingChar(s2, "@@", 0);
    assert s2[0] == h[0];
    SuffixNeedsTwoSlashes(s2);
    NormalizedPathFixed(s2);
  }

  /** A bare user name is kept exactly when it has at most 30 characters. */
  lemma BareUsername(n: string, server: string)
    requires |n| >= 1 && AllWord(n)
    ensures |n| <= 30 ==> ExtractAccountWebfinger(n, server) == Some(n)
    ensures |n| > 30 ==> ExtractAccountWebfinger(n, server) == None
  {
    forall j | 0 <= j < |n| ensures n[j] != '/' && n[j] != '@' && n[j] != ':' {
      assert IsWord(n[j]);
    }
    NotContainsMissingChar(n, "/tags/", 0);
    NotContainsMissingChar(n, "https://", 5);
    NotContainsMissingChar(n, "/" + server + "/@", 0);
    PreNormalizedFixed(n, server);
    NotContainsMissingChar(n, "@", 0);
    assert IsWord(n[0]);
    assert !IsHandleShape(n);
    NotContainsMissingChar(n, "/users/", 0);
    NotContainsMissingChar(n, "/u/", 0);
    NotContainsMissingChar(n, "@@", 0);
    NoSlashNoSuffix(n);
    NormalizedPathFixed(n);
    NotContainsMissingChar(n, "/@", 0);
    assert !IsPlainHandle(n);
  }

  /** Every character of a handle-shaped text is a host character or `@`. */
  lemma HandleShapeChars(v: string)
    requires IsHandleShape(v)
    ensures forall j :: 0 <= j < |v| ==> IsHostChar(v[j]) || v[j] == '@'
  {
    var i := IndexOf(v, "@");
    var h := v[i + 1..];
    var t := h[1..];
    var d := LastIndexOf(t, '.');
    forall j | 0 <= j < |v| ensures IsHostChar(v[j]) || v[j] == '@' {
      if j < i { assert v[..i][j] == v[j]; }
      else if j == i { assert v[i..i + 1] == "@"; }
      else if j == i + 1 { assert v[j] == h[0]; }
      else { assert v[j] == t[j - i - 2]; }
    }
  }

  /** A `user@host.tld` handle is its own normal form. */
  lemma HandleIsFixedPoint(v: string, server: string)
    requires IsHandleShape(v)
    ensures ExtractAccountWebfinger(v, server) == Some(v)
  {
    HandleShapeChars(v);
    NotContainsMissingChar(v, "/tags/", 0);
    NotContainsMissingChar(v, "https://", 5);
    NotContainsMissingChar(v, "/" + server + "/@", 0);
    PreNormalizedFixed(v, server);
    assert v[..IndexOf(v, "@")][0] == v[0];
  }

  // ---------------------------------------------------------------------------
  // changeKeysToCamelCase
  // ---------------------------------------------------------------------------

  /** `transformCase`: every non-overlapping `_\w`, scanned from the left, is
      replaced by its word character in upper case. */
  function CamelCase(s: string): (r: string)
    ensures |r| <= |s|
  {
    if |s| == 0 then s
    else if |s| >= 2 && s[0] == '_' && IsWord(s[1]) then [ToUpperChar(s[1])] + CamelCase(s[2..])
    else [s[0]] + CamelCase(s[1..])
  }

  /** A key without underscores is already in camel case. */
  lemma {:induction false} CamelCaseNoUnderscore(s: string)
    requires forall i :: 0 <= i < |s| ==> s[i] != '_'
    ensures CamelCase(s) == s
  {
    if |s| > 0 {
      CamelCaseNoUnderscore(s[1..]);
    }
  }

  /** The scan never carries a match across the end of a part that does not
      end in `_`. */
  lemma {:induction false} CamelCaseConcat(a: string, b: string)
    requires a == [] || a[|a| - 1] != '_'
    ensures CamelCase(a + b) == CamelCase(a) + CamelCase(b)
  {
    if a == [] {
      assert a + b == b;
    } else if |a| >= 2 && a[0] == '_' && IsWord(a[1]) {
      var s := a + b;
      assert s[0] == a[0] && s[1] == a[1];
      assert s[2..] == a[2..] + b;
      CamelCaseConcat(a[2..], b);
      CamelUpper(s);
      CamelUpper(a);
      ConcatAssoc([ToUpperChar(a[1])], CamelCase(a[2..]), CamelCase(b));
    } else {
      var s := a + b;
      assert s[0] == a[0];
      assert !(|s| >= 2 && s[0] == '_' && IsWord(s[1])) by {
        if |a| >= 2 { assert s[1] == a[1]; }
      }
      assert s[1..] == a[1..] + b;
      CamelCaseConcat(a[1..], b);
      CamelKeep(s);
      CamelKeep(a);
      ConcatAssoc([a[0]], CamelCase(a[1..]), CamelCase(b));
    }
  }

  /** One step of the scan over a match `_\w`. */
  lemma CamelUpper(s: string)
    requires |s| >= 2 && s[0] == '_' && IsWord(s[1])
    ensures CamelCase(s) == [ToUpperChar(s[1])] + CamelCase(s[2..])
  {
  }

  /** One step of the scan over a character that starts no match. */
  lemma CamelKeep(s: string)
    requires |s| >= 1 && !(|s| >= 2 && s[0] == '_' && IsWord(s[1]))
    ensures CamelCase(s) == [s[0]] + CamelCase(s[1..])
  {
  }

  /** An underscore before a word character is dropped and the character
      capitalised. */
  lemma UnderscoreWord(b: string)
    requires |b| >= 1 && IsWord(b[0])
    ensures CamelCase("_" + b) == [ToUpperChar(b[0])] + CamelCase(b[1..])
  {
    var t := "_" + b;
    assert t[0] == '_' && t[1] == b[0] && t[2..] == b[1..];
  }

  /** `first_rest` becomes `firstRest`: the underscore goes and the letter
      after it is capitalised. */
  lemma SnakeSegment(a: string, b: string)
    requires forall i :: 0 <= i < |a| ==> a[i] != '_'
    requires forall i :: 0 <= i < |b| ==> b[i] != '_'
    requires |b| >= 1 && IsWord(b[0])
    ensures CamelCase(a + "_" + b) == a + [ToUpperChar(b[0])] + b[1..]
  {
    var t := "_" + b;
    ConcatAssoc(a, "_", b);
    CamelCaseConcat(a, t);
    CamelCaseNoUnderscore(a);
    UnderscoreWord(b);
    CamelCaseNoUnderscore(b[1..]);
    ConcatAssoc(a, [ToUpperChar(b[0])], b[1..]);
  }

  /** The key rewriting of `transformKeys`: keys holding `:` (preference
      names) and keys starting with `_` (`_destroy`) are kept. */
  function TransformKey(key: string): (r: string)
    ensures Contains(key, ":") || StartsWith(key, "_") ==> r == key
    ensures !Contains(key, ":") && !StartsWith(key, "_") ==> r == CamelCase(key)
  {
    if Contains(key, ":") then key
    else if StartsWith(key, "_") then key
    else CamelCase(key)
  }

  /** A JSON document: an object is the list of its entries in enumeration order. */
  datatype Json =
    | JNull
    | JBool(b: bool)
    | JNum(n: int)
    | JStr(s: string)
    | JArr(items: seq<Json>)
    | JObj(fields: seq<Field>)

  datatype Field = Field(key: string, value: Json)

  function Keys(fs: seq<Field>): seq<string> {
    seq(|fs|, i requires 0 <= i < |fs| => fs[i].key)
  }

  predicate DistinctKeys(fs: seq<Field>) {
    forall i, j :: 0 <= i < j < |fs| ==> fs[i].key != fs[j].key
  }

  /** The position of the entry with key `k`, or -1. */
  function FindKey(fs: seq<Field>, k: string): (r: int)
    ensures -1 <= r < |fs|
    ensures r >= 0 ==> fs[r].key == k && forall j :: 0 <= j < r ==> fs[j].key != k
    ensures r == -1 ==> forall j :: 0 <= j < |fs| ==> fs[j].key != k
  {
    if |fs| == 0 then -1
    else if fs[0].key == k then 0
    else
      var r := FindKey(fs[1..], k);
      if r < 0 then -1 else r + 1
  }

  /** One step of `Object.fromEntries`: a repeated key takes the new value
      and keeps its first position. */
  function AddEntry(acc: seq<Field>, f: Field): seq<Field> {
    var i := FindKey(acc, f.key);
    if i < 0 then acc + [f] else acc[i := f]
  }

  /** `Object.fromEntries(entries)`, read back through `Object.entries`. */
  function FromEntries(fs: seq<Field>): seq<Field>
    decreases |fs|
  {
    if |fs| == 0 then [] else AddEntry(FromEntries(fs[..|fs| - 1]), fs[|fs| - 1])
  }

  predicate HasKey(fs: seq<Field>, k: string) { FindKey(fs, k) >= 0 }

  /** The position of the last entry with key `k`, or -1. */
  function LastKey(fs: seq<Field>, k: string): (r: int)
    ensures -1 <= r < |fs|
    ensures r >= 0 ==> fs[r].key == k && forall j :: r < j < |fs| ==> fs[j].key != k
    ensures r == -1 ==> forall j :: 0 <= j < |fs| ==> fs[j].key != k
    decreases |fs|
  {
    if |fs| == 0 then -1
    else if fs[|fs| - 1].key == k then |fs| - 1
    else LastKey(fs[..|fs| - 1], k)
  }

  /** One `fromEntries` step keeps keys distinct, adds the new key, and
      leaves every other key's entry alone. */
  lemma AddEntrySpec(acc: seq<Field>, f: Field)
    requires DistinctKeys(acc)
    ensures var r := AddEntry(acc, f);
      && DistinctKeys(r)
      && (forall k :: HasKey(r, k) <==> HasKey(acc, k) || k == f.key)
      && HasKey(r, f.key)
      && r[FindKey(r, f.key)] == f
      && (forall k :: k != f.key && HasKey(acc, k) ==> r[FindKey(r, k)] == acc[FindKey(acc, k)])
  {
    AddEntryKeys(acc, f);
    AddEntryNew(acc, f);
    AddEntryOthers(acc, f);
  }

  lemma AddEntryKeys(acc: seq<Field>, f: Field)
    requires DistinctKeys(acc)
    ensures DistinctKeys(AddEntry(acc, f))
    ensures forall k :: HasKey(AddEntry(acc, f), k) <==> HasKey(acc, k) || k == f.key
  {
    var r := AddEntry(acc, f);
    var p := FindKey(acc, f.key);
    forall k ensures HasKey(r, k) <==> HasKey(acc, k) || k == f.key {
      if HasKey(acc, k) { assert r[FindKey(acc, k)].key == k; }
      if k == f.key { if p < 0 { assert r[|acc|].key == k; } else { assert r[p].key == k; } }
      if HasKey(r, k) {
        var j := FindKey(r, k);
        if k != f.key { assert acc[j].key == k; }
      }
    }
  }

  lemma AddEntryNew(acc: seq<Field>, f: Field)
    requires DistinctKeys(acc)
    ensures HasKey(AddEntry(acc, f), f.key)
    ensures AddEntry(acc, f)[FindKey(AddEntry(acc, f), f.key)] == f
  {
    var r := AddEntry(acc, f);
    var p := FindKey(acc, f.key);
    if p >= 0 {
      assert forall i :: 0 <= i < p ==> r[i].key == acc[i].key;
      assert r[p].key == f.key;
      FindKeyIs(r, f.key, p);
    } else {
      assert forall i :: 0 <= i < |acc| ==> r[i].key == acc[i].key;
      assert r[|acc|] == f;
      FindKeyIs(r, f.key, |acc|);
    }
  }

  lemma AddEntryOthers(acc: seq<Field>, f: Field)
    requires DistinctKeys(acc)
    ensures forall k :: k != f.key && HasKey(acc, k) ==>
      HasKey(AddEntry(acc, f), k) && AddEntry(acc, f)[FindKey(AddEntry(acc, f), k)] == acc[FindKey(acc, k)]
  {
    var r := AddEntry(acc, f);
    forall k | k != f.key && HasKey(acc, k)
      ensures HasKey(r, k) && r[FindKey(r, k)] == acc[FindKey(acc, k)]
    {
      var j := FindKey(acc, k);
      assert r[j] == acc[j];
      assert forall i :: 0 <= i < j ==> r[i].key == acc[i].key;
      FindKeyIs(r, k, j);
    }
  }

  /** The first entry with key `k` is the one with none before it. */
  lemma FindKeyIs(fs: seq<Field>, k: string, i: int)
    requires 0 <= i < |fs| && fs[i].key == k
    requires forall j :: 0 <= j < i ==> fs[j].key != k
    ensures FindKey(fs, k) == i
  {
    var r := FindKey(fs, k);
    assert r >= 0 by { assert fs[i].key == k; }
  }

  /** The entries of `Object.fromEntries` have distinct keys, the same keys
      as the input, and each key holds the last value given for it. */
  lemma {:induction false} FromEntriesSpec(fs: seq<Field>)
    ensures DistinctKeys(FromEntries(fs))
    ensures forall k :: HasKey(FromEntries(fs), k) <==> HasKey(fs, k)
    ensures forall k :: HasKey(fs, k) ==>
      HasKey(FromEntries(fs), k) && FromEntries(fs)[FindKey(FromEntries(fs), k)] == fs[LastKey(fs, k)]
    decreases |fs|
  {
    if |fs| > 0 {
      var init := fs[..|fs| - 1];
      var last := fs[|fs| - 1];
      FromEntriesSpec(init);
      AddEntrySpec(FromEntries(init), last);
      forall k ensures HasKey(fs, k) <==> HasKey(init, k) || k == last.key {
        if HasKey(init, k) { assert fs[FindKey(init, k)].key == k; }
        if HasKey(fs, k) && k != last.key { assert init[FindKey(fs, k)].key == k; }
      }
      forall k | HasKey(fs, k) && k != last.key ensures LastKey(fs, k) == LastKey(init, k) {
      }
    }
  }

  /** With distinct keys, `Object.fromEntries` keeps every entry where it is. */
  lemma {:induction false} FromEntriesDistinct(fs: seq<Field>)
    requires DistinctKeys(fs)
    ensures FromEntries(fs) == fs
    decreases |fs|
  {
    if |fs| > 0 {
      var init := fs[..|fs| - 1];
      FromEntriesDistinct(init);
      assert FindKey(init, fs[|fs| - 1].key) == -1;
      assert init + [fs[|fs| - 1]] == fs;
    }
  }

  /** `transformKeys(data, transformCase)`: arrays are mapped element by
      element, objects are rebuilt from their renamed entries, and every
      other value is returned as it is. */
  function TransformJson(d: Json): (r: Json)
    ensures !d.JArr? && !d.JObj? ==> r == d
    ensures d.JArr? ==> r.JArr? && |r.items| == |d.items|
    ensures d.JObj? ==> r.JObj?
    decreases d
  {
    match d
    case JArr(items) =>
      JArr(seq(|items|, i requires 0 <= i < |items| => TransformJson(items[i])))
    case JObj(fs) =>
      JObj(FromEntries(seq(|fs|, i requires 0 <= i < |fs| =>
        Field(TransformKey(fs[i].key), TransformJson(fs[i].value)))))
    case _ => d
  }

  /** `changeKeysToCamelCase(d)`. */
  function ChangeKeysToCamelCase(d: Json): (r: Json) {
    TransformJson(d)
  }

  /** A document whose objects have distinct keys none of which has `_`. */
  predicate IsCamelDocument(d: Json)
    decreases d
  {
    match d
    case JArr(items) => forall i :: 0 <= i < |items| ==> IsCamelDocument(items[i])
    case JObj(fs) =>
      && DistinctKeys(fs)
      && (forall i :: 0 <= i < |fs| ==> (forall c :: 0 <= c < |fs[i].key| ==> fs[i].key[c] != '_'))
      && (forall i :: 0 <= i < |fs| ==> IsCamelDocument(fs[i].value))
    case _ => true
  }

  /** A document already in camel case is returned unchanged. */
  lemma {:induction false} CamelDocumentFixed(d: Json)
    requires IsCamelDocument(d)
    ensures ChangeKeysToCamelCase(d) == d
    decreases d
  {
    match d
    case JArr(items) =>
      forall i | 0 <= i < |items| ensures TransformJson(items[i]) == items[i] {
        CamelDocumentFixed(items[i]);
      }
      assert TransformJson(d).items == items;
    case JObj(fs) =>
      var mapped := seq(|fs|, i requires 0 <= i < |fs| =>
        Field(TransformKey(fs[i].key), TransformJson(fs[i].value)));
      forall i | 0 <= i < |fs| ensures mapped[i] == fs[i] {
        CamelDocumentFixed(fs[i].value);
        CamelCaseNoUnderscore(fs[i].key);
      }
      assert mapped == fs;
      FromEntriesDistinct(fs);
    case _ =>
  }

  /** When the renamed keys of an object stay distinct, each entry keeps its
      place and holds its renamed key and its transformed value. */
  lemma ObjectEntriesRenamed(fs: seq<Field>)
    requires forall i, j :: 0 <= i < j < |fs| ==> TransformKey(fs[i].key) != TransformKey(fs[j].key)
    ensures var r := ChangeKeysToCamelCase(JObj(fs));
      && |r.fields| == |fs|
      && forall i :: 0 <= i < |fs| ==>
           r.fields[i] == Field(TransformKey(fs[i].key), ChangeKeysToCamelCase(fs[i].value))
  {
    var mapped := seq(|fs|, i requires 0 <= i < |fs| =>
      Field(TransformKey(fs[i].key), TransformJson(fs[i].value)));
    FromEntriesDistinct(mapped);
  }
}
