/** The account handle helpers of composables/masto/account.ts: the display
    name with its custom-emoji shortcodes, the short and full `@` handles,
    the server name of a profile URL, and the `acct` of an account as seen
    from the server the user is signed in to. */
module AccountHandles {
  import opened JsText
  import opened Optional
  import opened Mastodon
  import Normalize

  // ---------------------------------------------------------------------------
  // Display name
  // ---------------------------------------------------------------------------

  /** A character of `[\w-]`, the body of a custom-emoji shortcode. */
  predicate IsCodeChar(c: char) { IsWord(c) || c == '-' }

  /** The length of the run of shortcode characters that opens `t`. */
  function CodeRun(t: string): (n: nat)
    ensures n <= |t|
    ensures forall i :: 0 <= i < n ==> IsCodeChar(t[i])
    ensures n < |t| ==> !IsCodeChar(t[n])
  {
    if |t| == 0 || !IsCodeChar(t[0]) then 0 else 1 + CodeRun(t[1..])
  }

  /** `s` opens with a shortcode `:name:`; its length is `CodeRun(s[1..]) + 2`.
      Since `:` is not a shortcode character, the lazy `[\w-]+?` of the
      pattern can only stop at the end of the run. */
  predicate OpensWithShortcode(s: string) {
    && |s| >= 3
    && s[0] == ':'
    && CodeRun(s[1..]) > 0
    && CodeRun(s[1..]) + 1 < |s|
    && s[CodeRun(s[1..]) + 1] == ':'
  }

  /** `s.replace(/:([\w-]+?):/g, '')`: one left-to-right pass that drops each
      shortcode it meets and resumes after it. */
  function StripShortcodes(s: string): (r: string)
    ensures |r| <= |s|
    ensures ':' !in s ==> r == s
    decreases |s|
  {
    if |s| == 0 then ""
    else if OpensWithShortcode(s) then StripShortcodes(s[CodeRun(s[1..]) + 2..])
    else [s[0]] + StripShortcodes(s[1..])
  }

  /** The run of a shortcode name followed by `:` is the whole name. */
  lemma CodeRunOfName(c: string, rest: string)
    requires forall i :: 0 <= i < |c| ==> IsCodeChar(c[i])
    ensures CodeRun(c + ":" + rest) == |c|
    decreases |c|
  {
    if |c| > 0 {
      assert (c + ":" + rest)[1..] == c[1..] + ":" + rest;
      CodeRunOfName(c[1..], rest);
    }
  }

  /** A shortcode is removed whole, and the pass resumes right after it. */
  lemma ShortcodeRemoved(c: string, rest: string)
    requires |c| > 0
    requires forall i :: 0 <= i < |c| ==> IsCodeChar(c[i])
    ensures StripShortcodes(":" + c + ":" + rest) == StripShortcodes(rest)
  {
    var s := ":" + c + ":" + rest;
    assert s[1..] == c + ":" + rest;
    CodeRunOfName(c, rest);
    assert OpensWithShortcode(s);
    assert s[|c| + 2..] == rest;
  }

  /** A first character other than `:` is kept, and the pass goes on after it. */
  lemma KeepsFirst(s: string)
    requires |s| > 0 && s[0] != ':'
    ensures StripShortcodes(s) == [s[0]] + StripShortcodes(s[1..])
  {
  }

  /** Text without a colon is kept as it is, whatever follows it. */
  lemma {:induction false} PlainPrefixKept(a: string, b: string)
    requires ':' !in a
    ensures StripShortcodes(a + b) == a + StripShortcodes(b)
    decreases |a|
  {
    if |a| == 0 {
      assert a + b == b;
    } else {
      var s := a + b;
      assert a[0] in a;
      assert s[0] == a[0] && s[1..] == a[1..] + b;
      KeepsFirst(s);
      PlainPrefixKept(a[1..], b);
      ConcatAssoc([a[0]], a[1..], StripShortcodes(b));
      assert a == [a[0]] + a[1..];
    }
  }

  /** The pass is not repeated: dropping `:x:` can bring a `:` and a name
      together into a new shortcode, which stays in the result. */
  lemma SinglePass(x: string, b: string)
    requires |x| > 0 && forall i :: 0 <= i < |x| ==> IsCodeChar(x[i])
    requires |b| > 0 && forall i :: 0 <= i < |b| ==> IsCodeChar(b[i])
    ensures StripShortcodes("::" + x + ":" + b + ":") == ":" + b + ":"
    ensures StripShortcodes(":" + b + ":") == ""
  {
    var s := "::" + x + ":" + b + ":";
    assert s[1..] == ":" + x + ":" + (b + ":");
    DoubleColonKeepsOne(s);
    ShortcodeRemoved(x, b + ":");
    assert ':' !in b by {
      forall i | 0 <= i < |b| ensures b[i] != ':' { assert IsCodeChar(b[i]); }
    }
    PlainPrefixKept(b, ":");
    assert StripShortcodes(":") == ":";
    ShortcodeRemoved(b, "");
    assert ":" + b + ":" + "" == ":" + b + ":";
  }

  /** `::` does not open a shortcode: the first colon is kept. */
  lemma DoubleColonKeepsOne(s: string)
    requires |s| >= 2 && s[0] == ':' && s[1] == ':'
    ensures StripShortcodes(s) == ":" + StripShortcodes(s[1..])
  {
    assert CodeRun(s[1..]) == 0;
  }

  /** `account.displayName || account.username || account.acct || ''`. */
  function NameOf(a: Account): (r: string)
    ensures r == "" <==> a.displayName == "" && a.username == "" && a.acct == ""
    ensures r in {a.displayName, a.username, a.acct}
    ensures a.displayName != "" ==> r == a.displayName
    ensures a.displayName == "" && a.username != "" ==> r == a.username
  {
    if a.displayName != "" then a.displayName
    else if a.username != "" then a.username
    else a.acct
  }

  /** getDisplayName: the name as it is when `rich`, else without shortcodes. */
  function DisplayName(a: Account, rich: bool): (r: string)
    ensures rich ==> r == NameOf(a)
    ensures !rich ==> r == StripShortcodes(NameOf(a))
    ensures |r| <= |NameOf(a)|
  {
    var name := NameOf(a);
    if rich then name else StripShortcodes(name)
  }

  /** Without shortcodes in it, the plain name is the rich one. */
  lemma PlainNameIsRichName(a: Account)
    requires ':' !in NameOf(a)
    ensures DisplayName(a, false) == DisplayName(a, true)
  {
  }

  /** A display name made of one custom emoji is shown as the empty string:
      the fallback to the username looks at the name before the shortcodes
      are removed. */
  lemma EmojiOnlyNameIsEmpty(a: Account, code: string)
    requires |code| > 0 && forall i :: 0 <= i < |code| ==> IsCodeChar(code[i])
    requires a.displayName == ":" + code + ":"
    ensures DisplayName(a, false) == ""
    ensures DisplayName(a, true) == a.displayName
  {
    ShortcodeRemoved(code, "");
    assert ":" + code + ":" + "" == a.displayName;
  }

  // ---------------------------------------------------------------------------
  // Handles
  // ---------------------------------------------------------------------------

  /** getShortHandle: `@username`, or `''` for an account without `acct`. */
  function ShortHandle(a: Account): (r: string)
    ensures r == "" <==> a.acct == ""
    ensures r != "" ==> r[0] == '@' && r[1..] == a.username
  {
    if a.acct == "" then "" else "@" + a.username
  }

  /** getServerName: the URL without its first `https://`, up to the first `/`. */
  function ServerName(url: string): (r: string)
    ensures '/' !in r
    ensures |r| <= |url|
  {
    var r := Before(ReplaceFirst(url, "https://", ""), "/");
    assert '/' !in r by {
      if k :| 0 <= k < |r| && r[k] == '/' {
        assert OccursAt(r, "/", k);
        ContainsIff(r, "/");
      }
    }
    r
  }

  /** The first `/` of `host/path` is the one after the host. */
  lemma FirstSlashAfterHost(host: string, path: string)
    requires '/' !in host
    ensures IndexOf(host + "/" + path, "/") == |host|
  {
    var x := host + "/" + path;
    assert OccursAt(x, "/", |host|) by { assert x[|host|..|host| + 1] == "/"; }
    forall j | 0 <= j < |host| ensures !OccursAt(x, "/", j) {
      assert x[j..j + 1][0] == host[j];
    }
    IndexOfIs(x, "/", |host|);
  }

  /** `host/path` split at `/` starts with `host`. */
  lemma HostBeforeSlash(host: string, path: string)
    requires '/' !in host
    ensures Before(host + "/" + path, "/") == host
  {
    var x := host + "/" + path;
    FirstSlashAfterHost(host, path);
    assert Contains(x, "/");
    assert x[..|host|] == host;
  }

  /** Past the scheme, the server name is the text up to the first `/`. */
  lemma ServerNameAfterScheme(x: string)
    ensures ServerName("https://" + x) == Before(x, "/")
  {
    Normalize.DropScheme(x);
  }

  /** The server name of a profile URL `https://host/path` is `host`. */
  lemma ServerNameOfUrl(host: string, path: string)
    requires '/' !in host
    ensures ServerName("https://" + host + "/" + path) == host
  {
    var x := host + "/" + path;
    ConcatAssoc("https://", host, "/");
    ConcatAssoc("https://", host + "/", path);
    ServerNameAfterScheme(x);
    HostBeforeSlash(host, path);
  }

  /** `@username@server`, the handle before the local part is dropped. */
  function QualifiedHandle(a: Account): (r: string)
    ensures a.acct != "" ==> r == ShortHandle(a) + "@" + ServerName(a.url)
    ensures |r| > |a.username| + 1 && r[0] == '@' && r[|a.username| + 1] == '@'
  {
    "@" + a.username + "@" + ServerName(a.url)
  }

  /** getFullHandle as written: with a signed-in user, the first occurrence of
      `@<server>` is removed from `@username@host`. */
  function FullHandle(a: Account, currentServer: Option<string>): (r: string)
    ensures !Truthy(currentServer) ==> r == QualifiedHandle(a)
    ensures Truthy(currentServer) && !Contains(QualifiedHandle(a), "@" + currentServer.value)
      ==> r == QualifiedHandle(a)
    ensures |r| <= |QualifiedHandle(a)|
  {
    var handle := QualifiedHandle(a);
    if Truthy(currentServer) then ReplaceFirst(handle, "@" + currentServer.value, "") else handle
  }

  /** getAcctFromPerspectiveOfCurrentServer as written: the first occurrence of
      `@<currentServer>` is removed from `username@host`. */
  function AcctFromPerspective(a: Account, currentServer: string): (r: string)
    ensures !Contains(a.username + "@" + ServerName(a.url), "@" + currentServer)
      ==> r == a.username + "@" + ServerName(a.url)
    ensures |r| <= |a.username| + 1 + |ServerName(a.url)|
  {
    ReplaceFirst(a.username + "@" + ServerName(a.url), "@" + currentServer, "")
  }

  /** parseAcctFromPerspectiveOfCurrentServer: the normalised handle of the
      input without the first `@<currentServer>`, undefined when the input
      does not normalise. */
  function ParseAcct(input: string, currentServer: string): (r: Option<string>)
    ensures r.None? <==> Normalize.ExtractAccountWebfinger(input, currentServer).None?
  {
    LocalPart(Normalize.ExtractAccountWebfinger(input, currentServer), currentServer)
  }

  /** `wf?.replace('@' + currentServer, '')`. */
  function LocalPart(wf: Option<string>, currentServer: string): (r: Option<string>)
    ensures r.None? <==> wf.None?
    ensures r.Some? ==> |r.value| <= |wf.value|
    ensures wf.Some? && !Contains(wf.value, "@" + currentServer) ==> r == wf
  {
    match wf
    case None => None
    case Some(w) => Some(ReplaceFirst(w, "@" + currentServer, ""))
  }

  // ---------------------------------------------------------------------------
  // Local and remote accounts
  // ---------------------------------------------------------------------------

  /** The `acct` convention of Mastodon: a local account is its bare username,
      a remote one `username@host`. */
  function LocalAcct(username: string, host: string, server: string): (r: string)
    ensures '@' !in username ==> ('@' !in r <==> host == server)
  {
    if host == server then username else username + "@" + host
  }

  /** The webfinger address an `acct` stands for on `server`. */
  function FullAcct(acct: string, server: string): string {
    if '@' in acct then acct else acct + "@" + server
  }

  /** Every account is recovered from its local `acct`. */
  lemma LocalAcctRoundTrip(username: string, host: string, server: string)
    requires '@' !in username
    ensures FullAcct(LocalAcct(username, host, server), server) == username + "@" + host
  {
    if host != server {
      assert (username + "@" + host)[|username|] == '@';
    }
  }

  /** Removing the first `@<server>` from `prefix@server rest`, where the
      prefix holds no `@`, leaves `prefix rest`. */
  lemma ServerStripped(prefix: string, server: string, rest: string)
    requires '@' !in prefix
    ensures ReplaceFirst(prefix + "@" + server + rest, "@" + server, "") == prefix + rest
  {
    var x := prefix + "@" + server + rest;
    var p := "@" + server;
    assert x[|prefix|..|prefix| + |p|] == p;
    forall j | 0 <= j < |prefix| ensures !OccursAt(x, p, j) {
      assert x[j..j + |p|][0] == x[j] == prefix[j];
    }
    IndexOfIs(x, p, |prefix|);
    assert x[..|prefix|] == prefix;
    assert x[|prefix| + |p|..] == rest;
  }

  /** The first occurrence is not moved by a leading character that does not
      start one. */
  lemma ReplaceUnderLead(c: char, y: string, p: string)
    requires !StartsWith([c] + y, p)
    ensures ReplaceFirst([c] + y, p, "") == [c] + ReplaceFirst(y, p, "")
  {
    var x := [c] + y;
    var i := IndexOf(y, p);
    IndexOfUnderLead(c, y, p);
    if i >= 0 {
      RemovedUnderLead(c, y, p, i);
    }
  }

  /** Removing the occurrence found one place on, under the leading character. */
  lemma RemovedUnderLead(c: char, y: string, p: string, i: int)
    requires 0 <= i && i + |p| <= |y|
    requires IndexOf(y, p) == i && IndexOf([c] + y, p) == i + 1
    ensures ReplaceFirst([c] + y, p, "") == [c] + ReplaceFirst(y, p, "")
  {
    RemoveFound(y, p, i);
    RemoveFound([c] + y, p, i + 1);
    LeadSlices(c, y, i, i + |p|);
  }

  /** Removing the first occurrence, once its position is known. */
  lemma RemoveFound(s: string, p: string, i: int)
    requires 0 <= i && IndexOf(s, p) == i
    ensures ReplaceFirst(s, p, "") == s[..i] + s[i + |p|..]
  {
    var head, tail := s[..i], s[i + |p|..];
    calc {
      ReplaceFirst(s, p, "");
      head + "" + tail;
      { assert head + "" == head; }
      head + tail;
    }
  }

  /** Cutting `[c] + y` one place further on cuts `y` under the lead. */
  lemma LeadSlices(c: char, y: string, a: int, b: int)
    requires 0 <= a <= b <= |y|
    ensures ([c] + y)[..a + 1] + ([c] + y)[b + 1..] == [c] + (y[..a] + y[b..])
  {
    var x := [c] + y;
    assert x[..a + 1] == [c] + y[..a];
    assert x[b + 1..] == y[b..];
  }

  /** A leading character that does not start an occurrence moves the first
      occurrence one place on. */
  lemma IndexOfUnderLead(c: char, y: string, p: string)
    requires !StartsWith([c] + y, p)
    ensures IndexOf([c] + y, p) == if IndexOf(y, p) < 0 then -1 else IndexOf(y, p) + 1
  {
    assert ([c] + y)[1..] == y;
  }

  /** getAcctFromPerspectiveOfCurrentServer, corrected: the host is dropped
      exactly when it is the current server. */
  function AcctFromPerspectiveFixed(a: Account, currentServer: string): (r: string)
    ensures '@' !in a.username ==>
      FullAcct(r, currentServer) == a.username + "@" + ServerName(a.url)
    ensures '@' !in a.username ==> (r == a.username <==> ServerName(a.url) == currentServer)
  {
    var host := ServerName(a.url);
    var r := LocalAcct(a.username, host, currentServer);
    assert '@' !in a.username ==> FullAcct(r, currentServer) == a.username + "@" + host by {
      if '@' !in a.username { LocalAcctRoundTrip(a.username, host, currentServer); }
    }
    r
  }

  /** The code as written agrees with the correction for local accounts and
      for every host the current server's name does not occur in. */
  lemma AcctAgreesWithFix(a: Account, currentServer: string)
    requires '@' !in a.username
    requires ServerName(a.url) == currentServer
      || !Contains(a.username + "@" + ServerName(a.url), "@" + currentServer)
    ensures AcctFromPerspective(a, currentServer) == AcctFromPerspectiveFixed(a, currentServer)
  {
    if ServerName(a.url) == currentServer {
      ServerStripped(a.username, currentServer, "");
      assert a.username + "@" + currentServer + "" == a.username + "@" + currentServer;
    }
  }

  /** A host that extends the current server's name, as `example.com.au`
      does `example.com`: the code as written removes `@<server>` from the
      middle of `username@<server><ext>`, and the result no longer names the
      account. */
  lemma AcctOfExtendedHost(a: Account, currentServer: string, ext: string)
    requires '@' !in a.username && '@' !in ext
    requires ServerName(a.url) == currentServer + ext && ext != ""
    ensures AcctFromPerspective(a, currentServer) == a.username + ext
    ensures AcctFromPerspectiveFixed(a, currentServer) == a.username + "@" + currentServer + ext
    ensures FullAcct(AcctFromPerspective(a, currentServer), currentServer)
      != a.username + "@" + ServerName(a.url)
  {
    ServerStripped(a.username, currentServer, ext);
    assert a.username + "@" + (currentServer + ext) == a.username + "@" + currentServer + ext;
    var r := a.username + ext;
    assert '@' !in r by {
      forall k | 0 <= k < |r| ensures r[k] != '@' {
        if k < |a.username| { assert r[k] == a.username[k]; } else { assert r[k] == ext[k - |a.username|]; }
      }
    }
    assert (r + "@" + currentServer)[|a.username|] == ext[0] != '@';
    assert (a.username + "@" + ServerName(a.url))[|a.username|] == '@';
  }

  /** getFullHandle, corrected: `@username` for an account of the signed-in
      user's server, `@username@host` otherwise. */
  function FullHandleFixed(a: Account, currentServer: Option<string>): (r: string)
    ensures |r| > 0 && r[0] == '@'
    ensures '@' !in a.username && Truthy(currentServer) ==>
      "@" + FullAcct(r[1..], currentServer.value) == QualifiedHandle(a)
    ensures !Truthy(currentServer) ==> r == QualifiedHandle(a)
  {
    if Truthy(currentServer) then
      var r := "@" + AcctFromPerspectiveFixed(a, currentServer.value);
      assert r[1..] == AcctFromPerspectiveFixed(a, currentServer.value);
      r
    else QualifiedHandle(a)
  }

  /** Unless the handle itself opens with `@<server>`, getFullHandle is `@`
      followed by getAcctFromPerspectiveOfCurrentServer. */
  lemma FullHandleIsAcct(a: Account, currentServer: string)
    requires currentServer != ""
    requires !StartsWith(QualifiedHandle(a), "@" + currentServer)
    ensures FullHandle(a, Some(currentServer)) == "@" + AcctFromPerspective(a, currentServer)
  {
    var y := a.username + "@" + ServerName(a.url);
    assert QualifiedHandle(a) == ['@'] + y;
    ReplaceUnderLead('@', y, "@" + currentServer);
  }

  /** The handle as written agrees with the correction for local accounts and
      for hosts the server's name does not occur in, as long as the username
      does not begin with the server's name. */
  lemma FullHandleAgreesWithFix(a: Account, currentServer: Option<string>)
    requires '@' !in a.username
    requires Truthy(currentServer) ==>
      && !StartsWith(QualifiedHandle(a), "@" + currentServer.value)
      && (ServerName(a.url) == currentServer.value
          || !Contains(a.username + "@" + ServerName(a.url), "@" + currentServer.value))
    ensures FullHandle(a, currentServer) == FullHandleFixed(a, currentServer)
  {
    if Truthy(currentServer) {
      FullHandleIsAcct(a, currentServer.value);
      AcctAgreesWithFix(a, currentServer.value);
    }
  }

  /** The handle of an account whose host extends the signed-in user's
      server name loses the server's name from the middle of the host. */
  lemma FullHandleOfExtendedHost(a: Account, currentServer: string, ext: string)
    requires '@' !in a.username && '@' !in ext && currentServer != ""
    requires ServerName(a.url) == currentServer + ext && ext != ""
    requires !StartsWith(QualifiedHandle(a), "@" + currentServer)
    ensures FullHandle(a, Some(currentServer)) == "@" + a.username + ext
  {
    FullHandleIsAcct(a, currentServer);
    AcctOfExtendedHost(a, currentServer, ext);
  }

  /** A username that begins with the name of a server without a dot in it,
      as `localhostuser` on `localhost`: the handle as written loses the
      start of the username instead of the host. */
  lemma FullHandleOfPrefixedUsername(a: Account, currentServer: string, tail: string)
    requires currentServer != "" && a.username == currentServer + tail
    requires ServerName(a.url) == currentServer
    ensures FullHandle(a, Some(currentServer)) == tail + "@" + currentServer
    ensures '@' !in a.username ==> FullHandleFixed(a, Some(currentServer)) == "@" + a.username
  {
    var p := "@" + currentServer;
    ConcatAssoc("@", currentServer, tail);
    ConcatAssoc(p, tail, "@");
    ConcatAssoc(p, tail + "@", currentServer);
    assert QualifiedHandle(a) == p + (tail + "@" + currentServer);
    RemoveLeading(p, tail + "@" + currentServer);
  }

  /** Removing the first occurrence of a text that the input opens with. */
  lemma RemoveLeading(p: string, rest: string)
    requires |p| > 0
    ensures ReplaceFirst(p + rest, p, "") == rest
  {
    var x := p + rest;
    assert x[..|p|] == p;
    IndexOfIs(x, p, 0);
    RemoveFound(x, p, 0);
    assert x[|p|..] == rest;
  }

  /** The local part of a local handle, `user@server`, is the bare username. */
  lemma LocalHandleLocalPart(username: string, server: string)
    requires '@' !in username
    ensures LocalPart(Some(username + "@" + server), server) == Some(username)
  {
    ServerStripped(username, server, "");
    assert username + "@" + server + "" == username + "@" + server;
    assert username + "" == username;
  }

  /** A remote handle parses to itself when the server's name does not occur
      in it. */
  lemma ParseRemoteHandle(input: string, server: string, wf: string)
    requires Normalize.ExtractAccountWebfinger(input, server) == Some(wf)
    requires !Contains(wf, "@" + server)
    ensures ParseAcct(input, server) == Some(wf)
  {
  }

  /** A handle typed in full is recognised as itself, so the local part of
      `user@server` is `user`. */
  lemma ParseTypedHandle(username: string, server: string)
    requires Normalize.IsHandleShape(username + "@" + server)
    requires '@' !in username
    ensures ParseAcct(username + "@" + server, server) == Some(username)
  {
    Normalize.HandleIsFixedPoint(username + "@" + server, server);
    LocalHandleLocalPart(username, server);
  }
}
