/** The decisions of composables/quote.ts that are not screenshot code:
    whether a status may be quoted, the explanation shown when it may not,
    and `getDiffStyle`, which keeps the computed CSS declarations of a node
    that differ from the defaults. */
module Quote {
  import opened JsText
  import opened Optional
  import opened Mastodon

  // ---------------------------------------------------------------------------
  // Quotability
  // ---------------------------------------------------------------------------

  /** `note.toLowerCase().search(/(#?no ?qts?)|(#?no ?quotes?)|(#?no ?quoting?)/gi) !== -1`:
      the optional `#` and the optional endings never decide whether there
      is a match, so a match exists exactly when one of these six words
      occurs in the lower-cased note. */
  predicate ForbidsQuoting(note: string) {
    var n := Lower(note);
    || Contains(n, "noqt") || Contains(n, "no qt")
    || Contains(n, "noquote") || Contains(n, "no quote")
    || Contains(n, "noquotin") || Contains(n, "no quotin")
  }

  /** `discoverable` is `true` or `null`. */
  predicate Discoverable(a: Account) { a.discoverable == Yes || a.discoverable == Null }

  /** `locked` is `false` or `null`. */
  predicate Unlocked(a: Account) { a.locked == No || a.locked == Null }

  /** isQuotable. `me` is `currentUser.value?.account.id`, absent when
      signed out; an absent `inReplyToAccountId` is `null`. */
  predicate IsQuotable(q: Option<Status>, me: Option<string>) {
    match q
    case None => false
    case Some(st) =>
      if st.visibility == Direct then false
      else
        && (|| st.visibility == Public
            || (&& (st.visibility == Unlisted || st.visibility == Private)
                && Some(st.account.id) == me
                && (st.inReplyToAccountId.None? || st.inReplyToAccountId == me)))
        && Discoverable(st.account)
        && Unlocked(st.account)
        && !ForbidsQuoting(st.account.note)
  }

  /** Nothing, and no direct message, can be quoted. */
  lemma NothingDirectQuotable(q: Option<Status>, me: Option<string>)
    requires q.None? || q.value.visibility == Direct
    ensures !IsQuotable(q, me)
  {
  }

  /** A public status can be quoted exactly when its author is discoverable,
      not locked, and does not ask not to be quoted. */
  lemma PublicQuotable(st: Status, me: Option<string>)
    requires st.visibility == Public
    ensures IsQuotable(Some(st), me) <==>
      Discoverable(st.account) && Unlocked(st.account) && !ForbidsQuoting(st.account.note)
  {
  }

  /** An unlisted or followers-only status can besides only be quoted by its
      author, and only when it replies to nobody or to the author. */
  lemma LimitedQuotable(st: Status, me: Option<string>)
    requires st.visibility == Unlisted || st.visibility == Private
    ensures IsQuotable(Some(st), me) <==>
      && me == Some(st.account.id)
      && (st.inReplyToAccountId.None? || st.inReplyToAccountId == me)
      && Discoverable(st.account) && Unlocked(st.account) && !ForbidsQuoting(st.account.note)
  {
  }

  /** Case does not matter: a note containing any spelling of `no quote`
      forbids quoting. */
  lemma MentionForbids(before: string, word: string, after: string)
    requires Lower(word) == "no quote"
    ensures ForbidsQuoting(before + word + after)
  {
    var note := before + word + after;
    var n := Lower(note);
    assert n[|before|..|before| + |word|] == Lower(word) by {
      forall k | 0 <= k < |word|
        ensures n[|before| + k] == Lower(word)[k]
      {
        assert note[|before| + k] == word[k];
      }
    }
    assert OccursAt(n, "no quote", |before|);
    ContainsIff(n, "no quote");
  }

  /** The texts explainIsQuotable returns. */
  datatype Explanation =
    | NoStatus | AccountPrivate | NoQuoting | DirectMessage | LimitedVisibility | NotQuotable
  {
    function Text(): string {
      match this
      case NoStatus => ""
      case AccountPrivate => "This account is private"
      case NoQuoting => "This account does not allow quoting"
      case DirectMessage => "Direct messages are not quotable"
      case LimitedVisibility => "Posts with limited or restricted visibility are not quotable"
      case NotQuotable => "This post is not quotable"
    }
  }

  /** explainIsQuotable, with its checks in their order: locked author,
      note, direct message, visibility other than public, the note once
      more, and the catch-all. */
  function Explain(q: Option<Status>): (r: Explanation)
    ensures q.None? <==> r == NoStatus
  {
    match q
    case None => NoStatus
    case Some(st) =>
      if !Unlocked(st.account) then AccountPrivate
      else if ForbidsQuoting(st.account.note) then NoQuoting
      else if st.visibility == Direct then DirectMessage
      else if st.visibility != Public then LimitedVisibility
      else if ForbidsQuoting(st.account.note) then NoQuoting
      else NotQuotable
  }

  /** The locked, note and direct-message reasons are reasons `isQuotable`
      refuses for. */
  lemma ExplanationsAreReasons(q: Option<Status>, me: Option<string>)
    requires Explain(q) in {AccountPrivate, NoQuoting, DirectMessage}
    ensures !IsQuotable(q, me)
  {
  }

  /** A quotable public status gets the catch-all text, as does a public
      status of an author who is not discoverable, since that check is
      commented out; the author's own quotable unlisted or followers-only
      status is told its visibility is too limited. */
  lemma QuotableExplanations(q: Option<Status>, me: Option<string>)
    ensures IsQuotable(q, me) && q.value.visibility == Public ==> Explain(q) == NotQuotable
    ensures IsQuotable(q, me) && q.value.visibility != Public ==> Explain(q) == LimitedVisibility
    ensures (&& q.Some? && q.value.visibility == Public && q.value.account.discoverable == No
             && Unlocked(q.value.account) && !ForbidsQuoting(q.value.account.note)) ==>
      !IsQuotable(q, me) && Explain(q) == NotQuotable
  {
  }

  /** The second note check can never be what decides: the note reason is
      given exactly when the first one applies. */
  lemma SecondNoteCheckUnreachable(q: Option<Status>)
    ensures Explain(q) == NoQuoting <==>
      q.Some? && Unlocked(q.value.account) && ForbidsQuoting(q.value.account.note)
  {
  }

  // ---------------------------------------------------------------------------
  // getDiffStyle
  // ---------------------------------------------------------------------------

  /** One declaration of a `CSSStyleDeclaration`: `item(i)`, with
      `getPropertyValue` and `getPropertyPriority` of it. */
  datatype Declaration = Declaration(name: string, value: string, priority: string)

  /** The text before the last `-` of a property name; `""` when there is
      none, which like `undefined` is falsy. */
  function PrefixOf(name: string): (p: string)
    ensures |p| < |name| || p == ""
  {
    var k := LastIndexOf(name, '-');
    if k > -1 then name[..k] else ""
  }

  /** The prefix is what precedes the last `-`; it is empty exactly when no
      `-` follows the first character. */
  lemma PrefixBeforeLastDash(name: string)
    ensures var p := PrefixOf(name);
      && (p != "" ==> p == name[..|p|] && name[|p|] == '-'
                      && forall j :: |p| < j < |name| ==> name[j] != '-')
      && (p == "" <==> forall j :: 0 < j < |name| ==> name[j] != '-')
  {
  }

  /** A declaration is kept unless it has the default value and no priority. */
  predicate Differs(d: Declaration, defaults: map<string, string>) {
    !(d.name in defaults && defaults[d.name] == d.value) || d.priority != ""
  }

  /** Some declaration with prefix `p` is kept. */
  predicate PrefixDiffers(style: seq<Declaration>, defaults: map<string, string>, p: string) {
    exists j :: 0 <= j < |style| && PrefixOf(style[j].name) == p && Differs(style[j], defaults)
  }

  /** Whether the declaration at `i` is emitted: on its own merit without a
      prefix; with one, when any declaration sharing the prefix is kept. */
  predicate Emitted(style: seq<Declaration>, defaults: map<string, string>, i: int)
    requires 0 <= i < |style|
  {
    if PrefixOf(style[i].name) == "" then Differs(style[i], defaults)
    else PrefixDiffers(style, defaults, PrefixOf(style[i].name))
  }

  /** A style declaration lists each property once. */
  predicate UniqueNames(style: seq<Declaration>) {
    forall i, j :: 0 <= i < j < |style| ==> style[i].name != style[j].name
  }

  function NamesOf(style: seq<Declaration>): set<string> {
    set j | 0 <= j < |style| :: style[j].name
  }

  /** The prefixes of the kept declarations that have one. */
  function KeptPrefixes(style: seq<Declaration>, defaults: map<string, string>): set<string> {
    set j | 0 <= j < |style| && PrefixOf(style[j].name) != "" && Differs(style[j], defaults) :: PrefixOf(style[j].name)
  }

  type Tree = map<string, map<string, (string, string)>>

  /** `prefixTree` after the first loop has seen `style`. */
  function Filed(style: seq<Declaration>): Tree {
    if |style| == 0 then map[]
    else
      var tree := Filed(style[..|style| - 1]);
      var d := style[|style| - 1];
      var p := PrefixOf(d.name);
      if p == "" then tree
      else tree[p := (if p in tree then tree[p] else map[])[d.name := (d.value, d.priority)]]
  }

  /** `prefixs` after the first loop has seen `style`. */
  function Noted(style: seq<Declaration>, defaults: map<string, string>): seq<string> {
    if |style| == 0 then []
    else
      var d := style[|style| - 1];
      Noted(style[..|style| - 1], defaults)
        + if Differs(d, defaults) && PrefixOf(d.name) != "" then [PrefixOf(d.name)] else []
  }

  /** `diffStyle` after the first loop has seen `style`. */
  function Kept(style: seq<Declaration>, defaults: map<string, string>): map<string, (string, string)> {
    if |style| == 0 then map[]
    else
      var own := Kept(style[..|style| - 1], defaults);
      var d := style[|style| - 1];
      if Differs(d, defaults) && PrefixOf(d.name) == "" then own[d.name := (d.value, d.priority)] else own
  }

  /** `diffStyle` after the second loop has gone through `prefixes`. */
  function Merged(own: map<string, (string, string)>, tree: Tree, prefixes: seq<string>): map<string, (string, string)> {
    if |prefixes| == 0 then own
    else
      var p := prefixes[|prefixes| - 1];
      Merged(own, tree, prefixes[..|prefixes| - 1]) + if p in tree then tree[p] else map[]
  }

  /** What getDiffStyle returns. */
  function DiffStyle(style: seq<Declaration>, defaults: map<string, string>): map<string, (string, string)> {
    Merged(Kept(style, defaults), Filed(style), Noted(style, defaults))
  }

  /** The tree files each declaration with a prefix under that prefix, and
      nothing else. */
  lemma {:induction false} FiledHolds(style: seq<Declaration>)
    requires UniqueNames(style)
    ensures forall p, n :: p in Filed(style) && n in Filed(style)[p] ==> PrefixOf(n) == p && p != "" && n in NamesOf(style)
    ensures forall j :: 0 <= j < |style| && PrefixOf(style[j].name) != "" ==>
      && PrefixOf(style[j].name) in Filed(style)
      && style[j].name in Filed(style)[PrefixOf(style[j].name)]
      && Filed(style)[PrefixOf(style[j].name)][style[j].name] == (style[j].value, style[j].priority)
  {
    if |style| > 0 {
      var init := style[..|style| - 1];
      var d := style[|style| - 1];
      assert forall j :: 0 <= j < |init| ==> init[j] == style[j];
      FiledHolds(init);
      var before := Filed(init);
      var tree := Filed(style);
      var p := PrefixOf(d.name);
      assert NamesOf(style) == NamesOf(init) + {d.name};
      assert p == "" ==> tree == before;
      assert p != "" ==> tree == before[p := (if p in before then before[p] else map[])[d.name := (d.value, d.priority)]];
      forall q, n | q in tree && n in tree[q]
        ensures PrefixOf(n) == q && q != "" && n in NamesOf(style)
      {
        if p != "" && q == p && n == d.name {
        } else {
          assert q in before && n in before[q];
        }
      }
      forall j | 0 <= j < |style| && PrefixOf(style[j].name) != ""
        ensures && PrefixOf(style[j].name) in tree
                && style[j].name in tree[PrefixOf(style[j].name)]
                && tree[PrefixOf(style[j].name)][style[j].name] == (style[j].value, style[j].priority)
      {
        if j < |init| {
          assert style[j].name != d.name;
          assert style[j] == init[j];
        }
      }
    }
  }

  /** The first loop keeps exactly the differing declarations without a prefix. */
  lemma {:induction false} KeptHolds(style: seq<Declaration>, defaults: map<string, string>)
    requires UniqueNames(style)
    ensures forall n :: n in Kept(style, defaults) ==> PrefixOf(n) == "" && n in NamesOf(style)
    ensures forall j :: 0 <= j < |style| && PrefixOf(style[j].name) == "" ==>
      (style[j].name in Kept(style, defaults) <==> Differs(style[j], defaults))
    ensures forall j :: 0 <= j < |style| && style[j].name in Kept(style, defaults) ==>
      Kept(style, defaults)[style[j].name] == (style[j].value, style[j].priority)
  {
    if |style| > 0 {
      var init := style[..|style| - 1];
      var d := style[|style| - 1];
      assert forall j :: 0 <= j < |init| ==> init[j] == style[j];
      KeptHolds(init, defaults);
      var before := Kept(init, defaults);
      var own := Kept(style, defaults);
      var added := Differs(d, defaults) && PrefixOf(d.name) == "";
      assert NamesOf(style) == NamesOf(init) + {d.name};
      assert own == if added then before[d.name := (d.value, d.priority)] else before;
      forall n | n in own
        ensures PrefixOf(n) == "" && n in NamesOf(style)
      {
        if !(added && n == d.name) {
          assert n in before;
        }
      }
      forall j | 0 <= j < |style|
        ensures PrefixOf(style[j].name) == "" ==> (style[j].name in own <==> Differs(style[j], defaults))
        ensures style[j].name in own ==> own[style[j].name] == (style[j].value, style[j].priority)
      {
        if j < |init| {
          assert style[j].name != d.name;
          assert style[j] == init[j];
          if PrefixOf(d.name) == "" {
            assert d.name !in before;
          }
        }
      }
    }
  }

  /** The first loop notes exactly the prefixes of kept declarations. */
  lemma {:induction false} NotedHolds(style: seq<Declaration>, defaults: map<string, string>)
    ensures forall p :: p in Noted(style, defaults) <==> p in KeptPrefixes(style, defaults)
  {
    if |style| > 0 {
      var init := style[..|style| - 1];
      var d := style[|style| - 1];
      assert forall j :: 0 <= j < |init| ==> init[j] == style[j];
      NotedHolds(init, defaults);
      var noted := Noted(style, defaults);
      var added := Differs(d, defaults) && PrefixOf(d.name) != "";
      assert noted == Noted(init, defaults) + if added then [PrefixOf(d.name)] else [];
      forall p
        ensures p in noted <==> p in KeptPrefixes(style, defaults)
      {
        if p in KeptPrefixes(style, defaults) {
          var j :| 0 <= j < |style| && PrefixOf(style[j].name) != "" && Differs(style[j], defaults)
            && p == PrefixOf(style[j].name);
          if j < |init| {
            assert p in KeptPrefixes(init, defaults);
          }
        }
        if p in noted && !(added && p == PrefixOf(d.name)) {
          assert p in KeptPrefixes(init, defaults);
          var j :| 0 <= j < |init| && PrefixOf(init[j].name) != "" && Differs(init[j], defaults)
            && p == PrefixOf(init[j].name);
          assert style[j] == init[j];
        }
      }
    }
  }

  /** The members of a list are those of its front and its last one. */
  lemma InitLastMembers(s: seq<string>)
    requires |s| > 0
    ensures forall q :: q in s <==> q in s[..|s| - 1] || q == s[|s| - 1]
  {
    assert s == s[..|s| - 1] + [s[|s| - 1]];
  }

  /** The second loop adds every declaration filed under a noted prefix. */
  lemma {:induction false} MergedHolds(own: map<string, (string, string)>, tree: Tree, prefixes: seq<string>)
    requires forall p, n :: p in tree && n in tree[p] ==> PrefixOf(n) == p
    ensures forall n :: n in Merged(own, tree, prefixes) <==>
      n in own || (PrefixOf(n) in prefixes && PrefixOf(n) in tree && n in tree[PrefixOf(n)])
    ensures forall n :: n in Merged(own, tree, prefixes) ==>
      Merged(own, tree, prefixes)[n] ==
        if PrefixOf(n) in prefixes && PrefixOf(n) in tree && n in tree[PrefixOf(n)] then tree[PrefixOf(n)][n] else own[n]
  {
    if |prefixes| > 0 {
      var init := prefixes[..|prefixes| - 1];
      var p := prefixes[|prefixes| - 1];
      MergedHolds(own, tree, init);
      var before := Merged(own, tree, init);
      var add := if p in tree then tree[p] else map[];
      var merged := Merged(own, tree, prefixes);
      assert merged == before + add;
      InitLastMembers(prefixes);
      forall n
        ensures n in merged <==> n in own || (PrefixOf(n) in prefixes && PrefixOf(n) in tree && n in tree[PrefixOf(n)])
        ensures n in merged ==>
          merged[n] == if PrefixOf(n) in prefixes && PrefixOf(n) in tree && n in tree[PrefixOf(n)] then tree[PrefixOf(n)][n] else own[n]
      {
        assert PrefixOf(n) in prefixes <==> PrefixOf(n) in init || PrefixOf(n) == p;
        if n in add {
          assert PrefixOf(n) == p;
        }
      }
    }
  }

  /** A declaration without a prefix is emitted when it differs from the
      default or has a priority; one with a prefix when some declaration
      sharing the prefix does; every emitted declaration keeps its own value
      and priority, and nothing else is emitted. */
  lemma DiffStyleHolds(style: seq<Declaration>, defaults: map<string, string>)
    requires UniqueNames(style)
    ensures forall i :: 0 <= i < |style| ==> (style[i].name in DiffStyle(style, defaults) <==> Emitted(style, defaults, i))
    ensures forall i :: 0 <= i < |style| && style[i].name in DiffStyle(style, defaults) ==>
      DiffStyle(style, defaults)[style[i].name] == (style[i].value, style[i].priority)
    ensures forall n :: n in DiffStyle(style, defaults) ==> n in NamesOf(style)
  {
    FiledHolds(style);
    KeptHolds(style, defaults);
    NotedHolds(style, defaults);
    MergedHolds(Kept(style, defaults), Filed(style), Noted(style, defaults));
    forall i | 0 <= i < |style| && PrefixOf(style[i].name) != ""
      ensures PrefixDiffers(style, defaults, PrefixOf(style[i].name)) <==>
        PrefixOf(style[i].name) in KeptPrefixes(style, defaults)
    {
      if PrefixOf(style[i].name) in KeptPrefixes(style, defaults) {
        var j :| 0 <= j < |style| && PrefixOf(style[j].name) != "" && Differs(style[j], defaults)
          && PrefixOf(style[j].name) == PrefixOf(style[i].name);
      }
    }
  }

  /** One more declaration seen by the first loop. */
  lemma FileStep(style: seq<Declaration>, defaults: map<string, string>, i: int)
    requires 0 <= i < |style|
    ensures var d := style[i]; var p := PrefixOf(d.name); var tree := Filed(style[..i]);
      Filed(style[..i + 1]) == if p == "" then tree
        else tree[p := (if p in tree then tree[p] else map[])[d.name := (d.value, d.priority)]]
    ensures var d := style[i];
      Noted(style[..i + 1], defaults) == Noted(style[..i], defaults)
        + if Differs(d, defaults) && PrefixOf(d.name) != "" then [PrefixOf(d.name)] else []
    ensures var d := style[i]; var own := Kept(style[..i], defaults);
      Kept(style[..i + 1], defaults) ==
        if Differs(d, defaults) && PrefixOf(d.name) == "" then own[d.name := (d.value, d.priority)] else own
  {
    assert style[..i + 1][..i] == style[..i];
  }

  /** The first loop of getDiffStyle: every declaration with a prefix is
      filed under it, the prefix of every kept declaration is noted, and the
      kept declarations without a prefix are kept. */
  method FileDeclarations(style: seq<Declaration>, defaults: map<string, string>)
    returns (own: map<string, (string, string)>, prefixes: seq<string>, tree: Tree)
    ensures own == Kept(style, defaults) && prefixes == Noted(style, defaults) && tree == Filed(style)
  {
    own := map[];
    prefixes := [];
    tree := map[];
    for i := 0 to |style|
      invariant tree == Filed(style[..i])
      invariant prefixes == Noted(style[..i], defaults)
      invariant own == Kept(style[..i], defaults)
    {
      FileStep(style, defaults, i);
      var d := style[i];
      var prefix := PrefixOf(d.name);
      if prefix != "" {
        var filed := if prefix in tree then tree[prefix] else map[];
        tree := tree[prefix := filed[d.name := (d.value, d.priority)]];
      }
      if Differs(d, defaults) {
        if prefix != "" {
          prefixes := prefixes + [prefix];
        } else {
          own := own[d.name := (d.value, d.priority)];
        }
      }
    }
    assert style[..|style|] == style;
  }

  /** The second loop of getDiffStyle: every declaration filed under a
      noted prefix is added. */
  method MergePrefixes(own: map<string, (string, string)>, tree: Tree, prefixes: seq<string>)
    returns (diff: map<string, (string, string)>)
    ensures diff == Merged(own, tree, prefixes)
  {
    diff := own;
    for k := 0 to |prefixes|
      invariant diff == Merged(own, tree, prefixes[..k])
    {
      assert prefixes[..k + 1][..k] == prefixes[..k];
      if prefixes[k] in tree {
        diff := diff + tree[prefixes[k]];
      }
    }
    assert prefixes[..|prefixes|] == prefixes;
  }

  /** getDiffStyle. */
  method GetDiffStyle(style: seq<Declaration>, defaults: map<string, string>) returns (diff: map<string, (string, string)>)
    requires UniqueNames(style)
    ensures diff == DiffStyle(style, defaults)
    ensures forall i :: 0 <= i < |style| ==> (style[i].name in diff <==> Emitted(style, defaults, i))
    ensures forall i :: 0 <= i < |style| && style[i].name in diff ==>
      diff[style[i].name] == (style[i].value, style[i].priority)
  {
    var own, prefixes, tree := FileDeclarations(style, defaults);
    diff := MergePrefixes(own, tree, prefixes);
    DiffStyleHolds(style, defaults);
  }
}
