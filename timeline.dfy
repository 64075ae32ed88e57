/** Thread stitching of composables/timeline.ts: statuses hidden by a
    server-side filter are removed, then a reply that arrives ahead of the
    status it answers is moved next to it, within a window of `MaxDistance`
    positions and a budget of `MaxSteps` comparisons. */
module Timeline {
  import opened Optional
  import opened Mastodon

  const MaxDistance := 10
  const MaxSteps := 1000

  // ---------------------------------------------------------------------------
  // Replies
  // ---------------------------------------------------------------------------

  /** `b.inReplyToId ?? b.reblog?.inReplyToId`. */
  function ReplyTarget(b: Status): (t: Option<string>)
    ensures b.inReplyToId.Some? ==> t == b.inReplyToId
    ensures b.inReplyToId.None? && b.reblog.Some? ==> t == b.reblog.value.inReplyToId
    ensures b.inReplyToId.None? && b.reblog.None? ==> t == None
  {
    if b.inReplyToId.Some? then b.inReplyToId
    else if b.reblog.Some? then b.reblog.value.inReplyToId
    else None
  }

  /** `b` is a reply to `a`, or to the status `a` boosts. */
  predicate Consecutive(a: Status, b: Status) {
    var t := ReplyTarget(b);
    && t.Some? && t.value != ""
    && ((a.reblog.Some? && t.value == a.reblog.value.id) || t.value == a.id)
  }

  /** A boost of the status a reply answers counts as its parent. */
  lemma BoostedParent(parent: Status, boost: Status, reply: Status)
    requires boost.reblog == Some(parent)
    requires Consecutive(parent, reply) && ReplyTarget(reply) == Some(parent.id)
    ensures Consecutive(boost, reply)
  {
  }

  /** A boost of a reply follows its parent exactly when the reply does, since
      a boost carries no `inReplyToId` of its own. */
  lemma BoostedReply(parent: Status, boost: Status, reply: Status)
    requires boost.inReplyToId.None? && boost.reblog == Some(reply) && reply.reblog.None?
    ensures Consecutive(parent, boost) <==> Consecutive(parent, reply)
  {
  }

  /** A status that replies to nothing is nobody's reply. */
  lemma NoTargetNoParent(a: Status, b: Status)
    requires ReplyTarget(b).None? || ReplyTarget(b) == Some("")
    ensures !Consecutive(a, b)
  {
  }

  // ---------------------------------------------------------------------------
  // Filtering
  // ---------------------------------------------------------------------------

  /** `array.filter(p)`. */
  function Filter<T(!new)>(s: seq<T>, p: T -> bool): (r: seq<T>)
    ensures |r| <= |s|
    ensures forall x :: x in r <==> x in s && p(x)
    ensures multiset(r) <= multiset(s)
  {
    if |s| == 0 then []
    else
      assert s == [s[0]] + s[1..];
      if p(s[0]) then [s[0]] + Filter(s[1..], p)
      else Filter(s[1..], p)
  }

  /** Filtering keeps the order: it distributes over concatenation. */
  lemma {:induction false} FilterConcat<T(!new)>(s: seq<T>, t: seq<T>, p: T -> bool)
    ensures Filter(s + t, p) == Filter(s, p) + Filter(t, p)
    decreases |s|
  {
    if |s| == 0 {
      assert s + t == t;
    } else {
      assert (s + t)[0] == s[0];
      assert (s + t)[1..] == s[1..] + t;
      FilterConcat(s[1..], t, p);
    }
  }

  /** Two filters in a row are one filter by both conditions. */
  lemma {:induction false} FilterTwice<T(!new)>(s: seq<T>, p: T -> bool, q: T -> bool, both: T -> bool)
    requires forall x :: both(x) == (p(x) && q(x))
    ensures Filter(Filter(s, p), q) == Filter(s, both)
    decreases |s|
  {
    if |s| > 0 {
      FilterTwice(s[1..], p, q, both);
      if p(s[0]) {
        var f := [s[0]] + Filter(s[1..], p);
        assert f[0] == s[0] && f[1..] == Filter(s[1..], p);
      }
    }
  }

  /** A filter whose condition holds everywhere keeps the whole list. */
  lemma {:induction false} FilterAll<T(!new)>(s: seq<T>, p: T -> bool)
    requires forall i :: 0 <= i < |s| ==> p(s[i])
    ensures Filter(s, p) == s
    decreases |s|
  {
    if |s| > 0 {
      var tail := s[1..];
      assert forall i :: 0 <= i < |tail| ==> tail[i] == s[i + 1];
      FilterAll(tail, p);
      assert p(s[0]);
      assert Filter(s, p) == [s[0]] + Filter(tail, p);
      assert s == [s[0]] + tail;
    }
  }

  /** A list whose last element alone fails the condition loses just that one. */
  lemma FilterDropsLast<T(!new)>(s: seq<T>, x: T, p: T -> bool)
    requires forall i :: 0 <= i < |s| ==> p(s[i])
    requires !p(x)
    ensures Filter(s + [x], p) == s
  {
    FilterConcat(s, [x], p);
    FilterAll(s, p);
    assert Filter([x], p) == [];
  }

  /** A filter result whose action hides the status in this context. */
  predicate IsStrict(f: FilterResult, context: string) {
    f.action == Hide && context in f.context
  }

  predicate HiddenBy(filtered: seq<FilterResult>, context: string) {
    exists i :: 0 <= i < |filtered| && IsStrict(filtered[i], context)
  }

  /** `isFiltered`: the signed-in user's own status, or one no filter hides. */
  predicate OwnFiltersPass(item: Status, context: string, me: Option<string>) {
    me == Some(item.account.id) || !HiddenBy(item.filtered, context)
  }

  /** `isReblogFiltered`: no filter hides the boosted status. */
  predicate ReblogFiltersPass(item: Status, context: string) {
    item.reblog.None? || !HiddenBy(item.reblog.value.filtered, context)
  }

  predicate Shown(item: Status, context: string, me: Option<string>) {
    OwnFiltersPass(item, context, me) && ReblogFiltersPass(item, context)
  }

  /** removeFilteredItems without the extra filters: `me` is the id of the
      signed-in user's account, if any. */
  function RemoveFilteredItems(items: seq<Status>, context: string, me: Option<string>): (r: seq<Status>)
    ensures forall x :: x in r <==> x in items && Shown(x, context, me)
    ensures multiset(r) <= multiset(items)
    ensures r == Filter(items, x => Shown(x, context, me))
  {
    var own := (x: Status) => OwnFiltersPass(x, context, me);
    var reblog := (x: Status) => ReblogFiltersPass(x, context);
    FilterTwice(items, own, reblog, x => Shown(x, context, me));
    Filter(Filter(items, own), reblog)
  }

  /** A list in which nothing needs filtering comes back unchanged. */
  lemma NothingHidden(items: seq<Status>, context: string, me: Option<string>)
    requires forall i :: 0 <= i < |items| ==> Shown(items[i], context, me)
    ensures RemoveFilteredItems(items, context, me) == items
  {
    FilterAll(items, x => Shown(x, context, me));
  }

  // ---------------------------------------------------------------------------
  // Splicing
  // ---------------------------------------------------------------------------

  /** `s.splice(start, count)` on a copy: the list without the removed run. */
  function Remove<T>(s: seq<T>, start: nat, count: nat): (r: seq<T>)
    requires start + count <= |s|
    ensures |r| == |s| - count
    ensures multiset(r) + multiset(s[start..start + count]) == multiset(s)
    ensures r[..start] == s[..start] && r[start..] == s[start + count..]
  {
    assert s == s[..start] + s[start..start + count] + s[start + count..];
    s[..start] + s[start + count..]
  }

  /** `s.splice(at, 0, ...ins)` on a copy. */
  function Insert<T>(s: seq<T>, at: nat, ins: seq<T>): (r: seq<T>)
    requires at <= |s|
    ensures |r| == |s| + |ins|
    ensures multiset(r) == multiset(s) + multiset(ins)
    ensures r[..at] == s[..at] && r[at..at + |ins|] == ins && r[at + |ins|..] == s[at..]
  {
    assert s == s[..at] + s[at..];
    s[..at] + ins + s[at..]
  }

  /** `const moved = s.splice(from, count); s.splice(to, 0, ...moved)` for a
      position `to` at or before `from`: the run moves back, in order, to
      `to`, and what lay in between moves up behind it. */
  function Move(s: seq<Status>, from: nat, count: nat, to: nat): (r: seq<Status>)
    requires to <= from && from + count <= |s|
    ensures |r| == |s| && multiset(r) == multiset(s)
    ensures r[..to] == s[..to]
    ensures r[to..to + count] == s[from..from + count]
    ensures r[to + count..from + count] == s[to..from]
    ensures r[from + count..] == s[from + count..]
  {
    var run := s[from..from + count];
    var rest := Remove(s, from, count);
    var r := Insert(rest, to, run);
    assert rest[..from] == s[..from];
    assert rest[to..from] == s[to..from];
    assert r[..to] == rest[..to];
    assert r[to + count..] == rest[to..];
    assert r[to + count..from + count] == rest[to..from];
    assert r[from + count..] == rest[from..];
    r
  }

  /** Lines 57-58: when `s[i - k]` answers `s[i]`, the parent moves to `i - k`
      and its reply now stands right after it. */
  lemma ParentMovedBeforeReply(s: seq<Status>, i: nat, k: nat)
    requires 1 <= k <= i < |s|
    ensures Move(s, i, 1, i - k)[i - k] == s[i]
    ensures Move(s, i, 1, i - k)[i - k + 1] == s[i - k]
  {
    var r := Move(s, i, 1, i - k);
    assert r[i - k..i - k + 1][0] == s[i..i + 1][0];
    assert r[i - k + 1..i + 1][0] == s[i - k..i][0];
  }

  // ---------------------------------------------------------------------------
  // The run of replies after a status
  // ---------------------------------------------------------------------------

  /** Each of `s[i..j]` is answered by the next one. */
  predicate IsRun(s: seq<Status>, i: int, j: int)
    requires 0 <= i && j < |s|
  {
    forall m :: i <= m < j ==> Consecutive(s[m], s[m + 1])
  }

  /** Lines 66-70 with the scan bounded by the list it reads: the end of the
      longest run of replies that starts at `i`. */
  method RunEnd(s: seq<Status>, i: nat) returns (j: nat)
    requires i < |s|
    ensures i <= j < |s|
    ensures IsRun(s, i, j)
    ensures j == |s| - 1 || !Consecutive(s[j], s[j + 1])
  {
    j := i;
    while j < |s| - 1
      invariant i <= j < |s|
      invariant IsRun(s, i, j)
    {
      if !Consecutive(s[j], s[j + 1]) {
        break;
      }
      j := j + 1;
    }
  }

  /** Lines 66-70 as written: the scan is bounded by `bound`, the length of
      the unfiltered input, and reads `s[j + 1]` past the end of the filtered
      list when it is shorter; `fault` is the TypeError that reading a
      property of `undefined` raises. */
  method RunEndAsWritten(s: seq<Status>, i: nat, bound: nat) returns (j: nat, fault: bool)
    requires i < |s| <= bound
    ensures fault <==> |s| < bound && IsRun(s, i, |s| - 1)
    ensures !fault ==> i <= j < |s| && IsRun(s, i, j)
    ensures !fault ==> j == |s| - 1 || !Consecutive(s[j], s[j + 1])
  {
    j := i;
    fault := false;
    while j < bound - 1
      invariant i <= j < |s|
      invariant IsRun(s, i, j)
    {
      if j + 1 >= |s| {
        fault := true;
        return;
      }
      if !Consecutive(s[j], s[j + 1]) {
        assert !IsRun(s, i, |s| - 1);
        break;
      }
      j := j + 1;
    }
  }

  /** A hidden status at the end of the input leaves the others in order. */
  lemma HiddenLastStatusDropped(a: Status, b: Status, c: Status, x: Status, context: string)
    requires Shown(a, context, None) && Shown(b, context, None) && Shown(c, context, None)
    requires !Shown(x, context, None)
    ensures RemoveFilteredItems([a, b, c, x], context, None) == [a, b, c]
  {
    var p := (y: Status) => Shown(y, context, None);
    assert [a, b, c, x] == [a, b, c] + [x];
    FilterDropsLast([a, b, c], x, p);
  }

  /** Four statuses of which the last is hidden: the filtered list is the
      first three, the third answers the first, and the second answers
      neither. Reordering reaches the run scan at `i = 2, k = 2`; the run
      from there reaches the end of the three-element list, which is shorter
      than the input, so the scan as written faults. */
  lemma HiddenLastStatusFaults(a: Status, b: Status, c: Status, x: Status, context: string)
    requires Shown(a, context, None) && Shown(b, context, None) && Shown(c, context, None)
    requires !Shown(x, context, None)
    requires a.inReplyToId.None? && a.reblog.None?
    requires b.inReplyToId.None? && b.reblog.None?
    requires a.id != "" && c.inReplyToId == Some(a.id)
    ensures var s := RemoveFilteredItems([a, b, c, x], context, None);
      && s == [a, b, c]
      && !Consecutive(s[2], s[1]) && !Consecutive(s[2], s[0]) && Consecutive(s[0], s[2])
      && |s| < |[a, b, c, x]| && IsRun(s, 2, |s| - 1)
  {
    HiddenLastStatusDropped(a, b, c, x, context);
  }

  // ---------------------------------------------------------------------------
  // reorderedTimeline
  // ---------------------------------------------------------------------------

  /** No status in the list answers another. */
  predicate Unlinked(s: seq<Status>) {
    forall a, b :: 0 <= a < |s| && 0 <= b < |s| ==> !Consecutive(s[a], s[b])
  }

  /** reorderedTimeline with the default `applyExtraFilters = false` and
      with the run scan corrected (`RunEnd`): where the scan of lines 67-68
      as written reads past the end of the filtered list and throws, this
      method returns a list instead (see `RunEndAsWritten`). `steps`
      counts the comparisons started, the last of which may be the one over
      the budget that ends the scan. The inner scan compares `i` with
      `i - 1` down to `i - MaxDistance`, never below index 0. */
  method ReorderedTimeline(items: seq<Status>, context: string, me: Option<string>)
    returns (newItems: seq<Status>, steps: nat)
    ensures multiset(newItems) == multiset(RemoveFilteredItems(items, context, me))
    ensures |newItems| == |RemoveFilteredItems(items, context, me)|
    ensures steps <= MaxSteps + 1
    ensures Unlinked(RemoveFilteredItems(items, context, me)) ==>
      newItems == RemoveFilteredItems(items, context, me)
  {
    steps := 0;
    newItems := RemoveFilteredItems(items, context, me);
    ghost var filtered := newItems;
    var i := |newItems| - 1;
    while i > 0
      invariant i < |newItems| == |filtered|
      invariant multiset(newItems) == multiset(filtered)
      invariant steps <= MaxSteps
      invariant Unlinked(filtered) ==> newItems == filtered
      decreases i
    {
      var k := 1;
      while k <= MaxDistance && i - k >= 0
        invariant 1 <= k <= MaxDistance + 1 && i - k >= -1
        invariant 0 < i < |newItems| == |filtered|
        invariant multiset(newItems) == multiset(filtered)
        invariant steps <= MaxSteps
        invariant Unlinked(filtered) ==> newItems == filtered
        decreases MaxSteps - steps
      {
        steps := steps + 1;
        if steps > MaxSteps {
          return;
        }
        if Consecutive(newItems[i], newItems[i - k]) {
          newItems := Move(newItems, i, 1, i - k);
          k := 0;
        } else if k > 1 {
          if Consecutive(newItems[i - k], newItems[i]) {
            var j := RunEnd(newItems, i);
            var orderedCount := j - i + 1;
            newItems := Move(newItems, i, orderedCount, i - k + 1);
            k := 0;
          }
        }
        k := k + 1;
      }
      i := i - 1;
    }
  }
}
