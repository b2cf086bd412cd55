/** The token-budget trim in `assemble` (TinyCTX/context.py).  The token count is any function
    of the entry list. */
module TokenTrim {
  import opened Sequences
  import opened PythonText
  import opened History

  type Cost = seq<Entry> -> int

  function FirstNonSystem(xs: seq<Entry>): (i: nat)
    ensures i <= |xs| && (forall j | 0 <= j < i :: xs[j].role == System) && (i < |xs| ==> xs[i].role != System)
  {
    if xs == [] || xs[0].role != System then 0 else 1 + FirstNonSystem(xs[1..])
  }

  predicate AllSystem(xs: seq<Entry>) {
    FirstNonSystem(xs) == |xs|
  }

  function CallIds(e: Entry): set<string> {
    set call | call in e.toolCalls :: call.id
  }

  predicate IsResultOf(e: Entry, ids: set<string>) {
    e.role == Tool && e.toolCallId.Some? && e.toolCallId.value in ids
  }

  predicate HasText(e: Entry) {
    e.content.Text? && Strip(e.content.text) != ""
  }

  /** A turn has text if it is a text with anything but white space in it. */
  lemma HasTextIff(e: Entry)
    ensures HasText(e) <==> e.content.Text? && exists c <- e.content.text :: !IsSpace(c)
  {
    if e.content.Text? {
      var s := e.content.text;
      var a, b := StripLeavesTheMiddle(s);
      if Strip(s) == "" {
        assert s == a + b;
      } else {
        assert Strip(s)[0] in s;
      }
    }
  }

  /** `xs` without the results of the calls `ids` at its front. */
  function SkipResults(xs: seq<Entry>, ids: set<string>): seq<Entry> {
    if xs != [] && IsResultOf(xs[0], ids) then SkipResults(xs[1..], ids) else xs
  }

  /** What is left of `e`, the first entry that may go, and of the entries after it: it goes, or
      loses its tool calls if it also has text; results of its calls go if they stand right there. */
  function DropHead(e: Entry, rest: seq<Entry>): seq<Entry> {
    if e.toolCalls == [] then rest
    else if HasText(e) then SkipResults([e.(toolCalls := [])] + rest, CallIds(e))
    else SkipResults(rest, CallIds(e))
  }

  /** One round of the trim loop, on the first entry that is not a system entry. */
  function Drop(xs: seq<Entry>): seq<Entry>
    requires !AllSystem(xs)
  {
    var i := FirstNonSystem(xs);
    xs[..i] + DropHead(xs[i], xs[i + 1..])
  }

  /** Entries plus entries with tool calls: every round makes it smaller. */
  function Weight(xs: seq<Entry>): nat {
    if xs == [] then 0 else Weight(xs[..|xs| - 1]) + if xs[|xs| - 1].toolCalls == [] then 1 else 2
  }

  lemma {:induction false} WeightOfConcat(xs: seq<Entry>, ys: seq<Entry>)
    ensures Weight(xs + ys) == Weight(xs) + Weight(ys)
  {
    if ys == [] {
      assert xs + ys == xs;
    } else {
      WeightOfConcat(xs, ys[..|ys| - 1]);
      assert (xs + ys)[..|xs + ys| - 1] == xs + ys[..|ys| - 1];
    }
  }

  lemma {:induction false} SkippingShrinks(xs: seq<Entry>, ids: set<string>)
    ensures Weight(SkipResults(xs, ids)) <= Weight(xs)
  {
    if xs != [] && IsResultOf(xs[0], ids) {
      SkippingShrinks(xs[1..], ids);
      WeightOfConcat([xs[0]], xs[1..]);
      assert xs == [xs[0]] + xs[1..];
    }
  }

  lemma DropHeadShrinks(e: Entry, rest: seq<Entry>)
    ensures Weight(DropHead(e, rest)) < Weight([e] + rest)
  {
    hide HasText;
    WeightOfConcat([e], rest);
    WeightOfConcat([e.(toolCalls := [])], rest);
    SkippingShrinks(rest, CallIds(e));
    SkippingShrinks([e.(toolCalls := [])] + rest, CallIds(e));
  }

  lemma DropShrinks(xs: seq<Entry>)
    requires !AllSystem(xs)
    ensures Weight(Drop(xs)) < Weight(xs)
  {
    hide DropHead, Weight;
    var i := FirstNonSystem(xs);
    DropHeadShrinks(xs[i], xs[i + 1..]);
    WeightOfConcat(xs[..i], DropHead(xs[i], xs[i + 1..]));
    WeightOfConcat(xs[..i], [xs[i]] + xs[i + 1..]);
    assert xs == xs[..i] + ([xs[i]] + xs[i + 1..]);
  }

  /** The list after `n` rounds, if that many are possible. */
  function Dropped(xs: seq<Entry>, n: nat): seq<Entry> {
    if n == 0 then xs
    else
      var ys := Dropped(xs, n - 1);
      if AllSystem(ys) then ys else Drop(ys)
  }

  method DropRound(entries: seq<Entry>) returns (kept: seq<Entry>)
    requires !AllSystem(entries)
    ensures kept == Drop(entries)
  {
    hide HasText, IsResultOf, CallIds;
    kept := entries;
    var i := FirstNonSystem(kept);
    ghost var e, rest := entries[i], entries[i + 1..];
    if kept[i].toolCalls == [] {
      kept := kept[..i] + kept[i + 1..];
      return;
    }
    var ids := CallIds(kept[i]);
    if HasText(kept[i]) {
      kept := kept[i := kept[i].(toolCalls := [])];
      assert kept[i..] == [e.(toolCalls := [])] + rest;
    } else {
      kept := kept[..i] + kept[i + 1..];
      assert kept[i..] == rest;
    }
    while i < |kept| && IsResultOf(kept[i], ids)
      invariant i <= |kept| && kept[..i] == entries[..i]
      invariant SkipResults(kept[i..], ids) == DropHead(e, rest)
      decreases |kept|
    {
      ghost var after := kept[i + 1..];
      assert kept[i..][1..] == after;
      kept := kept[..i] + kept[i + 1..];
      assert kept[i..] == after;
    }
    assert kept == kept[..i] + kept[i..];
  }

  method Trim(entries: seq<Entry>, cost: Cost, limit: int)
    returns (kept: seq<Entry>, used: int, trimmed: bool, ghost rounds: nat)
    ensures used == cost(kept) && (trimmed <==> cost(entries) > limit) && (!trimmed ==> kept == entries)
    ensures kept == Dropped(entries, rounds)
    ensures cost(kept) <= limit || AllSystem(kept)
    ensures forall m | 0 <= m < rounds :: cost(Dropped(entries, m)) > limit && !AllSystem(Dropped(entries, m))
  {
    hide Drop, Weight;
    kept, used, trimmed, rounds := entries, cost(entries), false, 0;
    while used > limit
      invariant used == cost(kept) && (trimmed <==> rounds > 0)
      invariant rounds == 0 || cost(entries) > limit
      invariant kept == Dropped(entries, rounds)
      invariant forall m | 0 <= m < rounds :: cost(Dropped(entries, m)) > limit && !AllSystem(Dropped(entries, m))
      decreases Weight(kept)
    {
      trimmed := true;
      var i := FirstNonSystem(kept);
      if i == |kept| {
        return;
      }
      DropShrinks(kept);
      kept := DropRound(kept);
      rounds := rounds + 1;
      used := cost(kept);
    }
  }

  /** The system entries of `xs`, or the others. */
  function Select(xs: seq<Entry>, system: bool): seq<Entry> {
    if xs == [] then []
    else (if (xs[0].role == System) == system then [xs[0]] else []) + Select(xs[1..], system)
  }

  lemma {:induction false} SelectOfConcat(xs: seq<Entry>, ys: seq<Entry>, system: bool)
    ensures Select(xs + ys, system) == Select(xs, system) + Select(ys, system)
  {
    if xs == [] {
      assert xs + ys == ys;
    } else {
      SelectOfConcat(xs[1..], ys, system);
      TailOfConcat(xs, ys);
      var first := if (xs[0].role == System) == system then [xs[0]] else [];
      ConcatIsAssociative(first, Select(xs[1..], system), Select(ys, system));
    }
  }

  lemma {:induction false} SelectUniform(xs: seq<Entry>, isSystem: bool)
    requires forall i | 0 <= i < |xs| :: (xs[i].role == System) == isSystem
    ensures Select(xs, isSystem) == xs && Select(xs, !isSystem) == []
  {
    if xs != [] {
      SelectUniform(xs[1..], isSystem);
      assert xs == [xs[0]] + xs[1..];
    }
  }

  /** `now` is a suffix of `before`, except that its first entry may have lost its tool calls. */
  predicate Survives(now: seq<Entry>, before: seq<Entry>) {
    |now| <= |before|
    && var k := |before| - |now|;
       (now == before[k..] || (now != [] && now[0] == before[k].(toolCalls := []) && now[1..] == before[k + 1..]))
  }

  lemma {:induction false} SkippingIsSuffix(xs: seq<Entry>, ids: set<string>)
    ensures Select(SkipResults(xs, ids), true) == Select(xs, true)
    ensures IsSuffix(Select(SkipResults(xs, ids), false), Select(xs, false))
  {
    if xs != [] && IsResultOf(xs[0], ids) {
      SkippingIsSuffix(xs[1..], ids);
    }
  }

  predicate IsSuffix(a: seq<Entry>, b: seq<Entry>) {
    |a| <= |b| && a == b[|b| - |a|..]
  }

  /** One round removes entries from the front of the non-system part only. */
  predicate ShrunkBy(now: seq<Entry>, before: seq<Entry>) {
    before != []
    && (IsSuffix(now, before[1..])
        || (before[0].toolCalls != [] && now == [before[0].(toolCalls := [])] + before[1..]))
  }

  lemma DropHeadFromFront(e: Entry, rest: seq<Entry>)
    requires e.role != System
    ensures Select(DropHead(e, rest), true) == Select([e] + rest, true)
    ensures ShrunkBy(Select(DropHead(e, rest), false), Select([e] + rest, false))
  {
    hide HasText;
    var e' := e.(toolCalls := []);
    var ids := CallIds(e);
    assert ([e] + rest)[1..] == rest && ([e'] + rest)[1..] == rest;
    SkippingIsSuffix(rest, ids);
    if e.toolCalls != [] && HasText(e) && !IsResultOf(e', ids) {
      assert DropHead(e, rest) == [e'] + rest;
    }
  }

  lemma DropFromFront(xs: seq<Entry>)
    requires !AllSystem(xs)
    ensures Select(Drop(xs), true) == Select(xs, true)
    ensures ShrunkBy(Select(Drop(xs), false), Select(xs, false))
  {
    hide DropHead, Select, ShrunkBy;
    var i := FirstNonSystem(xs);
    var front, e, rest := xs[..i], xs[i], xs[i + 1..];
    DropHeadFromFront(e, rest);
    SelectUniform(front, true);
    assert xs == front + ([e] + rest);
    SelectOfConcat(front, [e] + rest, true);
    SelectOfConcat(front, [e] + rest, false);
    SelectOfConcat(front, DropHead(e, rest), true);
    SelectOfConcat(front, DropHead(e, rest), false);
    assert Select(front, false) == [];
    assert Select(xs, false) == Select([e] + rest, false);
    assert Select(Drop(xs), false) == Select(DropHead(e, rest), false);
  }

  lemma ShrunkSurvives(now: seq<Entry>, before: seq<Entry>, orig: seq<Entry>)
    requires ShrunkBy(now, before) && Survives(before, orig)
    ensures Survives(now, orig)
  {}

  /** However many rounds run, every system entry stays, and of the others a suffix stays, whose
      first entry may have lost its tool calls. */
  lemma {:induction false} TrimKeepsSystemAndSuffix(xs: seq<Entry>, n: nat)
    ensures Select(Dropped(xs, n), true) == Select(xs, true)
    ensures Survives(Select(Dropped(xs, n), false), Select(xs, false))
  {
    hide Drop;
    if n > 0 {
      TrimKeepsSystemAndSuffix(xs, n - 1);
      var ys := Dropped(xs, n - 1);
      if !AllSystem(ys) {
        DropFromFront(ys);
        ShrunkSurvives(Select(Drop(ys), false), Select(ys, false), Select(xs, false));
      }
    }
  }

  lemma FirstNonSystemAfter(prefix: seq<Entry>, xs: seq<Entry>)
    requires prefix <= xs && forall i | 0 <= i < |prefix| :: prefix[i].role == System
    ensures |prefix| <= FirstNonSystem(xs)
  {}

  /** System entries that come first stay first. */
  lemma {:induction false} TrimKeepsSystemPrefix(prefix: seq<Entry>, xs: seq<Entry>, n: nat)
    requires prefix <= xs && forall i | 0 <= i < |prefix| :: prefix[i].role == System
    ensures prefix <= Dropped(xs, n)
  {
    hide DropHead;
    if n > 0 {
      TrimKeepsSystemPrefix(prefix, xs, n - 1);
      FirstNonSystemAfter(prefix, Dropped(xs, n - 1));
    }
  }

  /** An assistant turn that has text and calls keeps its text and loses its calls, and then the
      results of those calls stay behind; only a turn without text takes its results along. */
  lemma ResultsFollowTheirCallIffItHasNoText(xs: seq<Entry>, i: nat)
    requires i == FirstNonSystem(xs) && i + 1 < |xs|
    requires xs[i].role == Assistant && xs[i].toolCalls != [] && IsResultOf(xs[i + 1], CallIds(xs[i]))
    ensures HasText(xs[i]) ==> Drop(xs) == xs[i := xs[i].(toolCalls := [])]
    ensures !HasText(xs[i]) ==> Drop(xs) == xs[..i] + SkipResults(xs[i + 2..], CallIds(xs[i]))
  {
    hide HasText, CallIds, FirstNonSystem, SkipResults;
    var e := xs[i];
    var e' := e.(toolCalls := []);
    if HasText(e) {
      SkipsNothing([e'] + xs[i + 1..], CallIds(e));
      assert Drop(xs) == xs[..i] + ([e'] + xs[i + 1..]);
    } else {
      SkipsFirst(xs[i + 1..], CallIds(e));
      assert xs[i + 1..][1..] == xs[i + 2..];
    }
  }

  lemma SkipsNothing(xs: seq<Entry>, ids: set<string>)
    requires xs != [] && xs[0].role != Tool
    ensures SkipResults(xs, ids) == xs
  {}

  lemma SkipsFirst(xs: seq<Entry>, ids: set<string>)
    requires xs != [] && IsResultOf(xs[0], ids)
    ensures SkipResults(xs, ids) == SkipResults(xs[1..], ids)
  {}

  lemma {:induction false} SkippingLosesTagsOnly(xs: seq<Entry>, ids: set<string>)
    ensures AllTags(SkipResults(xs, ids)) <= AllTags(xs)
  {
    if xs != [] && IsResultOf(xs[0], ids) {
      SkippingLosesTagsOnly(xs[1..], ids);
      TagsOfConcat([xs[0]], xs[1..]);
      assert xs == [xs[0]] + xs[1..];
    }
  }

  lemma DropLosesTagsOnly(xs: seq<Entry>)
    requires !AllSystem(xs)
    ensures AllTags(Drop(xs)) <= AllTags(xs)
  {
    hide HasText, AllTags, SkipResults, FirstNonSystem;
    var i := FirstNonSystem(xs);
    var e, rest := xs[i], xs[i + 1..];
    var e' := e.(toolCalls := []);
    SkippingLosesTagsOnly(rest, CallIds(e));
    SkippingLosesTagsOnly([e'] + rest, CallIds(e));
    TagsOfConcat([e'], rest);
    TagsOfConcat([e], rest);
    TagsOfOne(e);
    TagsOfOne(e');
    TagsOfConcat(xs[..i], [e] + rest);
    TagsOfConcat(xs[..i], DropHead(e, rest));
    assert xs == xs[..i] + ([e] + rest);
  }

  lemma {:induction false} TrimLosesTagsOnly(xs: seq<Entry>, n: nat)
    ensures AllTags(Dropped(xs, n)) <= AllTags(xs)
  {
    hide Drop, AllTags;
    if n > 0 {
      TrimLosesTagsOnly(xs, n - 1);
      if !AllSystem(Dropped(xs, n - 1)) {
        DropLosesTagsOnly(Dropped(xs, n - 1));
      }
    }
  }
}
