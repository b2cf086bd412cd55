/** The whole of `assemble` in TinyCTX/context.py, with its account of the tags that were lost.
    Hooks are pure functions that return copies, as are the author label and the sanitizer. */
module ContextAssembly {
  import opened Outcomes
  import opened History
  import TurnMerge
  import TokenTrim

  type Filter = (Entry, int) -> bool
  type Transform = (Entry, int) -> Option<Entry>
  type Rewrite = Entry -> Content

  predicate Passes(filters: seq<Filter>, e: Entry, age: int) {
    forall i | 0 <= i < |filters| :: filters[i](e, age)
  }

  /** `e` after the transform hooks, each seeing the result of the one before. */
  function Transformed(transforms: seq<Transform>, e: Entry, age: int): Entry {
    if transforms == [] then e
    else
      var r := transforms[0](e, age);
      Transformed(transforms[1..], if r.Some? then r.value else e, age)
  }

  /** Every tag `e` carries on its way through the transform hooks. */
  function TagsAlong(transforms: seq<Transform>, e: Entry, age: int): set<string> {
    if transforms == [] then e.tags
    else
      var r := transforms[0](e, age);
      e.tags + TagsAlong(transforms[1..], if r.Some? then r.value else e, age)
  }

  /** The filter and transform loop on the first `n` entries: what is kept, and the tags seen. */
  function Kept(source: seq<Entry>, filters: seq<Filter>, transforms: seq<Transform>, attribute: Rewrite,
                n: nat): seq<Entry>
    requires n <= |source|
  {
    if n == 0 then []
    else
      var e, age := source[n - 1], |source| - 1 - source[n - 1].index;
      Kept(source, filters, transforms, attribute, n - 1)
      + if Passes(filters, e, age) then [Labelled(Transformed(transforms, e, age), attribute)] else []
  }

  function SeenTags(source: seq<Entry>, filters: seq<Filter>, transforms: seq<Transform>, n: nat): set<string>
    requires n <= |source|
  {
    if n == 0 then {}
    else
      var e, age := source[n - 1], |source| - 1 - source[n - 1].index;
      SeenTags(source, filters, transforms, n - 1)
      + if Passes(filters, e, age) then TagsAlong(transforms, e, age) else e.tags
  }

  function Labelled(e: Entry, rewrite: Rewrite): (r: Entry)
    ensures r.tags == e.tags && r.role == e.role && r.toolCalls == e.toolCalls && r.toolCallId == e.toolCallId
    ensures r.content == rewrite(e) && r.index == e.index
  {
    e.(content := rewrite(e))
  }

  method FilterAndTransform(source: seq<Entry>, filters: seq<Filter>, transforms: seq<Transform>, attribute: Rewrite)
    returns (entries: seq<Entry>, seen: set<string>)
    ensures entries == Kept(source, filters, transforms, attribute, |source|)
    ensures seen == SeenTags(source, filters, transforms, |source|)
  {
    entries, seen := [], {};
    for n := 0 to |source|
      invariant entries == Kept(source, filters, transforms, attribute, n)
      invariant seen == SeenTags(source, filters, transforms, n)
    {
      var e := source[n];
      var age := |source| - 1 - e.index;
      seen := seen + e.tags;
      var drop := AnyFilterDrops(filters, e, age);
      if !drop {
        var e', along := RunTransforms(transforms, e, age);
        seen := seen + along;
        entries := entries + [Labelled(e', attribute)];
      }
    }
  }

  method AnyFilterDrops(filters: seq<Filter>, e: Entry, age: int) returns (drop: bool)
    ensures drop <==> exists i :: 0 <= i < |filters| && !filters[i](e, age)
  {
    for i := 0 to |filters|
      invariant forall j | 0 <= j < i :: filters[j](e, age)
    {
      if !filters[i](e, age) {
        return true;
      }
    }
    drop := false;
  }

  method RunTransforms(transforms: seq<Transform>, e: Entry, age: int) returns (result: Entry, seen: set<string>)
    ensures result == Transformed(transforms, e, age)
    ensures seen + e.tags == TagsAlong(transforms, e, age)
  {
    result, seen := e, {};
    for i := 0 to |transforms|
      invariant Transformed(transforms, e, age) == Transformed(transforms[i..], result, age)
      invariant TagsAlong(transforms, e, age) == seen + e.tags + TagsAlong(transforms[i..], result, age)
      invariant result.tags <= seen + e.tags
    {
      var r := transforms[i](result, age);
      assert transforms[i..][1..] == transforms[i + 1..];
      if r.Some? {
        result := r.value;
        seen := seen + result.tags;
      }
    }
  }

  /** Where the run of user turns at the end begins. */
  function TrailingUsers(xs: seq<Entry>): (k: nat)
    ensures k <= |xs| && (forall i | k <= i < |xs| :: xs[i].role == User) && (k > 0 ==> xs[k - 1].role != User)
  {
    if xs == [] || xs[|xs| - 1].role != User then |xs| else TrailingUsers(xs[..|xs| - 1])
  }

  /** Prompts that are not system prompts go in front of the trailing user turns. */
  method InsertDeferred(entries: seq<Entry>, prompts: seq<Entry>) returns (r: seq<Entry>)
    ensures r == WithDeferred(entries, prompts)
  {
    hide TrailingUsers;
    var at := |entries|;
    assert entries[..at] == entries;
    while at > 0 && entries[at - 1].role == User
      invariant 0 <= at <= |entries| && TrailingUsers(entries[..at]) == TrailingUsers(entries)
    {
      OneMoreUser(entries, at);
      at := at - 1;
    }
    NoMoreUsers(entries, at);
    r := entries[..at] + prompts + entries[at..];
  }

  lemma OneMoreUser(entries: seq<Entry>, at: nat)
    requires 0 < at <= |entries| && entries[at - 1].role == User
    ensures TrailingUsers(entries[..at]) == TrailingUsers(entries[..at - 1])
  {
    assert entries[..at][..at - 1] == entries[..at - 1];
  }

  lemma NoMoreUsers(entries: seq<Entry>, at: nat)
    requires at <= |entries| && (at > 0 ==> entries[at - 1].role != User)
    ensures TrailingUsers(entries[..at]) == at
  {}

  function WithDeferred(entries: seq<Entry>, prompts: seq<Entry>): seq<Entry> {
    entries[..TrailingUsers(entries)] + prompts + entries[TrailingUsers(entries)..]
  }

  function Cleaned(entries: seq<Entry>, clean: Rewrite): seq<Entry> {
    seq(|entries|, i requires 0 <= i < |entries| => Labelled(entries[i], clean))
  }

  method Sanitize(entries: seq<Entry>, clean: Rewrite) returns (r: seq<Entry>)
    ensures r == Cleaned(entries, clean)
    ensures |r| == |entries| && forall i | 0 <= i < |r| :: r[i] == entries[i].(content := clean(entries[i]))
  {
    r := entries;
    for i := 0 to |entries|
      invariant |r| == |entries|
      invariant forall j | 0 <= j < |r| :: r[j] == if j < i then Labelled(entries[j], clean) else entries[j]
    {
      r := r[i := Labelled(r[i], clean)];
    }
  }

  datatype Meta = Meta(tokensPreTrim: int, tokensUsed: int, wasTrimmed: bool, invalidated: set<string>)

  /** What the merged entries hold: every mark of the system prompt, of what was kept and of the deferred prompts, which
      stand in front of the trailing user turns; and no two neighbours that could still be merged. */
  ghost predicate HoldsAll(joined: seq<Entry>, entries: seq<Entry>, deferred: seq<Entry>) {
    TurnMerge.NoPairLeft(joined)
    && exists k :: 0 <= k <= |entries| && (forall i | k <= i < |entries| :: entries[i].role == User)
                   && (k > 0 ==> entries[k - 1].role != User)
                   && TurnMerge.AllMarks(joined) == TurnMerge.AllMarks(entries[..k]) + TurnMerge.AllMarks(deferred)
                                                    + TurnMerge.AllMarks(entries[k..])
  }

  /** The pipeline from loaded history to the entries that are rendered; `joined` is what it has merged before it cleans
      and trims. */
  method Assemble(source: seq<Entry>, system: seq<Entry>, deferred: seq<Entry>,
                  filters: seq<Filter>, transforms: seq<Transform>, attribute: Rewrite, clean: Rewrite,
                  cost: TokenTrim.Cost, limit: int)
    returns (messages: seq<Entry>, meta: Meta, ghost joined: seq<Entry>)
    requires AllTags(system) == {} && AllTags(deferred) == {}
    ensures HoldsAll(joined, system + Kept(source, filters, transforms, attribute, |source|), deferred)
    ensures (forall i | 0 <= i < |system| :: system[i].role == System) ==>
              system <= joined && Cleaned(system, clean) <= messages
    ensures var merged := Cleaned(joined, clean);
            meta.tokensPreTrim == cost(merged)
            && (meta.wasTrimmed <==> cost(merged) > limit) && (!meta.wasTrimmed ==> messages == merged)
            && TokenTrim.Select(messages, true) == TokenTrim.Select(merged, true)
            && TokenTrim.Survives(TokenTrim.Select(messages, false), TokenTrim.Select(merged, false))
    ensures meta.tokensUsed == cost(messages) && (cost(messages) <= limit || TokenTrim.AllSystem(messages))
    ensures AllTags(messages) !! meta.invalidated
    ensures AllTags(messages) + meta.invalidated == SeenTags(source, filters, transforms, |source|)
  {
    hide HoldsAll, Kept, SeenTags, TurnMerge.Merge, Cleaned, AllTags;
    hide TokenTrim.Survives, TokenTrim.Select, TokenTrim.AllSystem, TokenTrim.Dropped, TrailingUsers;
    var kept, seen := FilterAndTransform(source, filters, transforms, attribute);
    var entries := InsertDeferred(system + kept, deferred);
    var whole := TurnMerge.MergeAdjacent(entries);
    joined := whole;
    var merged := Sanitize(whole, clean);
    var used, trimmed;
    ghost var rounds;
    messages, used, trimmed, rounds := TokenTrim.Trim(merged, cost, limit);
    meta := Meta(cost(merged), used, trimmed, seen - AllTags(messages));

    AllIsHeld(system + kept, deferred);
    SystemStaysFirst(system, kept, deferred, clean, rounds);
    TokenTrim.TrimKeepsSystemAndSuffix(merged, rounds);
    TokenTrim.TrimLosesTagsOnly(merged, rounds);
    CleaningKeepsTags(joined, clean);
    TurnMerge.MergeKeepsTags(entries);
    DeferredTags(system + kept, deferred);
    TagsOfConcat(system, kept);
    KeptTagsWereSeen(source, filters, transforms, attribute, |source|);
  }

  lemma AllIsHeld(entries: seq<Entry>, deferred: seq<Entry>)
    ensures HoldsAll(TurnMerge.Merge(WithDeferred(entries, deferred)), entries, deferred)
  {
    hide TurnMerge.Merge, TurnMerge.AllMarks, TurnMerge.NoPairLeft, TrailingUsers;
    var k := TrailingUsers(entries);
    TurnMerge.MergeLeavesNoPair(WithDeferred(entries, deferred));
    TurnMerge.MergeKeepsMarks(WithDeferred(entries, deferred));
    TurnMerge.MarksOfConcat(entries[..k] + deferred, entries[k..]);
    TurnMerge.MarksOfConcat(entries[..k], deferred);
  }

  lemma SystemComesFirst(system: seq<Entry>, kept: seq<Entry>, deferred: seq<Entry>)
    requires forall i | 0 <= i < |system| :: system[i].role == System
    ensures system <= TurnMerge.Merge(WithDeferred(system + kept, deferred))
  {
    hide TrailingUsers;
    var entries := system + kept;
    var k := TrailingUsers(entries);
    if system != [] {
      assert entries[|system| - 1] == system[|system| - 1];
      NotTrailing(entries, |system| - 1);
    }
    var rest := entries[|system|..k] + deferred + entries[k..];
    assert WithDeferred(entries, deferred) == system + rest;
    TurnMerge.SystemIsNotMerged(system, rest);
  }

  lemma NotTrailing(entries: seq<Entry>, i: nat)
    requires i < |entries| && entries[i].role != User
    ensures i < TrailingUsers(entries)
  {
    hide TrailingUsers;
  }

  lemma CleanedPrefix(a: seq<Entry>, b: seq<Entry>, clean: Rewrite)
    requires a <= b
    ensures Cleaned(a, clean) <= Cleaned(b, clean)
  {
    forall i | 0 <= i < |a|
      ensures Cleaned(a, clean)[i] == Cleaned(b, clean)[i]
    {}
  }

  lemma SystemStaysFirst(system: seq<Entry>, kept: seq<Entry>, deferred: seq<Entry>, clean: Rewrite, rounds: nat)
    ensures var joined := TurnMerge.Merge(WithDeferred(system + kept, deferred));
            (forall i | 0 <= i < |system| :: system[i].role == System) ==>
              system <= joined
              && Cleaned(system, clean) <= TokenTrim.Dropped(Cleaned(joined, clean), rounds)
  {
    hide TurnMerge.Merge, WithDeferred, TokenTrim.Dropped;
    if forall i | 0 <= i < |system| :: system[i].role == System {
      SystemComesFirst(system, kept, deferred);
      var joined := TurnMerge.Merge(WithDeferred(system + kept, deferred));
      CleanedPrefix(system, joined, clean);
      TokenTrim.TrimKeepsSystemPrefix(Cleaned(system, clean), Cleaned(joined, clean), rounds);
    }
  }

  // ----- What the hooks contribute -----

  /** Each transform hook sees the version that the one before left, and a hook that returns nothing leaves it as it is;
      the tags along the way are those of all versions. */
  lemma {:induction false} VersionsAlong(transforms: seq<Transform>, e: Entry, age: int) returns (versions: seq<Entry>)
    ensures |versions| == |transforms| + 1 && versions[0] == e
    ensures versions[|transforms|] == Transformed(transforms, e, age)
    ensures forall i | 0 <= i < |transforms| ::
              versions[i + 1] == (match transforms[i](versions[i], age) case Some(v) => v case None => versions[i])
    ensures forall tag :: tag in TagsAlong(transforms, e, age) <==>
                            exists i :: 0 <= i < |versions| && tag in versions[i].tags
  {
    if transforms == [] {
      versions := [e];
    } else {
      var r := transforms[0](e, age);
      var later := VersionsAlong(transforms[1..], if r.Some? then r.value else e, age);
      versions := [e] + later;
      forall tag
        ensures tag in TagsAlong(transforms, e, age) <==> exists i :: 0 <= i < |versions| && tag in versions[i].tags
      {
        OneMoreVersion(e, later, tag);
      }
      forall i | 0 <= i < |transforms|
        ensures versions[i + 1] == (match transforms[i](versions[i], age) case Some(v) => v case None => versions[i])
      {
        assert i > 0 ==> transforms[i] == transforms[1..][i - 1] && versions[i] == later[i - 1];
      }
    }
  }

  lemma OneMoreVersion(e: Entry, later: seq<Entry>, tag: string)
    ensures (exists i :: 0 <= i < |[e] + later| && tag in ([e] + later)[i].tags) <==>
              tag in e.tags || exists i :: 0 <= i < |later| && tag in later[i].tags
  {
    var versions := [e] + later;
    if tag in e.tags {
      assert tag in versions[0].tags;
    }
    if i :| 0 <= i < |later| && tag in later[i].tags {
      assert tag in versions[i + 1].tags;
    }
  }

  lemma {:induction false} KeptPositions(source: seq<Entry>, filters: seq<Filter>, transforms: seq<Transform>,
                                         attribute: Rewrite, n: nat) returns (at: seq<nat>)
    requires n <= |source|
    ensures |at| == |Kept(source, filters, transforms, attribute, n)| && forall j | 0 <= j < |at| :: at[j] < n
    ensures forall j | 0 <= j < |at| ::
              Kept(source, filters, transforms, attribute, n)[j]
              == Labelled(Transformed(transforms, source[at[j]], |source| - 1 - source[at[j]].index), attribute)
    ensures forall j, l | 0 <= j < l < |at| :: at[j] < at[l]
    ensures forall i | 0 <= i < n :: i in at <==> Passes(filters, source[i], |source| - 1 - source[i].index)
  {
    hide Transformed, Labelled, Passes;
    at := [];
    if n > 0 {
      at := KeptPositions(source, filters, transforms, attribute, n - 1);
      if Passes(filters, source[n - 1], |source| - 1 - source[n - 1].index) {
        at := at + [n - 1];
      }
    }
  }

  /** Kept are, in order, exactly the entries that every filter passes, each as the transform hooks left it and with the
      content the label gives it. */
  lemma KeptAreThosePassing(source: seq<Entry>, filters: seq<Filter>, transforms: seq<Transform>, attribute: Rewrite)
    returns (at: seq<nat>)
    ensures var kept := Kept(source, filters, transforms, attribute, |source|);
            |at| == |kept| && forall j | 0 <= j < |at| ::
              at[j] < |source|
              && var now := Transformed(transforms, source[at[j]], |source| - 1 - source[at[j]].index);
                 kept[j] == now.(content := attribute(now))
    ensures forall j, l | 0 <= j < l < |at| :: at[j] < at[l]
    ensures forall i | 0 <= i < |source| :: i in at <==>
              forall f | 0 <= f < |filters| :: filters[f](source[i], |source| - 1 - source[i].index)
  {
    hide Transformed, Kept;
    at := KeptPositions(source, filters, transforms, attribute, |source|);
  }

  /** A tag was seen exactly if an entry carried it, or a version of an entry that every filter passed. */
  lemma {:induction false} SeenTagsAreThoseCarried(source: seq<Entry>, filters: seq<Filter>, transforms: seq<Transform>,
                                                   n: nat, tag: string)
    requires n <= |source|
    ensures tag in SeenTags(source, filters, transforms, n) <==>
              exists i :: 0 <= i < n
                          && var age := |source| - 1 - source[i].index;
                             tag in source[i].tags
                             || ((forall f | 0 <= f < |filters| :: filters[f](source[i], age))
                                 && tag in TagsAlong(transforms, source[i], age))
  {
    if n > 0 {
      SeenTagsAreThoseCarried(source, filters, transforms, n - 1, tag);
      TagsAlongOwn(transforms, source[n - 1], |source| - 1 - source[n - 1].index);
    }
  }

  lemma TagsAlongOwn(transforms: seq<Transform>, e: Entry, age: int)
    ensures e.tags <= TagsAlong(transforms, e, age)
  {}

  lemma CleaningKeepsTags(xs: seq<Entry>, clean: Rewrite)
    ensures AllTags(Cleaned(xs, clean)) == AllTags(xs)
  {
    forall i | 0 <= i < |xs| ensures Cleaned(xs, clean)[i].tags == xs[i].tags {}
  }

  lemma DeferredTags(xs: seq<Entry>, prompts: seq<Entry>)
    ensures AllTags(WithDeferred(xs, prompts)) == AllTags(xs) + AllTags(prompts)
  {
    hide AllTags;
    var k := TrailingUsers(xs);
    TagsOfConcat(xs[..k] + prompts, xs[k..]);
    TagsOfConcat(xs[..k], prompts);
    TagsOfConcat(xs[..k], xs[k..]);
    assert xs == xs[..k] + xs[k..];
  }

  lemma {:induction false} KeptTagsWereSeen(source: seq<Entry>, filters: seq<Filter>, transforms: seq<Transform>,
                                            attribute: Rewrite, n: nat)
    requires n <= |source|
    ensures AllTags(Kept(source, filters, transforms, attribute, n)) <= SeenTags(source, filters, transforms, n)
  {
    if n > 0 {
      KeptTagsWereSeen(source, filters, transforms, attribute, n - 1);
      var e, age := source[n - 1], |source| - 1 - source[n - 1].index;
      LastTagsAreAlong(transforms, e, age);
      var now := Labelled(Transformed(transforms, e, age), attribute);
      TagsOfConcat(Kept(source, filters, transforms, attribute, n - 1), [now]);
      TagsOfOne(now);
    }
  }

  lemma {:induction false} LastTagsAreAlong(transforms: seq<Transform>, e: Entry, age: int)
    ensures Transformed(transforms, e, age).tags <= TagsAlong(transforms, e, age)
  {
    if transforms != [] {
      var r := transforms[0](e, age);
      LastTagsAreAlong(transforms[1..], if r.Some? then r.value else e, age);
    }
  }
}
