/** The merge of adjacent turns in `assemble` (TinyCTX/context.py). */
module TurnMerge {
  import opened PythonText
  import opened Sequences
  import opened History

  predicate Mergeable(e: Entry) {
    e.role in {User, Assistant} && e.toolCalls == [] && e.content.Text?
  }

  predicate CanMerge(prev: Entry, m: Entry) {
    m.role == prev.role && Mergeable(m) && Mergeable(prev)
  }

  function Join(prev: Entry, m: Entry): Entry
    requires CanMerge(prev, m)
  {
    prev.(content := Text(Strip(prev.content.text + "\n\n" + m.content.text)), tags := prev.tags + m.tags)
  }

  function MergeOne(merged: seq<Entry>, m: Entry): seq<Entry> {
    if merged != [] && CanMerge(merged[|merged| - 1], m)
    then merged[..|merged| - 1] + [Join(merged[|merged| - 1], m)]
    else merged + [m]
  }

  function Merge(xs: seq<Entry>): seq<Entry> {
    if xs == [] then [] else MergeOne(Merge(xs[..|xs| - 1]), xs[|xs| - 1])
  }

  method MergeAdjacent(entries: seq<Entry>) returns (merged: seq<Entry>)
    ensures merged == Merge(entries)
  {
    hide Join, CanMerge;
    merged := [];
    for i := 0 to |entries|
      invariant merged == Merge(entries[..i])
    {
      var m := entries[i];
      if merged != [] && CanMerge(merged[|merged| - 1], m) {
        var prev := merged[|merged| - 1];
        var joined := Join(prev, m);
        assert merged[|merged| - 1 := joined] == merged[..|merged| - 1] + [joined];
        merged := merged[|merged| - 1 := joined];
      } else {
        merged := merged + [m];
      }
      assert entries[..i + 1][..i] == entries[..i];
    }
    assert entries[..|entries|] == entries;
  }

  predicate NoPairLeft(xs: seq<Entry>) {
    forall i | 0 <= i < |xs| - 1 :: !CanMerge(xs[i], xs[i + 1])
  }

  lemma {:induction false} MergeLeavesNoPair(xs: seq<Entry>)
    ensures NoPairLeft(Merge(xs))
  {
    if xs != [] {
      MergeLeavesNoPair(xs[..|xs| - 1]);
    }
  }

  /** After the merge no two neighbours are texts of one user or assistant without tool calls. */
  lemma NoTextsLeftToJoin(xs: seq<Entry>, i: nat)
    requires i + 1 < |Merge(xs)| && Merge(xs)[i].role == Merge(xs)[i + 1].role
    requires Merge(xs)[i].role == User || Merge(xs)[i].role == Assistant
    ensures Merge(xs)[i].toolCalls != [] || Merge(xs)[i + 1].toolCalls != []
            || Merge(xs)[i].content.Blocks? || Merge(xs)[i + 1].content.Blocks?
  {
    hide Merge;
    MergeLeavesNoPair(xs);
    assert !CanMerge(Merge(xs)[i], Merge(xs)[i + 1]);
  }

  lemma {:induction false} MergeChangesNothingWithoutPairs(xs: seq<Entry>)
    requires NoPairLeft(xs)
    ensures Merge(xs) == xs
  {
    if xs != [] {
      var front := xs[..|xs| - 1];
      MergeChangesNothingWithoutPairs(front);
      assert front != [] ==> !CanMerge(xs[|xs| - 2], xs[|xs| - 1]);
      assert front + [xs[|xs| - 1]] == xs;
    }
  }

  lemma MergeIsIdempotent(xs: seq<Entry>)
    ensures Merge(Merge(xs)) == Merge(xs)
  {
    MergeLeavesNoPair(xs);
    MergeChangesNothingWithoutPairs(Merge(xs));
  }

  /** What is merged next depends only on what the front merged to. */
  lemma MergeContinues(a: seq<Entry>, b: seq<Entry>, ys: seq<Entry>)
    requires ys != [] && Merge(a + ys[..|ys| - 1]) == Merge(b + ys[..|ys| - 1])
    ensures Merge(a + ys) == Merge(b + ys)
  {
    hide MergeOne;
    FrontOfConcat(a, ys);
    FrontOfConcat(b, ys);
  }

  /** Merging can be resumed: what was merged already behaves like the entries it came from. */
  lemma {:induction false} MergeCanBeResumed(xs: seq<Entry>, ys: seq<Entry>)
    ensures Merge(Merge(xs) + ys) == Merge(xs + ys)
  {
    hide Merge;
    if ys == [] {
      assert Merge(xs) + ys == Merge(xs) && xs + ys == xs;
      MergeIsIdempotent(xs);
    } else {
      MergeCanBeResumed(xs, ys[..|ys| - 1]);
      MergeContinues(Merge(xs), xs, ys);
    }
  }

  /** What an entry contributes to the conversation: every letter with its role, every block,
      every tool call and the call a result answers.  White space is not counted. */
  datatype Mark =
    | Letter(role: Role, c: char)
    | Block(role: Role, block: string)
    | Call(role: Role, call: ToolCall)
    | Answers(role: Role, id: string)

  function Marks(e: Entry): seq<Mark> {
    (match e.content
     case Text(text) => seq(|Letters(text)|, i requires 0 <= i < |Letters(text)| => Letter(e.role, Letters(text)[i]))
     case Blocks(blocks) => seq(|blocks|, i requires 0 <= i < |blocks| => Block(e.role, blocks[i])))
    + seq(|e.toolCalls|, i requires 0 <= i < |e.toolCalls| => Call(e.role, e.toolCalls[i]))
    + if e.role == Tool && e.toolCallId.Some? then [Answers(e.role, e.toolCallId.value)] else []
  }

  function AllMarks(xs: seq<Entry>): seq<Mark> {
    if xs == [] then [] else AllMarks(xs[..|xs| - 1]) + Marks(xs[|xs| - 1])
  }

  lemma JoinKeepsMarks(prev: Entry, m: Entry)
    requires CanMerge(prev, m)
    ensures Marks(Join(prev, m)) == Marks(prev) + Marks(m)
  {
    JoinedLetters(prev.content.text, m.content.text);
    hide Strip, Letters;
  }

  lemma JoinedLetters(a: string, b: string)
    ensures Letters(Strip(a + "\n\n" + b)) == Letters(a) + Letters(b)
  {
    hide Strip, Letters;
    LettersOfStrip(a + "\n\n" + b);
    LettersOfConcat(a + "\n\n", b);
    LettersOfConcat(a, "\n\n");
    NoLettersInBreak();
  }

  lemma NoLettersInBreak()
    ensures Letters("\n\n") == ""
  {}

  /** Two merged texts stand one after the other with a blank line between them. */
  lemma JoinLeavesBlankLine(prev: Entry, m: Entry)
    requires CanMerge(prev, m)
    requires Strip(prev.content.text) == prev.content.text != "" && Strip(m.content.text) == m.content.text != ""
    ensures Join(prev, m).content == Text(prev.content.text + "\n\n" + m.content.text)
    ensures Join(prev, m).role == prev.role == m.role && Join(prev, m).toolCalls == []
    ensures Join(prev, m).tags == prev.tags + m.tags
  {
    var a, b := prev.content.text, m.content.text;
    StrippedEnds(a);
    StrippedEnds(b);
    StripKeepsInner(a + "\n\n" + b);
  }

  /** Merging keeps every letter, block and call, in order and under its role. */
  lemma {:induction false} MergeKeepsMarks(xs: seq<Entry>)
    ensures AllMarks(Merge(xs)) == AllMarks(xs)
  {
    hide Marks, Join, CanMerge;
    if xs != [] {
      MergeKeepsMarks(xs[..|xs| - 1]);
      MergeOneAddsMarks(Merge(xs[..|xs| - 1]), xs[|xs| - 1]);
    }
  }

  lemma MarksOfSnoc(xs: seq<Entry>, x: Entry)
    ensures AllMarks(xs + [x]) == AllMarks(xs) + Marks(x)
  {}

  lemma {:induction false} MarksOfConcat(xs: seq<Entry>, ys: seq<Entry>)
    ensures AllMarks(xs + ys) == AllMarks(xs) + AllMarks(ys)
  {
    hide Marks;
    if ys == [] {
      assert xs + ys == xs;
    } else {
      var front, last := ys[..|ys| - 1], ys[|ys| - 1];
      MarksOfConcat(xs, front);
      assert (xs + ys)[..|xs + ys| - 1] == xs + front;
      ConcatIsAssociative(AllMarks(xs), AllMarks(front), Marks(last));
    }
  }

  /** Entries of the system role are never merged with what comes after them. */
  lemma {:induction false} SystemIsNotMerged(system: seq<Entry>, rest: seq<Entry>)
    requires forall i | 0 <= i < |system| :: system[i].role == System
    ensures system <= Merge(system + rest)
  {
    hide Join;
    if rest == [] {
      assert system + rest == system;
      MergeChangesNothingWithoutPairs(system);
    } else {
      var front, m := rest[..|rest| - 1], rest[|rest| - 1];
      SystemIsNotMerged(system, front);
      assert (system + rest)[..|system + rest| - 1] == system + front;
      var merged := Merge(system + front);
      if merged != [] && CanMerge(merged[|merged| - 1], m) {
        assert |merged| > |system|;
      }
    }
  }

  lemma MergeOneAddsMarks(merged: seq<Entry>, m: Entry)
    ensures AllMarks(MergeOne(merged, m)) == AllMarks(merged) + Marks(m)
  {
    hide AllMarks, Marks, Join, CanMerge;
    if merged != [] && CanMerge(merged[|merged| - 1], m) {
      var front, last := merged[..|merged| - 1], merged[|merged| - 1];
      JoinKeepsMarks(last, m);
      assert merged == front + [last];
      MarksOfSnoc(front, last);
      MarksOfSnoc(front, Join(last, m));
    } else {
      MarksOfSnoc(merged, m);
    }
  }

  lemma {:induction false} MergeKeepsTags(xs: seq<Entry>)
    ensures AllTags(Merge(xs)) == AllTags(xs)
  {
    if xs != [] {
      MergeKeepsTags(xs[..|xs| - 1]);
      TagsOfConcat(xs[..|xs| - 1], [xs[|xs| - 1]]);
      TagsOfOne(xs[|xs| - 1]);
      assert xs == xs[..|xs| - 1] + [xs[|xs| - 1]];
      MergeOneAddsTags(Merge(xs[..|xs| - 1]), xs[|xs| - 1]);
    }
  }

  lemma MergeOneAddsTags(merged: seq<Entry>, m: Entry)
    ensures AllTags(MergeOne(merged, m)) == AllTags(merged) + m.tags
  {
    if merged != [] && CanMerge(merged[|merged| - 1], m) {
      var front, last := merged[..|merged| - 1], merged[|merged| - 1];
      TagsOfConcat(front, [last]);
      TagsOfConcat(front, [Join(last, m)]);
      TagsOfOne(last);
      TagsOfOne(Join(last, m));
      assert merged == front + [last];
    } else {
      TagsOfConcat(merged, [m]);
    }
    TagsOfOne(m);
  }

  function MergeablePairs(xs: seq<Entry>): nat {
    if |xs| < 2 then 0
    else MergeablePairs(xs[..|xs| - 1]) + if CanMerge(xs[|xs| - 2], xs[|xs| - 1]) then 1 else 0
  }

  predicate SameKind(a: Entry, b: Entry) {
    a.role == b.role && (Mergeable(a) <==> Mergeable(b))
  }

  lemma JoinKeepsKind(prev: Entry, m: Entry)
    requires CanMerge(prev, m)
    ensures SameKind(Join(prev, m), m)
  {}

  /** Exactly the adjacent pairs that were mergeable at the start are merged. */
  lemma {:induction false} MergeCount(xs: seq<Entry>)
    ensures |Merge(xs)| == |xs| - MergeablePairs(xs)
    ensures xs != [] ==> Merge(xs) != [] && SameKind(Merge(xs)[|Merge(xs)| - 1], xs[|xs| - 1])
  {
    if xs != [] {
      var front, m := xs[..|xs| - 1], xs[|xs| - 1];
      MergeCount(front);
      if front != [] {
        hide Mergeable, Join;
        assert CanMerge(Merge(front)[|Merge(front)| - 1], m) <==> CanMerge(xs[|xs| - 2], m);
        if CanMerge(xs[|xs| - 2], m) {
          JoinKeepsKind(Merge(front)[|Merge(front)| - 1], m);
        }
      }
    }
  }
}
