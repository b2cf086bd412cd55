/** What every turn of the agent has done once it is over. */
module TurnGuarantees {
  import opened Arithmetic
  import opened Outcomes
  import opened PythonText
  import opened Sequences
  import opened TurnCounts
  import opened TurnProtocol

  // ----- Counts and the ways to end -----

  function Cycles(config: Config): nat {
    if config.maxCycles > 0 then config.maxCycles else 0
  }

  function PerCycle(config: Config): nat {
    1 + if config.maxEmptyRetries > 0 then config.maxEmptyRetries else 0
  }

  /** The most inferences that `turns` assistant nodes can take. */
  function Allowance(config: Config, turns: nat): nat {
    turns * PerCycle(config)
  }

  lemma OneMoreTurn(config: Config, turns: nat)
    ensures Allowance(config, turns + 1) == Allowance(config, turns) + PerCycle(config)
    ensures turns < Cycles(config) ==> Allowance(config, turns + 1) <= Allowance(config, Cycles(config))
  {
    if turns < Cycles(config) {
      ProductGrows(turns + 1, PerCycle(config), Cycles(config), PerCycle(config));
    }
  }

  lemma AllowanceGrows(config: Config, turns: nat)
    requires turns <= Cycles(config)
    ensures Allowance(config, turns) <= Allowance(config, Cycles(config))
  {
    ProductGrows(turns, PerCycle(config), Cycles(config), PerCycle(config));
  }

  predicate WasBlank(c: Completion) {
    c.error.None? && c.calls == [] && Strip(c.text) == ""
  }

  /** The last `n` of the inferences made so far brought nothing. */
  ghost predicate BlankTail(world: World, inferences: nat, n: nat) {
    n <= inferences && forall k: nat | inferences - n <= k < inferences :: WasBlank(world.model(k))
  }

  /** Why a turn may end in this error. */
  ghost predicate Explains(config: Config, world: World, inferences: nat, message: string) {
    (message == "[aborted]" && world.aborted(inferences))
    || (inferences > 0 && world.model(inferences - 1).error.Some?
        && message == "[LLM error: " + world.model(inferences - 1).error.value + "]")
    || (message == "[no output from model]" && BlankTail(world, inferences, PerCycle(config)))
  }

  ghost predicate Sound(config: Config, world: World, l: Ledger) {
    l.turns <= Cycles(config)
    && match l.phase
       case Top => l.blanks == 0 && l.inferences <= Allowance(config, l.turns)
       case Drained => InCycle(config, world, l) && l.blanks < PerCycle(config) && !world.aborted(l.inferences)
       case Blank => InCycle(config, world, l) && 0 < l.blanks
       case Answered(_) => l.turns < Cycles(config) && l.inferences <= Allowance(config, l.turns) + PerCycle(config)
       case Writing(_, _, _) => l.blanks == 0 && l.inferences <= Allowance(config, l.turns)
       case Replied => l.blanks == 0 && l.inferences <= Allowance(config, l.turns)
       case Finishing => l.inferences <= Allowance(config, l.turns)
       case Erring(message) => Ending(config, l) && Explains(config, world, l.inferences, message)
       case Noted(message) => Ending(config, l) && Explains(config, world, l.inferences, message)
       case Over => Ending(config, l)
  }

  ghost predicate InCycle(config: Config, world: World, l: Ledger) {
    l.turns < Cycles(config) && l.blanks <= PerCycle(config)
    && l.inferences <= Allowance(config, l.turns) + l.blanks && BlankTail(world, l.inferences, l.blanks)
  }

  ghost predicate Ending(config: Config, l: Ledger) {
    l.inferences <= Allowance(config, Cycles(config))
  }

  lemma DueStepIsSound(config: Config, world: World, l: Ledger, step: Step)
    requires Sound(config, world, l) && Due(config, world, l) == Some(step)
    ensures Sound(config, world, Note(l, step))
    ensures step.Fail? ==> Explains(config, world, l.inferences, step.message)
    ensures step.Infer? ==> !world.aborted(l.inferences)
  {
    hide Allowance, Strip, Content;
    OneMoreTurn(config, l.turns);
    AllowanceGrows(config, l.turns);
  }

  lemma {:induction false} PrefixIsSound(config: Config, world: World, steps: seq<Step>, i: nat)
    requires Follows(config, world, steps) && i <= |steps|
    ensures Sound(config, world, Seen(steps[..i]))
  {
    hide Sound, Due, Note, Follows, Seen;
    if i == 0 {
      StartIsSound(config, world);
    } else {
      PrefixIsSound(config, world, steps, i - 1);
      DueAt(config, world, steps, i - 1);
      DueStepIsSound(config, world, Seen(steps[..i - 1]), steps[i - 1]);
    }
  }

  lemma StartIsSound(config: Config, world: World)
    ensures Sound(config, world, START) && Seen([]) == START
  {}

  lemma TurnIsSound(config: Config, world: World, steps: seq<Step>)
    requires IsTurn(config, world, steps)
    ensures Sound(config, world, Seen(steps))
  {
    PrefixIsSound(config, world, steps, |steps|);
    assert steps[..|steps|] == steps;
  }

  /** At most max_cycles x (1 + max_empty_retries) inferences. */
  lemma InferencesAreBounded(config: Config, world: World, steps: seq<Step>)
    requires IsTurn(config, world, steps)
    ensures Count(steps, IsInference) <= Cycles(config) * PerCycle(config)
  {
    hide Seen, Follows, Count;
    TurnIsSound(config, world, steps);
    TurnIsCounted(config, world, steps);
  }

  /** What a due step says about where it comes from and where it leads. */
  lemma DueStepIsPlaced(config: Config, world: World, l: Ledger, step: Step)
    requires Due(config, world, l) == Some(step)
    ensures step.Infer? ==> l.phase.Drained? && step.completion == world.model(l.inferences)
    ensures Note(l, step).phase.Drained? ==> step.Drain?
    ensures Note(l, step).phase.Finishing? ==> step == Drain([])
    ensures Note(l, step).phase.Over? <==> step.Fail? || step.Finish?
    ensures step.Finish? ==> step == EndInReply(l) && (l.turns >= config.maxCycles || l.phase.Finishing?)
    ensures !l.phase.Over?
  {
    hide FinalText, SaidNoReply, IsBlank, Content, LlmError;
  }

  /** Each inference is the model's next answer, made on a flag that was down, right after the inbox was read. */
  lemma InferencesAreTheModels(config: Config, world: World, steps: seq<Step>, i: nat)
    requires IsTurn(config, world, steps) && i < |steps| && steps[i].Infer?
    ensures steps[i].completion == world.model(Count(steps[..i], IsInference))
    ensures !world.aborted(Count(steps[..i], IsInference))
    ensures i > 0 && steps[i - 1].Drain?
  {
    hide Seen, Follows, Due, Note, Sound, Count;
    LedgerIsCounted(config, world, steps, i);
    PrefixIsSound(config, world, steps, i);
    DueAt(config, world, steps, i);
    DueStepIsSound(config, world, Seen(steps[..i]), steps[i]);
    DueStepIsPlaced(config, world, Seen(steps[..i]), steps[i]);
    NothingSeenYet();
    if i > 0 {
      DueAt(config, world, steps, i - 1);
      DueStepIsPlaced(config, world, Seen(steps[..i - 1]), steps[i - 1]);
    }
  }

  lemma LastStepEnds(config: Config, world: World, steps: seq<Step>)
    requires IsTurn(config, world, steps)
    ensures steps != [] && (Last(steps).Fail? || Last(steps).Finish?)
    ensures Due(config, world, Seen(Front(steps))) == Some(Last(steps))
    ensures Seen(steps) == Note(Seen(Front(steps)), Last(steps))
  {
    hide Seen, Follows, Due, Note;
    NothingSeenYet();
    DueAt(config, world, steps, |steps| - 1);
    assert steps[..|steps|] == steps;
    DueStepIsPlaced(config, world, Seen(Front(steps)), Last(steps));
  }

  lemma NothingIsDueAfterTheEnd(config: Config, world: World, l: Ledger)
    ensures l.phase.Over? ==> Due(config, world, l) == None
  {}

  lemma EndingChangesNoCount(l: Ledger, step: Step)
    requires step.Fail? || step.Finish?
    ensures Note(l, step).inferences == l.inferences && Note(l, step).turns == l.turns
    ensures EndInReply(Note(l, step)) == EndInReply(l)
  {}

  /** The last reply, unless it was passed on already or is the token for saying nothing. */
  predicate IsFinalText(text: string, replies: seq<string>, streamed: bool) {
    text == if streamed || replies == [] || Strip(Last(replies)) == "NO_REPLY" then "" else Last(replies)
  }

  predicate OffersSilence(replies: seq<string>) {
    exists r <- replies :: Strip(r) == "NO_REPLY"
  }

  lemma EndsWithTheReplies(l: Ledger)
    ensures IsFinalText(EndInReply(l).text, l.replies, l.streamed)
    ensures EndInReply(l).suppressed == OffersSilence(l.replies)
  {
    hide Strip;
    if i :| 0 <= i < |l.replies| && IsNoReply(l.replies[i]) {
      assert l.replies[i] in l.replies;
    }
  }

  /** A turn ends in an error only for one of three reasons, and the error names it; it ends in a reply only
      if the cycles are used up or the last look into the inbox found nothing. */
  lemma HowATurnEnds(config: Config, world: World, steps: seq<Step>)
    requires IsTurn(config, world, steps)
    ensures steps != [] && (Last(steps).Fail? || Last(steps).Finish?)
    ensures Last(steps).Fail? ==> Explains(config, world, Count(steps, IsInference), Last(steps).message)
    ensures Last(steps).Finish? ==> IsFinalText(Last(steps).text, Replies(steps), WasStreamed(steps))
    ensures Last(steps).Finish? ==> (Last(steps).suppressed <==> OffersSilence(Replies(steps)))
    ensures Last(steps).Finish? ==>
              Count(steps, IsAssistantNode) >= config.maxCycles || (|steps| >= 2 && steps[|steps| - 2] == Drain([]))
  {
    hide Seen, Follows, Due, Note, Sound, Explains, Count, Replies, WasStreamed, IsFinalText, OffersSilence;
    TurnIsCounted(config, world, steps);
    EndsWithTheReplies(Seen(steps));
    LastStepEnds(config, world, steps);
    var n, l := |steps| - 1, Seen(Front(steps));
    PrefixIsSound(config, world, steps, n);
    DueStepIsSound(config, world, l, Last(steps));
    DueStepIsPlaced(config, world, l, Last(steps));
    EndingChangesNoCount(l, Last(steps));
    NothingSeenYet();
    if n > 0 {
      DueAt(config, world, steps, n - 1);
      DueStepIsPlaced(config, world, Seen(steps[..n - 1]), steps[n - 1]);
    }
  }

  /** No abort, no model error, never 1 + max_empty_retries blank completions in a row: the turn replies. */
  lemma UndisturbedTurnReplies(config: Config, world: World, steps: seq<Step>)
    requires IsTurn(config, world, steps)
    requires forall k: nat | k <= Cycles(config) * PerCycle(config) :: !world.aborted(k) && world.model(k).error.None?
    requires forall k: nat | k <= Cycles(config) * PerCycle(config) :: !BlankTail(world, k, PerCycle(config))
    ensures Last(steps).Finish?
  {
    HowATurnEnds(config, world, steps);
    InferencesAreBounded(config, world, steps);
  }

  lemma {:induction false} SamePrefixes(config: Config, world: World, a: seq<Step>, b: seq<Step>, n: nat)
    requires Follows(config, world, a) && Follows(config, world, b) && n <= |a| && n <= |b|
    ensures a[..n] == b[..n]
  {
    hide Seen, Follows, Due, Note;
    if n > 0 {
      SamePrefixes(config, world, a, b, n - 1);
      DueAt(config, world, a, n - 1);
      DueAt(config, world, b, n - 1);
    }
  }

  lemma NoTurnIsPartOfAnother(config: Config, world: World, a: seq<Step>, b: seq<Step>)
    requires IsTurn(config, world, a) && IsTurn(config, world, b)
    ensures |b| <= |a|
  {
    hide Seen, Follows, Due, Note;
    if |a| < |b| {
      SamePrefixes(config, world, a, b, |a|);
      NothingIsDueAfterTheEnd(config, world, Seen(a));
      assert a[..|a|] == a;
      DueAt(config, world, b, |a|);
    }
  }

  /** The world determines the turn. */
  lemma TurnIsDetermined(config: Config, world: World, a: seq<Step>, b: seq<Step>)
    requires IsTurn(config, world, a) && IsTurn(config, world, b)
    ensures a == b
  {
    NoTurnIsPartOfAnother(config, world, a, b);
    NoTurnIsPartOfAnother(config, world, b, a);
    SamePrefixes(config, world, a, b, |a|);
    assert a[..|a|] == a && b[..|a|] == b;
  }

  // ----- Nodes and results -----

  function CallIds(steps: seq<Step>): seq<string> {
    if steps == [] then []
    else CallIds(Front(steps)) + if Last(steps).WriteAssistant? then IdsOf(Last(steps).calls) else []
  }

  function IdsOf(calls: seq<ToolCall>): seq<string> {
    seq(|calls|, i requires 0 <= i < |calls| => calls[i].id)
  }

  function ResultIds(steps: seq<Step>): seq<string> {
    if steps == [] then []
    else ResultIds(Front(steps)) + if Last(steps).WriteResult? then [Last(steps).callId] else []
  }

  function Waiting(p: Phase): seq<string> {
    if p.Writing? then IdsOf(p.calls) else []
  }

  /** A call is waited for from the node that makes it to the node that answers it. */
  lemma DueStepKeepsAccount(config: Config, world: World, l: Ledger, step: Step)
    requires Due(config, world, l) == Some(step)
    ensures Waiting(l.phase) + (if step.WriteAssistant? then IdsOf(step.calls) else [])
         == (if step.WriteResult? then [step.callId] else []) + Waiting(Note(l, step).phase)
  {
    hide IsBlank, Content, LlmError;
    assert IdsOf([]) == [];
    if step.WriteResult? {
      assert IdsOf(l.phase.calls) == [l.phase.calls[0].id] + IdsOf(l.phase.calls[1..]);
    }
  }

  /** Results come in the order of the calls: those still waited for are the last ones made. */
  lemma {:induction false} ResultsFollowCalls(config: Config, world: World, steps: seq<Step>, i: nat)
    requires Follows(config, world, steps) && i <= |steps|
    ensures CallIds(steps[..i]) == ResultIds(steps[..i]) + Waiting(Seen(steps[..i]).phase)
  {
    hide IdsOf, Due, Note, Follows, Seen;
    if i == 0 {
      NothingSeenYet();
    } else {
      ResultsFollowCalls(config, world, steps, i - 1);
      var before, step := steps[..i - 1], steps[i - 1];
      DueAt(config, world, steps, i - 1);
      DueStepKeepsAccount(config, world, Seen(before), step);
      assert Front(steps[..i]) == before;
      var made := if step.WriteAssistant? then IdsOf(step.calls) else [];
      var got := if step.WriteResult? then [step.callId] else [];
      hide Waiting;
      ConcatIsAssociative(ResultIds(before), Waiting(Seen(before).phase), made);
      ConcatIsAssociative(ResultIds(before), got, Waiting(Seen(steps[..i]).phase));
    }
  }

  /** Before every inference and at the end each tool call has got exactly one result, with its id. */
  lemma EveryCallIsAnswered(config: Config, world: World, steps: seq<Step>, i: nat)
    requires IsTurn(config, world, steps) && i <= |steps| && (i == |steps| || steps[i].Infer?)
    ensures CallIds(steps[..i]) == ResultIds(steps[..i])
  {
    hide Seen, Follows, Due, Note, CallIds, ResultIds;
    ResultsFollowCalls(config, world, steps, i);
    if i < |steps| {
      DueAt(config, world, steps, i);
      DueStepIsPlaced(config, world, Seen(steps[..i]), steps[i]);
    } else {
      assert steps[..i] == steps;
    }
  }

  lemma {:induction false} NeverEmptyHanded(steps: seq<Step>)
    ensures Seen(steps).phase.Writing? ==> Seen(steps).phase.users != [] || Seen(steps).phase.calls != []
  {
    if steps != [] {
      NeverEmptyHanded(Front(steps));
    }
  }

  /** A turn never stalls: until its terminal event some step is due, whatever the model, the tools and the inbox
      have done so far. */
  lemma TurnNeverStalls(config: Config, world: World, steps: seq<Step>)
    requires Follows(config, world, steps)
    ensures Due(config, world, Seen(steps)).None? <==> steps != [] && (Last(steps).Fail? || Last(steps).Finish?)
  {
    NeverEmptyHanded(steps);
    hide Seen, Follows, Note;
    NothingSeenYet();
    if steps != [] {
      DueAt(config, world, steps, |steps| - 1);
      assert steps[..|steps|] == steps && steps[..|steps| - 1] == Front(steps);
      DueStepIsPlaced(config, world, Seen(Front(steps)), Last(steps));
    }
  }

  /** A finished turn has one terminal event, and it is the last step. */
  lemma OneTerminalEvent(config: Config, world: World, steps: seq<Step>, i: nat)
    requires IsTurn(config, world, steps) && i < |steps|
    ensures (steps[i].Fail? || steps[i].Finish?) <==> i == |steps| - 1
  {
    hide Seen, Follows, Due, Note;
    LastStepEnds(config, world, steps);
    DueAt(config, world, steps, i);
    DueStepIsPlaced(config, world, Seen(steps[..i]), steps[i]);
    if i + 1 < |steps| {
      DueAt(config, world, steps, i + 1);
      DueStepIsPlaced(config, world, Seen(steps[..i + 1]), steps[i + 1]);
    }
  }

  lemma RecordedWhenUsable(config: Config, world: World, l: Ledger, a: Step, b: Step)
    requires Due(config, world, l) == Some(a) && Due(config, world, Note(l, a)) == Some(b)
    ensures b.WriteAssistant? <==> a.Infer? && a.completion.error.None? && !IsBlank(a.completion)
    ensures b.WriteAssistant? ==> b.content == Content(a.completion) && b.calls == a.completion.calls
  {
    hide IsBlank, Content;
  }

  /** An assistant node records the completion just received, which had text or tool calls; every such
      completion is recorded. */
  lemma UsableCompletionsAreRecorded(config: Config, world: World, steps: seq<Step>, i: nat)
    requires IsTurn(config, world, steps) && i + 1 < |steps|
    ensures steps[i + 1].WriteAssistant? <==>
              steps[i].Infer? && steps[i].completion.error.None?
              && (steps[i].completion.calls != [] || Strip(steps[i].completion.text) != "")
    ensures steps[i + 1].WriteAssistant? ==>
              steps[i + 1].content == Content(steps[i].completion) && steps[i + 1].calls == steps[i].completion.calls
  {
    hide Due, Note, Seen, Follows, Content, Strip;
    DueAt(config, world, steps, i);
    DueAt(config, world, steps, i + 1);
    RecordedWhenUsable(config, world, Seen(steps[..i]), steps[i], steps[i + 1]);
  }

  // ----- The flag for saying nothing -----

  /** The reply on offer is the token, and then the last look into the inbox finds something. */
  predicate Wakes(l: Ledger, step: Step) {
    l.phase.Replied? && l.replies != [] && IsNoReply(Last(l.replies)) && step.Drain? && step.messages != []
  }

  predicate WakesFromSilence(steps: seq<Step>, i: nat)
    requires i < |steps|
  {
    Wakes(Seen(steps[..i]), steps[i])
  }

  ghost predicate WokenFromSilence(steps: seq<Step>, n: nat) {
    exists i :: 0 <= i < n && i < |steps| && WakesFromSilence(steps, i)
  }

  predicate OnOffer(p: Phase) {
    p.Replied? || p.Finishing? || (p.Writing? && p.isReply)
  }

  /** The token is among the replies exactly if the turn was woken from silence, or has just offered it. */
  ghost predicate SilenceIsKnown(l: Ledger, woken: bool) {
    (OnOffer(l.phase) ==> l.replies != [])
    && (SaidNoReply(l.replies) <==> woken || (OnOffer(l.phase) && IsNoReply(Last(l.replies))))
  }

  lemma DueStepKeepsSilence(config: Config, world: World, l: Ledger, step: Step, woken: bool)
    requires Due(config, world, l) == Some(step) && !step.Fail? && !step.Finish? && !step.WriteErrorNote?
    requires SilenceIsKnown(l, woken)
    ensures SilenceIsKnown(Note(l, step), woken || Wakes(l, step))
  {
    hide IsNoReply, IsBlank, Content, SaidNoReply, LlmError;
    if step.WriteAssistant? {
      OneMoreReply(l.replies, l.phase.completion.text);
    }
  }

  lemma WokenOneLater(steps: seq<Step>, n: nat)
    requires n < |steps|
    ensures WokenFromSilence(steps, n + 1) <==> WokenFromSilence(steps, n) || WakesFromSilence(steps, n)
  {
    hide WakesFromSilence;
  }

  lemma {:induction false} SilenceIsKnownThroughout(config: Config, world: World, steps: seq<Step>, n: nat)
    requires IsTurn(config, world, steps) && n < |steps| && !Seen(steps[..n]).phase.Noted?
    ensures SilenceIsKnown(Seen(steps[..n]), WokenFromSilence(steps, n))
  {
    hide Follows, Due, Note, Seen, SilenceIsKnown, WokenFromSilence;
    if n == 0 {
      NobodyIsSilentYet(steps);
    } else {
      var l, step := Seen(steps[..n - 1]), steps[n - 1];
      DueAt(config, world, steps, n - 1);
      OneTerminalEvent(config, world, steps, n - 1);
      NotedStays(config, world, l, step);
      SilenceIsKnownThroughout(config, world, steps, n - 1);
      DueStepKeepsSilence(config, world, l, step, WokenFromSilence(steps, n - 1));
      WokenOneLater(steps, n - 1);
    }
  }

  lemma NobodyIsSilentYet(steps: seq<Step>)
    ensures SilenceIsKnown(Seen([]), WokenFromSilence(steps, 0))
  {}

  lemma NotedStays(config: Config, world: World, l: Ledger, step: Step)
    requires Due(config, world, l) == Some(step)
    ensures l.phase.Noted? ==> step.Fail?
    ensures step.WriteErrorNote? <==> Note(l, step).phase.Noted?
  {
    hide FinalText, SaidNoReply, IsBlank, Content, LlmError;
  }

  /** The last reply was the token; not so if there was none. */
  predicate EndsWithTheToken(steps: seq<Step>) {
    Replies(steps) != [] && Strip(Last(Replies(steps))) == "NO_REPLY"
  }

  predicate SpeaksForTheLastReply(steps: seq<Step>)
    requires steps != [] && Last(steps).Finish?
  {
    Last(steps).suppressed == EndsWithTheToken(steps)
  }

  /** A final event is marked as silent if the last reply is the token, or else exactly if the turn was woken from
      silence: it offered the token, found something in the inbox, and went on.  So the mark speaks for the
      last reply exactly when that is the token or the turn was never woken so. */
  lemma SilenceIsOfTheLastReplyIff(config: Config, world: World, steps: seq<Step>)
    requires IsTurn(config, world, steps) && Last(steps).Finish?
    ensures SpeaksForTheLastReply(steps) <==> EndsWithTheToken(steps) || !WokenFromSilence(steps, |steps|)
    ensures Last(steps).suppressed <==> EndsWithTheToken(steps) || WokenFromSilence(steps, |steps|)
  {
    hide Follows, Due, Note, Seen, WokenFromSilence, Wakes, Replies, Strip;
    LastStepEnds(config, world, steps);
    TurnIsCounted(config, world, steps);
    var n, l := |steps| - 1, Seen(Front(steps));
    FinalEventIsPlaced(config, world, l, Last(steps));
    SilenceIsKnownThroughout(config, world, steps, n);
    WokenOneLater(steps, n);
    LastIsAmong(l.replies);
  }

  lemma FinalEventIsPlaced(config: Config, world: World, l: Ledger, step: Step)
    requires Due(config, world, l) == Some(step) && step.Finish?
    ensures step.suppressed == SaidNoReply(l.replies) && Note(l, step).replies == l.replies
    ensures !l.phase.Noted? && (OnOffer(l.phase) ==> l.phase.Finishing?) && !Wakes(l, step)
  {
    hide SaidNoReply, IsNoReply, FinalText;
  }

  lemma LastIsAmong(replies: seq<string>)
    ensures replies != [] && IsNoReply(Last(replies)) ==> SaidNoReply(replies)
  {}

  // ----- A turn whose answer is kept back -----

  function Says(text: string): Completion {
    Completion(text, "", [], None, false, [])
  }

  /** A model that first offers the token and then an answer; a peer's message arrives in between. */
  const WOKEN := World(_ => false,
                       n => if n == 1 then ["peer"] else [],
                       n => if n == 0 then Says(NO_REPLY) else Says("Done."),
                       _ => "")

  const USUAL := Config(10, 2, false)

  const WOKEN_TURN := [
    Drain([]), Infer(Says(NO_REPLY)), WriteAssistant(NO_REPLY, []), Drain(["peer"]),
    Drain([]), Infer(Says("Done.")), WriteAssistant("Done.", []), Drain([]), Finish("Done.", true)]

  lemma TokenAndAnswer()
    ensures IsNoReply(NO_REPLY) && !IsNoReply("Done.") && !IsBlank(Says(NO_REPLY)) && !IsBlank(Says("Done."))
  {
    assert Strip(NO_REPLY) == NO_REPLY && Strip("Done.") == "Done.";
  }

  const OFFERED := Ledger(Replied, 1, 1, 0, 1, 0, [NO_REPLY], false)
  const CONFIRMED := Ledger(Finishing, 2, 4, 0, 2, 0, [NO_REPLY, "Done."], false)

  /** Where the turn stands after its first `i` steps. */
  function Standing(i: nat): Ledger {
    match i
    case 0 => START
    case 1 => START.(phase := Drained, drains := 1)
    case 2 => START.(phase := Answered(Says(NO_REPLY)), drains := 1, inferences := 1)
    case 3 => OFFERED
    case 4 => OFFERED.(phase := Top, drains := 2)
    case 5 => OFFERED.(phase := Drained, drains := 3)
    case 6 => OFFERED.(phase := Answered(Says("Done.")), drains := 3, inferences := 2)
    case 7 => CONFIRMED.(phase := Replied, drains := 3)
    case 8 => CONFIRMED
    case _ => CONFIRMED.(phase := Over)
  }

  ghost predicate MovesOn(i: nat)
    requires i < 9
  {
    Due(USUAL, WOKEN, Standing(i)) == Some(WOKEN_TURN[i]) && Note(Standing(i), WOKEN_TURN[i]) == Standing(i + 1)
  }

  lemma OffersTheToken()
    ensures MovesOn(0) && MovesOn(1) && MovesOn(2) && MovesOn(3)
  {
    TokenAndAnswer();
    hide IsNoReply, IsBlank;
  }

  lemma OffersTheAnswer()
    ensures MovesOn(4) && MovesOn(5) && MovesOn(6) && MovesOn(7)
  {
    TokenAndAnswer();
    hide IsNoReply, IsBlank;
  }

  lemma FinishesSilently()
    ensures MovesOn(8)
  {
    TokenAndAnswer();
    hide IsNoReply;
    assert IsNoReply(CONFIRMED.replies[0]);
  }

  lemma {:induction false} WokenTurnStands(i: nat)
    requires i <= 9
    ensures Seen(WOKEN_TURN[..i]) == Standing(i)
    ensures i < 9 ==> Due(USUAL, WOKEN, Standing(i)) == Some(WOKEN_TURN[i])
  {
    OffersTheToken();
    OffersTheAnswer();
    FinishesSilently();
    hide Due, Note, Seen, Standing;
    if i == 0 {
      NothingStands();
    } else {
      WokenTurnStands(i - 1);
      SeenNext(WOKEN_TURN, i - 1);
    }
    assert i < 9 ==> MovesOn(i);
    assert i > 0 ==> MovesOn(i - 1);
  }

  lemma NothingStands()
    ensures Seen([]) == Standing(0)
  {}

  /** The answer of that turn is marked as suppressed. */
  lemma AnswerAfterSilenceIsSuppressed()
    ensures IsTurn(USUAL, WOKEN, WOKEN_TURN)
    ensures Last(WOKEN_TURN) == Finish("Done.", true) && Seen(WOKEN_TURN).replies == [NO_REPLY, "Done."]
  {
    hide Due, Note, Seen;
    forall i | 0 <= i < |WOKEN_TURN|
      ensures WasDue(USUAL, WOKEN, WOKEN_TURN, i)
    {
      WokenTurnStands(i);
    }
    WokenTurnStands(9);
    assert WOKEN_TURN[..9] == WOKEN_TURN;
  }
}
