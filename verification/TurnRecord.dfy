/** What a turn of the agent leaves in the conversation, step by step. */
module TurnRecord {
  import opened Outcomes
  import opened PythonText
  import opened Sequences
  import opened TurnCounts
  import opened TurnProtocol
  import G = TurnGuarantees

  /** The n-th look into the inbox finds what is in it then. */
  lemma DrainsAreTheInbox(config: Config, world: World, steps: seq<Step>, i: nat)
    requires IsTurn(config, world, steps) && i < |steps| && steps[i].Drain?
    ensures steps[i].messages == world.inbox(Count(steps[..i], IsDrain))
  {
    hide Seen, Follows, Due, Note, Count;
    DueAt(config, world, steps, i);
    LedgerIsCounted(config, world, steps, i);
    DrainIsDue(config, world, Seen(steps[..i]), steps[i]);
  }

  lemma DrainIsDue(config: Config, world: World, l: Ledger, step: Step)
    requires Due(config, world, l) == Some(step) && step.Drain?
    ensures step.messages == world.inbox(l.drains)
  {
    hide FinalText, SaidNoReply, LlmError, Content;
  }

  /** A result holds the output of its own tool run; only in the last cycle it is the reminder to summarize. */
  lemma ResultsHoldTheOutputs(config: Config, world: World, steps: seq<Step>, i: nat)
    requires IsTurn(config, world, steps) && i < |steps| && steps[i].WriteResult?
    ensures steps[i].output
         == if Count(steps[..i], IsAssistantNode) == config.maxCycles then "[Tool Limit Reached] Summarize now."
            else world.tool(Count(steps[..i], IsToolResult))
  {
    hide Seen, Follows, Due, Note, Count;
    DueAt(config, world, steps, i);
    LedgerIsCounted(config, world, steps, i);
    ResultIsDue(config, world, Seen(steps[..i]), steps[i]);
  }

  lemma ResultIsDue(config: Config, world: World, l: Ledger, step: Step)
    requires Due(config, world, l) == Some(step) && step.WriteResult?
    ensures step.output
         == if l.turns == config.maxCycles then "[Tool Limit Reached] Summarize now." else world.tool(l.results)
  {
    hide FinalText, SaidNoReply, LlmError, Content;
  }

  // ----- What follows an assistant node -----

  /** From the `i`-th step on the turn writes the follow-ups as user turns and then a result for each call. */
  predicate IsAnswered(steps: seq<Step>, i: nat, users: seq<string>, calls: seq<ToolCall>) {
    i + |users| + |calls| <= |steps|
    && (forall j | i <= j < i + |users| :: steps[j] == WriteUser(users[j - i]))
    && (forall j | i + |users| <= j < i + |users| + |calls| ::
          steps[j].WriteResult? && steps[j].callId == calls[j - i - |users|].id)
  }

  lemma PendingUser(config: Config, world: World, l: Ledger, step: Step, users: seq<string>, calls: seq<ToolCall>,
                    isReply: bool)
    requires l.phase == Pending(users, calls, isReply) && Due(config, world, l) == Some(step)
    ensures users != [] ==> step == WriteUser(users[0]) && Note(l, step).phase == Pending(users[1..], calls, isReply)
    ensures users == [] && calls != [] ==>
              step.WriteResult? && step.callId == calls[0].id && Note(l, step).phase == Pending([], calls[1..], isReply)
    ensures users == [] && calls == [] ==> !step.WriteUser? && !step.WriteResult?
  {
    hide FinalText, SaidNoReply, LlmError, Content;
  }

  lemma {:induction false} PendingIsWritten(config: Config, world: World, steps: seq<Step>, i: nat,
                                            users: seq<string>, calls: seq<ToolCall>, isReply: bool)
    requires IsTurn(config, world, steps) && i <= |steps|
    requires Seen(steps[..i]).phase == Pending(users, calls, isReply)
    ensures IsAnswered(steps, i, users, calls)
    ensures var end := i + |users| + |calls|;
            end < |steps| && !steps[end].WriteUser? && !steps[end].WriteResult?
    decreases |users| + |calls|
  {
    hide Seen, Follows, Due, Note;
    NotOverYet(config, world, steps, i);
    DueAt(config, world, steps, i);
    PendingUser(config, world, Seen(steps[..i]), steps[i], users, calls, isReply);
    hide IsAnswered;
    if users != [] {
      PendingIsWritten(config, world, steps, i + 1, users[1..], calls, isReply);
      AnsweredWithUser(steps, i, users, calls);
    } else if calls != [] {
      PendingIsWritten(config, world, steps, i + 1, users, calls[1..], isReply);
      AnsweredWithResult(steps, i, users, calls);
    } else {
      NothingToAnswer(steps, i, users, calls);
    }
  }

  lemma NothingToAnswer(steps: seq<Step>, i: nat, users: seq<string>, calls: seq<ToolCall>)
    requires i <= |steps| && users == [] && calls == []
    ensures IsAnswered(steps, i, users, calls)
  {}

  lemma AnsweredWithUser(steps: seq<Step>, i: nat, users: seq<string>, calls: seq<ToolCall>)
    requires users != [] && IsAnswered(steps, i + 1, users[1..], calls) && steps[i] == WriteUser(users[0])
    ensures IsAnswered(steps, i, users, calls)
  {}

  lemma AnsweredWithResult(steps: seq<Step>, i: nat, users: seq<string>, calls: seq<ToolCall>)
    requires users == [] && calls != [] && IsAnswered(steps, i + 1, users, calls[1..])
    requires steps[i].WriteResult? && steps[i].callId == calls[0].id
    ensures IsAnswered(steps, i, users, calls)
  {}

  lemma NotOverYet(config: Config, world: World, steps: seq<Step>, i: nat)
    requires IsTurn(config, world, steps) && i <= |steps| && !Seen(steps[..i]).phase.Over?
    ensures i < |steps|
  {
    assert steps[..|steps|] == steps;
  }

  lemma AssistantNodeIsDue(config: Config, world: World, l: Ledger, infer: Step, step: Step)
    requires Due(config, world, l) == Some(infer) && Due(config, world, Note(l, infer)) == Some(step)
    requires step.WriteAssistant?
    ensures infer.Infer?
    ensures var c := infer.completion;
            step.calls == c.calls
            && step.content == (if c.thinking == "" then "" else "<think>" + c.thinking + "</think>") + c.text
            && Note(Note(l, infer), step).phase == Pending(c.followups, c.calls, c.calls == [])
  {
    hide FinalText, SaidNoReply, LlmError, IsBlank;
  }

  /** An assistant node records the completion just received, its reasoning in front of its text; then come its
      follow-ups as user turns and a result for each of its calls, in order, and nothing in between. */
  lemma AssistantNodeIsAnswered(config: Config, world: World, steps: seq<Step>, i: nat)
    requires IsTurn(config, world, steps) && i < |steps| && steps[i].WriteAssistant?
    ensures i > 0 && steps[i - 1].Infer?
    ensures var c := steps[i - 1].completion;
            steps[i].calls == c.calls
            && steps[i].content == (if c.thinking == "" then "" else "<think>" + c.thinking + "</think>") + c.text
            && IsAnswered(steps, i + 1, c.followups, c.calls)
            && var end := i + 1 + |c.followups| + |c.calls|;
               end < |steps| && !steps[end].WriteUser? && !steps[end].WriteResult?
  {
    hide Seen, Follows, Due, Note;
    DueAt(config, world, steps, i);
    NothingSeenYet();
    if i == 0 {
      AssistantNodeIsNotFirst(config, world);
    } else {
      DueAt(config, world, steps, i - 1);
      AssistantNodeIsDue(config, world, Seen(steps[..i - 1]), steps[i - 1], steps[i]);
      var c := steps[i - 1].completion;
      PendingIsWritten(config, world, steps, i + 1, c.followups, c.calls, c.calls == []);
    }
  }

  lemma AssistantNodeIsNotFirst(config: Config, world: World)
    ensures Due(config, world, START).Some? ==> !Due(config, world, START).value.WriteAssistant?
  {}

  // ----- Errors -----

  lemma NoteIsDue(config: Config, world: World, l: Ledger, step: Step)
    requires Due(config, world, l) == Some(step)
    ensures step.WriteErrorNote? ==> config.errorIntrospection && Note(l, step).phase == Noted(step.message)
    ensures step.Fail? ==> if l.phase.Noted? then step.message == l.phase.message else !config.errorIntrospection
    ensures l.phase.Noted? ==> step.Fail?
  {
    hide FinalText, SaidNoReply, LlmError, IsBlank, Content;
  }

  lemma NotedByNote(l: Ledger, step: Step)
    ensures Note(l, step).phase.Noted? && !l.phase.Noted? ==> step == WriteErrorNote(Note(l, step).phase.message)
  {
    hide IsBlank, LlmError;
  }

  /** An error is written into the conversation right before it is reported if that is switched on, and nowhere else. */
  lemma ErrorIsNotedIff(config: Config, world: World, steps: seq<Step>, i: nat)
    requires IsTurn(config, world, steps) && i < |steps|
    ensures steps[i].WriteErrorNote? ==>
              config.errorIntrospection && i + 2 == |steps| && Last(steps) == Fail(steps[i].message)
    ensures steps[i].Fail? && config.errorIntrospection ==> i > 0 && steps[i - 1] == WriteErrorNote(steps[i].message)
  {
    hide Seen, Follows, Due, Note;
    DueAt(config, world, steps, i);
    NoteIsDue(config, world, Seen(steps[..i]), steps[i]);
    NothingSeenYet();
    if steps[i].WriteErrorNote? {
      NotOverYet(config, world, steps, i + 1);
      DueAt(config, world, steps, i + 1);
      NoteIsDue(config, world, Seen(steps[..i + 1]), steps[i + 1]);
      G.OneTerminalEvent(config, world, steps, i + 1);
    }
    if steps[i].Fail? && config.errorIntrospection && i > 0 {
      DueAt(config, world, steps, i - 1);
      NoteIsDue(config, world, Seen(steps[..i - 1]), steps[i - 1]);
      NotedByNote(Seen(steps[..i - 1]), steps[i - 1]);
      G.OneTerminalEvent(config, world, steps, i - 1);
    }
  }
}
