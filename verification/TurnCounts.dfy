/** What the ledger of a turn says, read off its steps. */
module TurnCounts {
  import opened Outcomes
  import opened PythonText
  import opened Sequences
  import opened TurnProtocol

  predicate IsInference(step: Step) {
    step.Infer?
  }

  predicate IsDrain(step: Step) {
    step.Drain?
  }

  predicate IsAssistantNode(step: Step) {
    step.WriteAssistant?
  }

  predicate IsToolResult(step: Step) {
    step.WriteResult?
  }

  function Count(steps: seq<Step>, kind: Step -> bool): nat {
    if steps == [] then 0 else Count(Front(steps), kind) + if kind(Last(steps)) then 1 else 0
  }

  lemma CountNext(steps: seq<Step>, i: nat, kind: Step -> bool)
    requires i < |steps|
    ensures Count(steps[..i + 1], kind) == Count(steps[..i], kind) + if kind(steps[i]) then 1 else 0
  {
    assert Front(steps[..i + 1]) == steps[..i];
  }

  predicate IsReply(c: Completion) {
    c.error.None? && c.calls == [] && Strip(c.text) != ""
  }

  /** The texts that the model replied with: those of its completions without tool calls. */
  function Replies(steps: seq<Step>): seq<string> {
    if steps == [] then []
    else
      Replies(Front(steps))
      + if Last(steps).Infer? && IsReply(Last(steps).completion) then [Last(steps).completion.text] else []
  }

  /** Some text of the turn was passed on while it was being made. */
  predicate WasStreamed(steps: seq<Step>) {
    exists i :: 0 <= i < |steps| && steps[i].Infer? && steps[i].completion.streamed
  }

  lemma RepliesNext(steps: seq<Step>, i: nat)
    requires i < |steps|
    ensures Replies(steps[..i + 1])
         == Replies(steps[..i])
            + if steps[i].Infer? && IsReply(steps[i].completion) then [steps[i].completion.text] else []
  {
    assert Front(steps[..i + 1]) == steps[..i];
  }

  lemma StreamedNext(steps: seq<Step>, i: nat)
    requires i < |steps|
    ensures WasStreamed(steps[..i + 1]) <==>
              WasStreamed(steps[..i]) || (steps[i].Infer? && steps[i].completion.streamed)
  {
    var now, next := steps[..i], steps[..i + 1];
    if k :| 0 <= k < |now| && now[k].Infer? && now[k].completion.streamed {
      assert next[k] == now[k];
    }
    assert next[i] == steps[i];
  }

  /** The reply that is to be recorded next. */
  function Unrecorded(p: Phase): seq<string> {
    if p.Answered? && p.completion.calls == [] then [p.completion.text] else []
  }

  /** The ledger counts the steps and lists the replies. */
  ghost predicate IsCounted(l: Ledger, steps: seq<Step>) {
    l.inferences == Count(steps, IsInference) && l.drains == Count(steps, IsDrain)
    && l.turns == Count(steps, IsAssistantNode) && l.results == Count(steps, IsToolResult)
    && l.replies + Unrecorded(l.phase) == Replies(steps) && (l.streamed <==> WasStreamed(steps))
  }

  predicate IsUsable(p: Phase) {
    p.Answered? ==> p.completion.error.None? && !IsBlank(p.completion)
  }

  lemma DueStepIsCounted(config: Config, world: World, l: Ledger, step: Step)
    requires Due(config, world, l) == Some(step) && IsUsable(l.phase)
    ensures var l' := Note(l, step);
            IsUsable(l'.phase)
            && l'.inferences == l.inferences + (if step.Infer? then 1 else 0)
            && l'.drains == l.drains + (if step.Drain? then 1 else 0)
            && l'.turns == l.turns + (if step.WriteAssistant? then 1 else 0)
            && l'.results == l.results + (if step.WriteResult? then 1 else 0)
            && (l'.streamed <==> l.streamed || (step.Infer? && step.completion.streamed))
            && l'.replies + Unrecorded(l'.phase)
               == l.replies + Unrecorded(l.phase)
                  + if step.Infer? && IsReply(step.completion) then [step.completion.text] else []
  {
    hide Content, LlmError, FinalText, SaidNoReply;
    hide Strip;
  }

  lemma {:induction false} LedgerIsCounted(config: Config, world: World, steps: seq<Step>, i: nat)
    requires Follows(config, world, steps) && i <= |steps|
    ensures IsCounted(Seen(steps[..i]), steps[..i]) && IsUsable(Seen(steps[..i]).phase)
  {
    hide Due, Note, Follows, Seen, Count, Replies, WasStreamed, IsReply, Unrecorded, IsUsable;
    if i == 0 {
      NothingIsCounted();
    } else {
      LedgerIsCounted(config, world, steps, i - 1);
      DueAt(config, world, steps, i - 1);
      DueStepIsCounted(config, world, Seen(steps[..i - 1]), steps[i - 1]);
      CountNext(steps, i - 1, IsInference);
      CountNext(steps, i - 1, IsDrain);
      CountNext(steps, i - 1, IsAssistantNode);
      CountNext(steps, i - 1, IsToolResult);
      RepliesNext(steps, i - 1);
      StreamedNext(steps, i - 1);
    }
  }

  lemma NothingIsCounted()
    ensures IsCounted(Seen([]), []) && IsUsable(Seen([]).phase)
  {}

  lemma TurnIsCounted(config: Config, world: World, steps: seq<Step>)
    requires IsTurn(config, world, steps)
    ensures IsCounted(Seen(steps), steps) && Replies(steps) == Seen(steps).replies
  {
    hide Due, Note, Seen, Count, Replies;
    LedgerIsCounted(config, world, steps, |steps|);
    assert steps[..|steps|] == steps;
    assert Seen(steps).replies + [] == Seen(steps).replies;
  }
}
