/** The generation loop of one agent turn (TinyCTX/agent.py).  It takes exactly the steps of the turn
    protocol, from the first to the terminal event. */
module GenerationLoop {
  import opened Outcomes
  import opened TurnProtocol

  class Turn {
    const config: Config
    const world: World
    var steps: seq<Step>
    var drains: nat
    var toolRuns: nat

    /** Where the turn stands, every step so far having been due. */
    ghost predicate At(l: Ledger)
      reads this
    {
      Follows(config, world, steps) && Seen(steps) == l && drains == l.drains && toolRuns == l.results
    }

    constructor (config: Config, world: World)
      ensures this.config == config && this.world == world && At(START)
    {
      this.config, this.world := config, world;
      steps, drains, toolRuns := [], 0, 0;
    }

    method Do(step: Step, ghost l: Ledger)
      requires At(l) && Due(config, world, l) == Some(step)
      modifies this
      ensures At(Note(l, step)) && steps == old(steps) + [step]
    {
      hide Follows, Seen, Due, Note;
      FollowsWith(config, world, steps, step);
      DueStepCounts(config, world, l, step);
      steps := steps + [step];
      drains := if step.Drain? then drains + 1 else drains;
      toolRuns := if step.WriteResult? then toolRuns + 1 else toolRuns;
    }

    /** `_drain_inbox`. */
    method DrainInbox(ghost l: Ledger) returns (wrote: bool)
      requires At(l) && Due(config, world, l) == Some(Drain(world.inbox(l.drains)))
      modifies this
      ensures At(Note(l, Drain(world.inbox(l.drains)))) && wrote == (world.inbox(l.drains) != [])
    {
      var messages := world.inbox(drains);
      wrote := messages != [];
      Do(Drain(messages), l);
    }

    /** Every queued follow-up is written as a user turn. */
    method WriteFollowups(messages: seq<string>, ghost l: Ledger, ghost calls: seq<ToolCall>)
      requires At(l) && l.phase == Pending(messages, calls, calls == [])
      modifies this
      ensures At(l.(phase := Pending([], calls, calls == [])))
    {
      hide Follows, Seen;
      ghost var now := l;
      for i := 0 to |messages|
        invariant now == l.(phase := Pending(messages[i..], calls, calls == [])) && At(now)
      {
        Do(WriteUser(messages[i]), now);
        now := Note(now, WriteUser(messages[i]));
        assert messages[i..][1..] == messages[i + 1..];
      }
    }

    /** One result per call, in order, with its id; on the last cycle the output is a reminder. */
    method RunTools(calls: seq<ToolCall>, isLastCycle: bool, ghost l: Ledger)
      requires At(l) && calls != [] && l.phase == Pending([], calls, false)
      requires isLastCycle == (l.turns == config.maxCycles)
      modifies this
      ensures At(l.(phase := Top, results := l.results + |calls|))
    {
      hide Follows, Seen;
      ghost var now := l;
      for i := 0 to |calls|
        invariant now == l.(phase := Pending([], calls[i..], false), results := l.results + i) && At(now)
      {
        var output := world.tool(toolRuns);
        if isLastCycle {
          output := TOOL_LIMIT;
        }
        Do(WriteResult(calls[i].id, output), now);
        now := Note(now, WriteResult(calls[i].id, output));
        assert calls[i..][1..] == calls[i + 1..];
      }
    }

    /** The assistant node of a usable completion, the follow-ups, and the tool runs if there are calls. */
    method Record(c: Completion, isLastCycle: bool, ghost l: Ledger)
      requires At(l) && l.phase == Answered(c) && isLastCycle == (l.turns + 1 == config.maxCycles)
      modifies this
      ensures At(Recorded(l, c))
    {
      hide Follows, Seen;
      Do(WriteAssistant(Content(c), c.calls), l);
      ghost var now := Note(l, WriteAssistant(Content(c), c.calls));
      WriteFollowups(c.followups, now, c.calls);
      if c.calls != [] {
        RunTools(c.calls, isLastCycle, now.(phase := Pending([], c.calls, false)));
      }
    }

    /** What a usable completion leads to: tools to run, or a reply to keep for the end. */
    method Complete(c: Completion, isLastCycle: bool, text: string, silent: bool, ghost l: Ledger)
      returns (finalText: string, noReply: bool, stop: bool)
      requires At(l) && l.phase == Answered(c) && isLastCycle == (l.turns + 1 == config.maxCycles)
      requires text == FinalText(l.replies) && silent == SaidNoReply(l.replies)
      modifies this
      ensures At(Completed(world, l, c)) && stop == Completed(world, l, c).phase.Finishing?
      ensures finalText == FinalText(Completed(world, l, c).replies)
      ensures noReply == SaidNoReply(Completed(world, l, c).replies)
    {
      hide At, FinalText, SaidNoReply, IsNoReply;
      finalText, noReply, stop := text, silent, false;
      Record(c, isLastCycle, l);
      if c.calls == [] {
        OneMoreReply(l.replies, c.text);
        if IsNoReply(c.text) {
          noReply := true;
          finalText := "";
        } else {
          finalText := c.text;
        }
        var wrote := DrainInbox(Recorded(l, c));
        stop := !wrote;
      }
    }

    /** The turn: whatever happens around it, it takes the steps that are due until none is. */
    method Run()
      requires At(START)
      modifies this
      ensures IsTurn(config, world, steps)
    {
      hide At, IsTurn, FinalText, SaidNoReply, IsBlank, LlmError;
      ghost var l := START;
      var maxCycles, maxEmpty := config.maxCycles, config.maxEmptyRetries;
      var emptyRetries, cycle, asked := 0, 0, 0;
      var finalText, streamingActive, noReply := "", false, false;
      NoReplyYet();
      while cycle < maxCycles
        invariant At(l) && cycle == l.turns && asked == l.inferences && emptyRetries == l.blanks
        invariant if emptyRetries == 0 then l.phase.Top?
                  else l.phase.Blank? && emptyRetries <= maxEmpty && cycle < maxCycles
        invariant finalText == FinalText(l.replies) && noReply == SaidNoReply(l.replies)
        invariant streamingActive == l.streamed
        decreases maxCycles - cycle, maxEmpty - emptyRetries
      {
        if world.aborted(asked) {
          GiveUp(ABORTED, l);
          return;
        }
        var c := Ask(asked, l);
        l := Asked(world, l);
        asked := asked + 1;
        streamingActive := streamingActive || c.streamed;
        if c.error.Some? {
          GiveUp(LlmError(c.error.value), l);
          return;
        }
        if IsBlank(c) {
          if emptyRetries < maxEmpty {
            emptyRetries := emptyRetries + 1;
            continue;
          }
          GiveUp(NO_OUTPUT, l);
          return;
        }
        emptyRetries := 0;
        var stop;
        finalText, noReply, stop := Complete(c, cycle == maxCycles - 1, finalText, noReply, l);
        l := Completed(world, l, c);
        if stop {
          break;
        }
        cycle := cycle + 1;
      }
      End(if streamingActive then "" else finalText, noReply, l);
    }

    /** The inbox is read right before the inference, so that the model sees what peers delivered. */
    method Ask(asked: nat, ghost l: Ledger) returns (c: Completion)
      requires At(l) && asked == l.inferences && Due(config, world, l) == Some(Drain(world.inbox(l.drains)))
      requires !l.phase.Replied?
      modifies this
      ensures At(Asked(world, l)) && c == world.model(asked)
    {
      hide At;
      var _ := DrainInbox(l);
      c := world.model(asked);
      Do(Infer(c), Note(l, Drain(world.inbox(l.drains))));
    }

    method End(text: string, suppressed: bool, ghost l: Ledger)
      requires At(l) && Due(config, world, l) == Some(Finish(text, suppressed))
      modifies this
      ensures IsTurn(config, world, steps)
    {
      Do(Finish(text, suppressed), l);
    }

    /** `_record_error_introspection`, then the error event. */
    method GiveUp(message: string, ghost l: Ledger)
      requires At(l) && Due(config, world, l) == Some(EndInError(config, message))
      modifies this
      ensures IsTurn(config, world, steps)
    {
      hide Follows, Seen;
      ghost var now := l;
      if config.errorIntrospection {
        Do(WriteErrorNote(message), now);
        now := Note(now, WriteErrorNote(message));
      }
      Do(Fail(message), now);
    }
  }

  /** A usable completion is on record, with everything that follows from it but the last look into the inbox. */
  ghost function Recorded(l: Ledger, c: Completion): Ledger {
    l.(turns := l.turns + 1, blanks := 0,
       replies := if c.calls == [] then l.replies + [c.text] else l.replies,
       results := l.results + |c.calls|,
       phase := if c.calls == [] then Replied else Top)
  }

  /** The inbox was read and the model asked. */
  ghost function Asked(world: World, l: Ledger): Ledger {
    Note(Note(l, Drain(world.inbox(l.drains))), Infer(world.model(l.inferences)))
  }

  /** With the last look into the inbox, if there was a reply. */
  ghost function Completed(world: World, l: Ledger, c: Completion): Ledger {
    var r := Recorded(l, c);
    if c.calls == [] then Note(r, Drain(world.inbox(r.drains))) else r
  }
}
