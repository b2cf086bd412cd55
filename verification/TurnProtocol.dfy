/** One turn of the agent (TinyCTX/agent.py) as a sequence of steps: which step comes next is a
    function of what the turn has done so far and of what the model, the tools, the inbox and the
    abort flag answer. */
module TurnProtocol {
  import opened Outcomes
  import opened PythonText
  import opened Sequences
  import H = History

  type ToolCall = H.ToolCall

  const NO_REPLY := "NO_REPLY"
  const ABORTED := "[aborted]"
  const NO_OUTPUT := "[no output from model]"
  const TOOL_LIMIT := "[Tool Limit Reached] Summarize now."

  function LlmError(error: string): string {
    "[LLM error: " + error + "]"
  }

  /** One inference; `streamed` if any text chunk was passed on while it ran. */
  datatype Completion = Completion(text: string, thinking: string, calls: seq<ToolCall>, error: Option<string>,
                                   streamed: bool, followups: seq<string>)

  /** The n-th answer of each kind: whether the flag is up before the n-th inference, what the n-th look
      into the inbox finds, the n-th completion and the n-th tool output. */
  datatype World = World(aborted: nat -> bool, inbox: nat -> seq<string>, model: nat -> Completion, tool: nat -> string)

  datatype Config = Config(maxCycles: int, maxEmptyRetries: int, errorIntrospection: bool)

  datatype Step =
    | Drain(messages: seq<string>)
    | Infer(completion: Completion)
    | WriteAssistant(content: string, calls: seq<ToolCall>)
    | WriteUser(content: string)
    | WriteResult(callId: string, output: string)
    | WriteErrorNote(message: string)
    | Fail(message: string)
    | Finish(text: string, suppressed: bool)

  predicate IsBlank(c: Completion) {
    c.calls == [] && Strip(c.text) == ""
  }

  /** The text, with the reasoning that led to it in front. */
  function Content(c: Completion): (content: string)
    ensures |content| >= |c.text| && content[|content| - |c.text|..] == c.text
    ensures content[..|content| - |c.text|] == if c.thinking == "" then "" else "<think>" + c.thinking + "</think>"
  {
    if c.thinking != "" then "<think>" + c.thinking + "</think>" + c.text else c.text
  }

  predicate IsNoReply(text: string) {
    Strip(text) == NO_REPLY
  }

  /** The last reply, or nothing if it was the token for saying nothing. */
  function FinalText(replies: seq<string>): string {
    if replies == [] || IsNoReply(Last(replies)) then "" else Last(replies)
  }

  predicate SaidNoReply(replies: seq<string>) {
    exists i :: 0 <= i < |replies| && IsNoReply(replies[i])
  }

  lemma NoReplyYet()
    ensures FinalText([]) == "" && !SaidNoReply([])
  {}

  lemma OneMoreReply(replies: seq<string>, reply: string)
    ensures FinalText(replies + [reply]) == if IsNoReply(reply) then "" else reply
    ensures SaidNoReply(replies + [reply]) <==> SaidNoReply(replies) || IsNoReply(reply)
  {
    hide IsNoReply;
    var all := replies + [reply];
    assert all[|replies|] == reply && forall i | 0 <= i < |replies| :: all[i] == replies[i];
  }

  // ----- What a turn has done so far -----

  /** Where the turn stands: at the top of the loop; after the drain; with a usable or a blank completion;
      writing what follows an assistant node; with a reply that is to be confirmed; about to end. */
  datatype Phase =
    | Top
    | Drained
    | Blank
    | Answered(completion: Completion)
    | Writing(users: seq<string>, calls: seq<ToolCall>, isReply: bool)
    | Replied
    | Finishing
    | Erring(message: string)
    | Noted(message: string)
    | Over

  /** The phase, how often each question was asked, how many assistant nodes were written, how many blank
      completions came since the last one, the replies offered, and whether any text was streamed. */
  datatype Ledger = Ledger(phase: Phase, inferences: nat, drains: nat, results: nat, turns: nat, blanks: nat,
                           replies: seq<string>, streamed: bool)

  const START := Ledger(Top, 0, 0, 0, 0, 0, [], false)

  function Pending(users: seq<string>, calls: seq<ToolCall>, isReply: bool): Phase {
    if users != [] || calls != [] then Writing(users, calls, isReply)
    else if isReply then Replied
    else Top
  }

  function Note(l: Ledger, step: Step): Ledger {
    match step
    case Drain(messages) =>
      l.(drains := l.drains + 1,
         phase := if !l.phase.Replied? then Drained else if messages == [] then Finishing else Top)
    case Infer(c) =>
      l.(inferences := l.inferences + 1, streamed := l.streamed || c.streamed,
         blanks := if c.error.None? && IsBlank(c) then l.blanks + 1 else l.blanks,
         phase := if c.error.Some? then Erring(LlmError(c.error.value)) else if IsBlank(c) then Blank else Answered(c))
    case WriteAssistant(_, _) =>
      if !l.phase.Answered? then l
      else
        var c := l.phase.completion;
        l.(turns := l.turns + 1, blanks := 0, phase := Pending(c.followups, c.calls, c.calls == []),
           replies := if c.calls == [] then l.replies + [c.text] else l.replies)
    case WriteUser(_) =>
      if l.phase.Writing? && l.phase.users != []
      then l.(phase := Pending(l.phase.users[1..], l.phase.calls, l.phase.isReply)) else l
    case WriteResult(_, _) =>
      if l.phase.Writing? && l.phase.calls != []
      then l.(results := l.results + 1, phase := Pending(l.phase.users, l.phase.calls[1..], l.phase.isReply)) else l
    case WriteErrorNote(message) => l.(phase := Noted(message))
    case Fail(_) => l.(phase := Over)
    case Finish(_, _) => l.(phase := Over)
  }

  function Seen(steps: seq<Step>): Ledger {
    if steps == [] then START else Note(Seen(Front(steps)), Last(steps))
  }

  // ----- What it does next -----

  function EndInError(config: Config, message: string): Step {
    if config.errorIntrospection then WriteErrorNote(message) else Fail(message)
  }

  function EndInReply(l: Ledger): Step {
    Finish(if l.streamed then "" else FinalText(l.replies), SaidNoReply(l.replies))
  }

  /** The loop guard, the abort check and the drain at the top of the loop. */
  function FromTop(config: Config, world: World, l: Ledger): Step {
    if l.turns >= config.maxCycles then EndInReply(l)
    else if world.aborted(l.inferences) then EndInError(config, ABORTED)
    else Drain(world.inbox(l.drains))
  }

  function Due(config: Config, world: World, l: Ledger): Option<Step> {
    match l.phase
    case Top => Some(FromTop(config, world, l))
    case Drained => Some(Infer(world.model(l.inferences)))
    case Blank =>
      Some(if l.blanks <= config.maxEmptyRetries then FromTop(config, world, l) else EndInError(config, NO_OUTPUT))
    case Answered(c) => Some(WriteAssistant(Content(c), c.calls))
    case Writing(users, calls, _) =>
      if users != [] then Some(WriteUser(users[0]))
      else if calls != [] then
        Some(WriteResult(calls[0].id, if l.turns == config.maxCycles then TOOL_LIMIT else world.tool(l.results)))
      else None
    case Replied => Some(Drain(world.inbox(l.drains)))
    case Finishing => Some(EndInReply(l))
    case Erring(message) => Some(EndInError(config, message))
    case Noted(message) => Some(Fail(message))
    case Over => None
  }

  ghost predicate WasDue(config: Config, world: World, steps: seq<Step>, i: nat)
    requires i < |steps|
  {
    Due(config, world, Seen(steps[..i])) == Some(steps[i])
  }

  /** Every step was the one that was due. */
  ghost predicate Follows(config: Config, world: World, steps: seq<Step>) {
    forall i | 0 <= i < |steps| :: WasDue(config, world, steps, i)
  }

  /** A turn from start to end. */
  ghost predicate IsTurn(config: Config, world: World, steps: seq<Step>) {
    Follows(config, world, steps) && Seen(steps).phase.Over?
  }

  lemma DueStepCounts(config: Config, world: World, l: Ledger, step: Step)
    requires Due(config, world, l) == Some(step)
    ensures Note(l, step).drains == if step.Drain? then l.drains + 1 else l.drains
    ensures Note(l, step).results == if step.WriteResult? then l.results + 1 else l.results
  {}

  lemma SeenNext(steps: seq<Step>, i: nat)
    requires i < |steps|
    ensures Seen(steps[..i + 1]) == Note(Seen(steps[..i]), steps[i])
  {
    assert Front(steps[..i + 1]) == steps[..i];
  }

  lemma DueAt(config: Config, world: World, steps: seq<Step>, i: nat)
    requires Follows(config, world, steps) && i < |steps|
    ensures Due(config, world, Seen(steps[..i])) == Some(steps[i])
    ensures Seen(steps[..i + 1]) == Note(Seen(steps[..i]), steps[i])
  {
    hide Due, Note, Seen;
    assert WasDue(config, world, steps, i);
    SeenNext(steps, i);
  }

  lemma NothingSeenYet()
    ensures Seen([]) == START
  {}

  lemma SeenWith(steps: seq<Step>, step: Step)
    ensures Seen(steps + [step]) == Note(Seen(steps), step)
  {
    assert Front(steps + [step]) == steps;
  }

  lemma FollowsWith(config: Config, world: World, steps: seq<Step>, step: Step)
    requires Follows(config, world, steps) && Due(config, world, Seen(steps)) == Some(step)
    ensures Follows(config, world, steps + [step])
    ensures Seen(steps + [step]) == Note(Seen(steps), step)
  {
    SeenWith(steps, step);
    hide Due, Seen;
    var after := steps + [step];
    forall i | 0 <= i < |after|
      ensures WasDue(config, world, after, i)
    {
      assert after[..i] == steps[..i];
      assert if i < |steps| then WasDue(config, world, steps, i) else steps[..i] == steps;
    }
  }
}
