/** The concurrent-forks protocol of TinyCTX/runtime.py as a state machine.  Each critical
    section of the program is one step, because no session-lock body awaits anything. */
module Forks {
  import opened Outcomes
  import opened ConversationTree
  import opened SessionState

  type RunId = nat
  type Session = string

  datatype Status = Running | Done | Failed | Aborted

  /** What is put into a run's inbox: the digest of a finished run, or a nudge from a run. */
  datatype Exogenous = Digest(from: RunId) | Nudge(from: RunId)

  /** Waiting for a worker slot, holding one, or past the end of `_process`. */
  datatype Phase = Waiting | Executing | Left

  /** One run.  `path` lists the run's root and then every node its cycle wrote; `given` lists
      everything ever put into its inbox; `head` is where the session went when it ended. */
  datatype Run = Run(
    session: Session,
    path: seq<NodeId>,
    status: Status,
    phase: Phase,
    inbox: seq<Exogenous>,
    given: seq<Exogenous>,
    head: Option<NodeId>)
  {
    predicate Started() { path != [] }

    function Root(): NodeId
      requires Started()
    {
      path[0]
    }

    function Tail(): NodeId
      requires Started()
    {
      path[|path| - 1]
    }

    function Receive(x: Exogenous): Run {
      this.(inbox := inbox + [x], given := given + [x])
    }
  }

  /** `runs` holds every run ever registered, `live` the keys of `_runs`. */
  datatype State = State(
    tree: Tree,
    runs: map<RunId, Run>,
    live: set<RunId>,
    settled: map<Session, NodeId>,
    active: nat,
    slots: nat)

  // ----- Steps -----

  function NewRun(k: Session, root: NodeId): Run {
    Run(k, [root], Running, Waiting, [], [], None)
  }

  /** Where a message of session `k` attaches; its own tail counts only for a new session. */
  function AttachPoint(s: State, k: Session, tail: NodeId): NodeId {
    if k in s.settled then s.settled[k] else tail
  }

  /** `push`: the attach point is recorded before the insert, which fails on a missing parent. */
  function Push(s: State, k: Session, tail: NodeId, delta: Delta, trigger: bool, n: NodeId, r: RunId): State
    requires Fresh(s.tree, n)
  {
    var attach := AttachPoint(s, k, tail);
    var seeded := s.(settled := s.settled[k := attach]);
    if attach !in s.tree then
      seeded
    else if !trigger then
      seeded.(tree := Insert(s.tree, n, attach, delta), settled := seeded.settled[k := n])
    else
      seeded.(tree := Insert(s.tree, n, attach, delta), runs := s.runs[r := NewRun(k, n)], live := s.live + {r})
  }

  /** `start_run`: a new run on a fresh branch off `from`. */
  function StartRun(s: State, k: Session, from: NodeId, n: NodeId, r: RunId): State
    requires Fresh(s.tree, n)
  {
    if from !in s.tree then s
    else s.(tree := Insert(s.tree, n, from, map[]), runs := s.runs[r := NewRun(k, n)], live := s.live + {r})
  }

  function Admit(s: State, r: RunId): State
    requires r in s.runs
  {
    s.(runs := s.runs[r := s.runs[r].(phase := Executing)], active := s.active + 1)
  }

  /** The cycle adds a node at its tail. */
  function Write(s: State, r: RunId, n: NodeId): State
    requires r in s.runs && s.runs[r].Started() && s.runs[r].Tail() in s.tree && Fresh(s.tree, n)
  {
    s.(tree := Insert(s.tree, n, s.runs[r].Tail(), map[]),
       runs := s.runs[r := s.runs[r].(path := s.runs[r].path + [n])])
  }

  /** One turn of the drain loop: the oldest inbox entry becomes a node. */
  function DrainOne(s: State, r: RunId, n: NodeId): State
    requires r in s.runs && s.runs[r].Started() && s.runs[r].Tail() in s.tree && Fresh(s.tree, n)
    requires s.runs[r].inbox != []
  {
    var s1 := Write(s, r, n);
    s1.(runs := s1.runs[r := s1.runs[r].(inbox := s1.runs[r].inbox[1..])])
  }

  /** `peer` is told when `r` finishes. */
  predicate IsPeer(s: State, r: RunId, peer: RunId)
    requires r in s.runs
  {
    peer in s.live && peer in s.runs && peer != r
    && s.runs[peer].session == s.runs[r].session && s.runs[peer].status == Running
  }

  /** `finish_run`. */
  function Finish(s: State, r: RunId, head: NodeId): State
    requires r in s.runs
  {
    s.(settled := s.settled[s.runs[r].session := head],
       live := s.live - {r},
       runs := map p | p in s.runs ::
                 if p == r then s.runs[p].(status := Done, head := Some(head))
                 else if IsPeer(s, r, p) then s.runs[p].Receive(Digest(r))
                 else s.runs[p])
  }

  /** The end of `_process` after `finish_run`. */
  function Leave(s: State, r: RunId): State
    requires r in s.runs && s.active > 0
  {
    s.(runs := s.runs[r := s.runs[r].(phase := Left)], live := s.live - {r}, active := s.active - 1)
  }

  /** The end of `_process` without `finish_run`: `_abandon_run` moves the session to the
      last node the run wrote, and nobody is told. */
  function Release(s: State, r: RunId, status: Status): State
    requires r in s.runs && s.runs[r].Started() && s.active > 0
  {
    var run := s.runs[r];
    s.(settled := s.settled[run.session := run.Tail()],
       live := s.live - {r},
       active := s.active - 1,
       runs := s.runs[r := run.(status := status, phase := Left, head := Some(run.Tail()))])
  }

  predicate NudgeAccepted(s: State, target: RunId, from: RunId)
    requires from in s.runs
  {
    target in s.live && target in s.runs && s.runs[target].status == Running
    && s.runs[target].session == s.runs[from].session
  }

  function NudgeRun(s: State, target: RunId, from: RunId): State
    requires from in s.runs
  {
    if NudgeAccepted(s, target, from)
    then s.(runs := s.runs[target := s.runs[target].Receive(Nudge(from))])
    else s
  }

  /** A node stored outside any run: a session anchor, or a record of a command. */
  function InsertOutside(s: State, parent: NodeId, n: NodeId, delta: Delta): State
    requires Fresh(s.tree, n)
  {
    if parent in s.tree then s.(tree := Insert(s.tree, n, parent, delta)) else s
  }

  /** `set_state` and checkpoints rewrite the delta of a node. */
  function Amend(s: State, at: NodeId, delta: Delta): State {
    if at in s.tree then s.(tree := WithDelta(s.tree, at, delta)) else s
  }

  datatype Event =
    | Pushed(k: Session, tail: NodeId, delta: Delta, trigger: bool, n: NodeId, r: RunId)
    | Spawned(parent: RunId, n: NodeId, r: RunId)
    | Admitted(r: RunId)
    | Wrote(r: RunId, n: NodeId)
    | Drained(r: RunId, n: NodeId)
    | Finished(r: RunId, head: NodeId)
    | LeftAfterFinish(r: RunId)
    | Released(r: RunId, status: Status)
    | Nudged(target: RunId, from: RunId)
    | Inserted(parent: NodeId, n: NodeId, delta: Delta)
    | Amended(at: NodeId, delta: Delta)

  predicate IsExecuting(s: State, r: RunId) {
    r in s.runs && s.runs[r].status == Running && s.runs[r].phase == Executing
    && s.runs[r].Started() && s.runs[r].Tail() in s.tree
  }

  /** When the program can take the step.  New node and run ids have never been used, a fork is
      spawned by a running cycle off its own tail, and the head a run finishes with is a node
      it wrote. */
  predicate Enabled(s: State, e: Event) {
    match e
    case Pushed(_, _, _, _, n, r) => Fresh(s.tree, n) && r !in s.runs
    case Spawned(parent, n, r) => IsExecuting(s, parent) && Fresh(s.tree, n) && r !in s.runs
    case Admitted(r) => r in s.runs && s.runs[r].phase == Waiting && s.active < s.slots
    case Wrote(r, n) => IsExecuting(s, r) && Fresh(s.tree, n)
    case Drained(r, n) => IsExecuting(s, r) && Fresh(s.tree, n) && s.runs[r].inbox != []
    case Finished(r, head) => IsExecuting(s, r) && head in s.runs[r].path
    case LeftAfterFinish(r) => r in s.runs && s.runs[r].status == Done && s.runs[r].phase == Executing && s.active > 0
    case Released(r, status) => IsExecuting(s, r) && status in {Failed, Aborted} && s.active > 0
    case Nudged(_, from) => IsExecuting(s, from)
    case Inserted(_, n, _) => Fresh(s.tree, n)
    case Amended(_, _) => true
  }

  function Next(s: State, e: Event): State
    requires Enabled(s, e)
  {
    match e
    case Pushed(k, tail, delta, trigger, n, r) => Push(s, k, tail, delta, trigger, n, r)
    case Spawned(parent, n, r) => StartRun(s, s.runs[parent].session, s.runs[parent].Tail(), n, r)
    case Admitted(r) => Admit(s, r)
    case Wrote(r, n) => Write(s, r, n)
    case Drained(r, n) => DrainOne(s, r, n)
    case Finished(r, head) => Finish(s, r, head)
    case LeftAfterFinish(r) => Leave(s, r)
    case Released(r, status) => Release(s, r, status)
    case Nudged(target, from) => NudgeRun(s, target, from)
    case Inserted(parent, n, delta) => InsertOutside(s, parent, n, delta)
    case Amended(at, delta) => Amend(s, at, delta)
  }

  /** A fresh process over any existing database. */
  predicate Initial(s: State) {
    s.runs == map[] && s.live == {} && s.settled == map[] && s.active == 0
  }

  predicate Steps(s: State, e: Event, s': State) {
    Enabled(s, e) && s' == Next(s, e)
  }

  ghost predicate Behaviour(ss: seq<State>, es: seq<Event>) {
    |ss| == |es| + 1 && Initial(ss[0])
    && forall i | 0 <= i < |es| :: Steps(ss[i], es[i], ss[i + 1])
  }

  // ----- What every step keeps -----

  /** Whoever reads the conversation at `n` knows of finished run `f`: its head is on the chain,
      or the chain passes through the root of a run that was given its digest. */
  ghost predicate Covers(s: State, n: NodeId, f: RunId)
    requires f in s.runs
  {
    (s.runs[f].head.Some? && Above(s.tree, s.runs[f].head.value, n))
    || exists r :: r in s.runs && s.runs[r].Started() && Digest(f) in s.runs[r].given
                   && Above(s.tree, s.runs[r].Root(), n)
  }

  /** Each node of the path is the parent of the next. */
  predicate IsPath(t: Tree, path: seq<NodeId>) {
    path != [] && (forall n :: n in path ==> n in t)
    && forall i | 0 < i < |path| :: t[path[i]].parent == Some(path[i - 1])
  }

  predicate RunOk(s: State, r: RunId, run: Run) {
    IsPath(s.tree, run.path)
    && (r in s.live <==> run.status == Running)
    && (run.status == Running ==> run.phase != Left && run.head == None)
    && (run.status == Done ==> run.phase != Waiting)
    && (run.status in {Failed, Aborted} ==> run.phase == Left)
    && (run.status != Running ==> run.head.Some? && run.head.value in run.path && run.session in s.settled)
    && InboxOk(run)
  }

  /** The inbox is what the run was given and has not drained yet. */
  predicate InboxOk(run: Run) {
    |run.inbox| <= |run.given| && run.inbox == run.given[|run.given| - |run.inbox|..]
  }

  predicate RunsOk(s: State) {
    s.live <= s.runs.Keys && forall r <- s.runs :: RunOk(s, r, s.runs[r])
  }

  predicate PathsDisjoint(s: State) {
    forall r, p | r in s.runs && p in s.runs && r != p :: forall n :: n in s.runs[r].path ==> n !in s.runs[p].path
  }

  /** Whatever a run is given comes from its own session; a digest, from another, finished run. */
  predicate LetterOk(s: State, r: RunId, x: Exogenous)
    requires r in s.runs
  {
    x.from in s.runs && s.runs[x.from].session == s.runs[r].session
    && (x.Digest? ==> x.from != r && s.runs[x.from].status == Done)
  }

  predicate PostOk(s: State) {
    forall r, i | r in s.runs && 0 <= i < |s.runs[r].given| :: LetterOk(s, r, s.runs[r].given[i])
  }

  function ExecutingRuns(s: State): set<RunId> {
    set r | r in s.runs && s.runs[r].phase == Executing
  }

  predicate SlotsOk(s: State) {
    s.active == |ExecutingRuns(s)| && s.active <= s.slots
  }

  /** `n` covers every finished run of session `k`. */
  ghost predicate Informed(s: State, k: Session, n: NodeId) {
    forall f | f in s.runs && s.runs[f].status == Done && s.runs[f].session == k :: Covers(s, n, f)
  }

  /** Nobody misses a finished run: not the session, not a run that is still going. */
  ghost predicate NobodyMisses(s: State) {
    (forall f | f in s.runs && s.runs[f].status == Done :: s.runs[f].session in s.settled)
    && (forall k | k in s.settled :: Informed(s, k, s.settled[k]))
    && (forall r | r in s.runs && s.runs[r].status == Running ::
          s.runs[r].Started() && Informed(s, s.runs[r].session, s.runs[r].Root()))
  }

  ghost predicate Inv(s: State) {
    RunsOk(s) && PathsDisjoint(s) && PostOk(s) && SlotsOk(s) && NobodyMisses(s)
  }
}
