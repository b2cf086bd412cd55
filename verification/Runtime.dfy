/** The objects of TinyCTX/runtime.py and the node writes of the agent cycle, each method proved
    to take exactly the protocol step it stands for. */
module Runtime {
  import opened Outcomes
  import opened ConversationTree
  import opened SessionState
  import opened ConversationDb
  import F = Forks
  import G = ForkGuarantees

  class Run {
    const id: F.RunId
    const session: F.Session
    const root: NodeId
    var status: F.Status
    var inbox: seq<F.Exogenous>
    /** `cycle.context.tail_node_id`; the root until the cycle has written something. */
    var tail: NodeId

    constructor (id: F.RunId, session: F.Session, root: NodeId)
      ensures this.id == id && Mirrors(F.NewRun(session, root))
    {
      this.id, this.session, this.root := id, session, root;
      status, inbox, tail := F.Running, [], root;
    }

    /** The object holds the current part of the run `value`. */
    ghost predicate Mirrors(value: F.Run)
      reads this
    {
      session == value.session && status == value.status && inbox == value.inbox
      && value.Started() && value.Root() == root && value.Tail() == tail
    }
  }

  class Runtime {
    const db: Database
    const slots: nat
    /** `_runs`, `_settled` and `_active`. */
    var runs: map<F.RunId, Run>
    var settled: map<F.Session, NodeId>
    var active: nat
    var nextRun: F.RunId

    /** Every run ever registered, as objects and as values. */
    ghost var handles: set<Run>
    ghost var log: map<F.RunId, F.Run>

    ghost predicate Valid()
      reads this, db, handles
    {
      db.Valid()
      && (forall r <- log :: r < nextRun)
      && (forall run <- handles :: run.id in log && run.Mirrors(log[run.id]))
      && (forall a <- handles, b <- handles :: a.id == b.id ==> a == b)
      && (forall r <- runs :: runs[r] in handles && runs[r].id == r)
    }

    ghost function Abs(): F.State
      reads this, db
    {
      F.State(db.nodes, log, runs.Keys, settled, active, slots)
    }

    constructor (db: Database, maxWorkers: nat)
      requires db.Valid()
      ensures Valid() && F.Initial(Abs()) && this.db == db && slots == maxWorkers && handles == {}
    {
      this.db, slots := db, maxWorkers;
      runs, settled, active, nextRun := map[], map[], 0, 0;
      handles, log := {}, map[];
    }

    /** The entries of the message's environment that the state at its tail lacks. */
    method ComputeStateDelta(tail: NodeId, env: Delta) returns (delta: Delta)
      requires db.Valid() && CHECKPOINT !in env
      ensures delta == StateDelta(db.nodes, tail, env)
    {
      var prior, _ := db.LoadSessionState(tail);
      delta := map key | key in env && Get(prior, key) != Some(env[key]) :: env[key];
    }

    method Register(session: F.Session, root: NodeId) returns (run: Run)
      requires Valid()
      modifies this`runs, this`nextRun, this`handles, this`log
      ensures Valid() && fresh(run) && run.id == old(nextRun) && handles == old(handles) + {run}
      ensures log == old(log)[old(nextRun) := F.NewRun(session, root)]
      ensures runs == old(runs)[old(nextRun) := run]
    {
      run := new Run(nextRun, session, root);
      runs := runs[nextRun := run];
      handles, log := handles + {run}, log[nextRun := F.NewRun(session, root)];
      nextRun := nextRun + 1;
    }

    /** `push`: the node that was stored, or the database's refusal, and the run it started. */
    method Push(session: F.Session, tail: NodeId, env: Delta, trigger: bool)
      returns (node: Result<NodeId, DbError>, run: Run?)
      requires Valid() && CHECKPOINT !in env
      modifies this`runs, this`settled, this`nextRun, this`handles, this`log, db
      ensures Valid()
      ensures Abs() == F.Push(old(Abs()), session, tail, StateDelta(old(db.nodes), tail, env), trigger,
                              old(db.next), old(nextRun))
      ensures node.Ok? <==> F.AttachPoint(old(Abs()), session, tail) in old(db.nodes)
      ensures node.Ok? ==> node.value == old(db.next)
      ensures node.Ok? ==>
                settled == old(settled)[session := if !trigger then node.value
                                                   else if session in old(settled) then old(settled)[session]
                                                   else tail]
      ensures node.Ok? ==>
                forall key <- env ::
                  Read(db.nodes, node.value, key) == Some(env[key])
                  <==> (Read(old(db.nodes), tail, key) == Some(env[key]) ==>
                          Read(old(db.nodes), if session in old(settled) then old(settled)[session] else tail, key)
                          == Some(env[key]))
      ensures run != null <==> node.Ok? && trigger
      ensures run != null ==> run.id == old(nextRun) && run in handles
    {
      var delta := ComputeStateDelta(tail, env);
      ghost var s := Abs();
      node, run := Attach(session, tail, delta, trigger);
      hide Read, StateDelta;
      forall key | key in env && node.Ok?
        ensures Read(db.nodes, node.value, key) == Some(env[key])
            <==> (Read(s.tree, tail, key) == Some(env[key]) ==>
                    Read(s.tree, if session in s.settled then s.settled[session] else tail, key) == Some(env[key]))
      {
        G.MessageReadsItsEnvironmentIff(s, session, tail, env, trigger, node.value, old(nextRun), key);
      }
    }

    /** `self._settled.setdefault`. */
    method SetDefault(session: F.Session, tail: NodeId) returns (attach: NodeId)
      requires Valid()
      modifies this`settled
      ensures Valid() && attach == F.AttachPoint(old(Abs()), session, tail)
      ensures settled == old(settled)[session := attach]
    {
      if session !in settled {
        settled := settled[session := tail];
      }
      attach := settled[session];
    }

    method Settle(session: F.Session, node: NodeId)
      requires Valid()
      modifies this`settled
      ensures Valid() && settled == old(settled)[session := node]
    {
      settled := settled[session := node];
    }

    method InsertNode(parent: NodeId, delta: Delta) returns (node: Result<NodeId, DbError>)
      requires Valid()
      modifies db
      ensures Valid() && Fresh(old(db.nodes), old(db.next))
      ensures node.Ok? <==> parent in old(db.nodes)
      ensures node.Ok? ==>
                node.value == old(db.next) && db.next == node.value + 1
                && db.nodes == Insert(old(db.nodes), node.value, parent, delta)
      ensures node.Err? ==> db.nodes == old(db.nodes)
    {
      node := db.AddNode(parent, delta);
    }

    /** The body of `push` under the session lock. */
    method Attach(session: F.Session, tail: NodeId, delta: Delta, trigger: bool)
      returns (node: Result<NodeId, DbError>, run: Run?)
      requires Valid()
      modifies this`runs, this`settled, this`nextRun, this`handles, this`log, db
      ensures Valid()
      ensures Abs() == F.Push(old(Abs()), session, tail, delta, trigger, old(db.next), old(nextRun))
      ensures node.Ok? <==> F.AttachPoint(old(Abs()), session, tail) in old(db.nodes)
      ensures node.Ok? ==> node.value == old(db.next)
      ensures run != null <==> node.Ok? && trigger
      ensures run != null ==> run.id == old(nextRun) && run in handles
    {
      hide Insert, Fresh, F.AttachPoint, Valid;
      run := null;
      var attach := SetDefault(session, tail);
      node := InsertNode(attach, delta);
      if node.Err? {
        return;
      }
      if !trigger {
        Settle(session, node.value);
        return;
      }
      run := Register(session, node.value);
    }

    /** `start_run`; the session is the parent's when there is one. */
    method StartRun(session: F.Session, from: NodeId, parent: Run?) returns (run: Result<Run, DbError>)
      requires Valid()
      modifies this`runs, this`nextRun, this`handles, this`log, db
      ensures Valid()
      ensures Abs() == F.StartRun(old(Abs()), if parent == null then session else parent.session, from,
                                  old(db.next), old(nextRun))
      ensures run.Ok? <==> from in old(db.nodes)
      ensures run.Ok? ==> run.value.id == old(nextRun) && run.value in handles
    {
      var key := if parent == null then session else parent.session;
      hide Valid, Insert, Fresh;
      var node := InsertNode(from, map[]);
      if node.Err? {
        return Err(node.error);
      }
      var started := Register(key, node.value);
      run := Ok(started);
      assert runs.Keys == old(runs.Keys) + {old(nextRun)};
    }

    /** `_process` gets a worker slot. */
    method Admit(run: Run)
      requires Valid() && run in handles && F.Enabled(Abs(), F.Admitted(run.id))
      modifies this`active, this`log
      ensures Valid() && Abs() == F.Next(old(Abs()), F.Admitted(run.id))
    {
      active := active + 1;
      log := log[run.id := log[run.id].(phase := F.Executing)];
    }

    /** `Context.add` in the run's cycle. */
    method CycleAdd(run: Run) returns (node: NodeId)
      requires Valid() && run in handles && F.IsExecuting(Abs(), run.id)
      modifies this`log, run`tail, db
      ensures Valid() && node == old(db.next) && db.next == node + 1 && Abs() == F.Write(old(Abs()), run.id, node)
    {
      var added := db.AddNode(run.tail, map[]);
      node := added.value;
      run.tail := node;
      log := log[run.id := log[run.id].(path := log[run.id].path + [node])];
    }

    /** `_drain_inbox`: every entry becomes a node under the current tail, oldest first. */
    method DrainInbox(run: Run) returns (wrote: bool)
      requires Valid() && run in handles && F.IsExecuting(Abs(), run.id)
      modifies this`log, run`tail, run`inbox, db
      ensures Valid() && run.inbox == []
      ensures Abs() == Drained(old(Abs()), run.id, old(db.next))
      ensures wrote <==> old(run.inbox) != []
    {
      hide Valid, Drained;
      wrote := false;
      while run.inbox != []
        invariant Valid() && F.IsExecuting(Abs(), run.id)
        invariant Drained(old(Abs()), run.id, old(db.next)) == Drained(Abs(), run.id, db.next)
        invariant if wrote then old(run.inbox) != [] else run.inbox == old(run.inbox)
        decreases |run.inbox|
      {
        DrainEntry(run);
        wrote := true;
      }
      NothingToDrain(run);
    }

    method DrainEntry(run: Run)
      requires Valid() && run in handles && F.IsExecuting(Abs(), run.id) && run.inbox != []
      modifies this`log, run`tail, run`inbox, db
      ensures Valid() && F.IsExecuting(Abs(), run.id) && |run.inbox| < |old(run.inbox)|
      ensures Drained(old(Abs()), run.id, old(db.next)) == Drained(Abs(), run.id, db.next)
    {
      hide Insert, Drained;
      DrainStep(Abs(), run.id, db.next);
      TakeEntry(run);
      var node := CycleAdd(run);
      assert Abs() == F.DrainOne(old(Abs()), run.id, node);
    }

    /** `inbox.get_nowait()`. */
    method TakeEntry(run: Run)
      requires Valid() && run in handles && run.inbox != []
      modifies this`log, run`inbox
      ensures Valid() && run.inbox == old(run.inbox)[1..]
      ensures log == old(log)[run.id := old(log[run.id]).(inbox := run.inbox)]
      ensures old(log[run.id]).inbox == old(run.inbox)
    {
      run.inbox := run.inbox[1..];
      log := log[run.id := log[run.id].(inbox := run.inbox)];
    }

    lemma NothingToDrain(run: Run)
      requires Valid() && run in handles && run.inbox == []
      ensures run.id in log && Drained(Abs(), run.id, db.next) == Abs()
    {}

    /** `nudge`. */
    method Nudge(target: F.RunId, from: Run) returns (accepted: bool)
      requires Valid() && from in handles
      modifies this`log, handles`inbox
      ensures Valid() && Abs() == F.NudgeRun(old(Abs()), target, from.id)
      ensures accepted <==> target in runs && runs[target].status == F.Running && runs[target].session == from.session
      ensures accepted ==> runs[target].inbox == old(runs[target].inbox) + [F.Nudge(from.id)]
      ensures forall run <- handles :: !accepted || run != runs[target] ==> run.inbox == old(run.inbox)
    {
      if target !in runs || runs[target].status != F.Running || runs[target].session != from.session {
        return false;
      }
      var peer := runs[target];
      Deliver(peer, F.Nudge(from.id));
      accepted := true;
    }

    /** The fan-out loop of `finish_run`: each running peer is given the digest once. */
    method FanOut(run: Run)
      requires Valid() && run in handles && run.id in log
      modifies this`log, handles`inbox
      ensures Valid() && log.Keys == old(log.Keys)
      ensures forall r <- log ::
                log[r] == if F.IsPeer(old(Abs()), run.id, r) then old(log[r]).Receive(F.Digest(run.id)) else old(log[r])
    {
      hide Valid;
      ghost var s := Abs();
      var todo := runs.Keys;
      while todo != {}
        invariant todo <= runs.Keys && Valid() && log.Keys == s.runs.Keys
        invariant forall r <- log ::
                    log[r] == if F.IsPeer(s, run.id, r) && r !in todo then s.runs[r].Receive(F.Digest(run.id))
                              else s.runs[r]
        decreases todo
      {
        var id :| id in todo;
        todo := todo - {id};
        TellIfPeer(id, run);
      }
    }

    method TellIfPeer(id: F.RunId, run: Run)
      requires Valid() && id in runs && run in handles && run.id in log
      modifies this`log, handles`inbox
      ensures Valid()
      ensures log == if F.IsPeer(old(Abs()), run.id, id) then old(log)[id := old(log[id]).Receive(F.Digest(run.id))]
                     else old(log)
    {
      var peer := runs[id];
      if peer.id != run.id && peer.session == run.session && peer.status == F.Running {
        Deliver(peer, F.Digest(run.id));
      }
    }

    method Deliver(peer: Run, x: F.Exogenous)
      requires Valid() && peer in handles
      modifies this`log, peer`inbox
      ensures Valid() && log == old(log)[peer.id := old(log[peer.id]).Receive(x)]
    {
      peer.inbox := peer.inbox + [x];
      log := log[peer.id := log[peer.id].Receive(x)];
    }

    method Pop(run: Run)
      requires Valid()
      modifies this`runs
      ensures Valid() && runs.Keys == old(runs.Keys) - {run.id}
    {
      runs := map r | r in runs && r != run.id :: runs[r];
    }

    method SetEnding(run: Run, status: F.Status, head: NodeId)
      requires Valid() && run in handles
      modifies this`settled, this`log, run`status
      ensures Valid() && settled == old(settled)[run.session := head] && run.status == status
      ensures log == old(log)[run.id := old(log[run.id]).(status := status, head := Some(head))]
    {
      run.status := status;
      settled := settled[run.session := head];
      log := log[run.id := log[run.id].(status := status, head := Some(head))];
    }

    /** `finish_run`. */
    method FinishRun(run: Run, head: NodeId)
      requires Valid() && run in handles && F.Enabled(Abs(), F.Finished(run.id, head))
      modifies this`runs, this`settled, this`log, run`status, handles`inbox
      ensures Valid() && Abs() == F.Finish(old(Abs()), run.id, head)
      ensures run.id !in runs && run.status == F.Done && settled == old(settled)[run.session := head]
    {
      ghost var s := Abs();
      SetEnding(run, F.Done, head);
      ghost var s1 := Abs();
      FanOut(run);
      FinishedInSteps(s, s1, log, run.id, head);
      Pop(run);
    }

    method FreeSlot(run: Run)
      requires Valid() && run in handles && active > 0
      modifies this`runs, this`active, this`log
      ensures Valid() && runs.Keys == old(runs.Keys) - {run.id} && active == old(active) - 1
      ensures log == old(log)[run.id := old(log[run.id]).(phase := F.Left)]
    {
      active := active - 1;
      log := log[run.id := log[run.id].(phase := F.Left)];
      Pop(run);
    }

    /** The `finally` of `_process`.  A run that did not finish is released where it got to, under
        one of two statuses; `finish_run` is the last thing a cycle does, so only a running one
        crashes. */
    method EndProcess(run: Run, crashed: bool, aborted: bool)
      requires Valid() && run in handles && active > 0 && run.status in {F.Running, F.Done}
      requires crashed ==> run.status == F.Running
      modifies this`runs, this`settled, this`active, this`log, run`status
      ensures Valid()
      ensures old(run.status) == F.Done ==> Abs() == F.Leave(old(Abs()), run.id)
      ensures old(run.status) == F.Running ==>
                Abs() == F.Release(old(Abs()), run.id, if crashed || !aborted then F.Failed else F.Aborted)
      ensures run.id !in runs && active == old(active) - 1
      ensures settled == if old(run.status) == F.Running then old(settled)[run.session := run.tail] else old(settled)
    {
      if run.status == F.Running {
        SetEnding(run, if crashed || !aborted then F.Failed else F.Aborted, run.tail);
      }
      FreeSlot(run);
    }
  }

  /** Status and settled node first, then the fan-out: the outcome of the whole step. */
  lemma FinishedInSteps(s: F.State, s1: F.State, log: map<F.RunId, F.Run>, r: F.RunId, head: NodeId)
    requires r in s.runs && s1.live == s.live
    requires s1.runs == s.runs[r := s.runs[r].(status := F.Done, head := Some(head))]
    requires log.Keys == s.runs.Keys
    requires forall p <- log :: log[p] == if F.IsPeer(s1, r, p) then s1.runs[p].Receive(F.Digest(r)) else s1.runs[p]
    ensures log == F.Finish(s, r, head).runs
  {
    forall p | p in s.runs
      ensures F.IsPeer(s1, r, p) == F.IsPeer(s, r, p)
    {}
  }

  lemma DrainStep(s: F.State, r: F.RunId, next: NodeId)
    requires F.Enabled(s, F.Drained(r, next))
    ensures F.IsExecuting(F.DrainOne(s, r, next), r)
    ensures Drained(s, r, next) == Drained(F.DrainOne(s, r, next), r, next + 1)
  {}

  /** The whole drain loop as protocol steps. */
  ghost function Drained(s: F.State, r: F.RunId, next: NodeId): F.State
    requires r in s.runs
    decreases |s.runs[r].inbox|
  {
    if s.runs[r].inbox == [] || !F.Enabled(s, F.Drained(r, next)) then s
    else Drained(F.DrainOne(s, r, next), r, next + 1)
  }
}
