/** What the request queue guarantees over every interleaving of requesters and workers. */
module AdmissionProofs {
  import opened Admission

  // ----- Each step keeps the invariants -----

  lemma NextKeepsConserved(s: State, e: Event)
    requires Conserved(s) && Enabled(s, e)
    ensures Conserved(Next(s, e))
  {
    if e.Submit? || e.Park? {
      IdleStepKeepsConserved(s, e);
    } else if e.Admit? {
      AdmitKeepsConserved(s, e);
    } else if e.Finish? {
      FinishKeepsConserved(s, e);
    } else {
      DeliveryKeepsConserved(s, e);
    }
  }

  lemma IdleStepKeepsConserved(s: State, e: Event)
    requires Conserved(s) && Enabled(s, e) && (e.Submit? || e.Park?)
    ensures Conserved(Next(s, e))
  {
    hide CanWake;
  }

  lemma AdmitKeepsConserved(s: State, e: Event)
    requires Conserved(s) && Enabled(s, e) && e.Admit?
    ensures Conserved(Next(s, e))
  {}

  lemma FinishKeepsConserved(s: State, e: Event)
    requires Conserved(s) && Enabled(s, e) && e.Finish?
    ensures Conserved(Next(s, e))
  {
    hide HasMore;
  }

  lemma DeliveryKeepsConserved(s: State, e: Event)
    requires Conserved(s) && Enabled(s, e) && (e.Forward? || e.Receive? || e.Abandon?)
    ensures Conserved(Next(s, e))
  {
    hide HasMore;
  }

  /** Steps other than a submission leave every priority as it is. */
  lemma BeforeIsKept(s: State, e: Event, a: RequestId, b: RequestId)
    requires Enabled(s, e) && a < |s.requests| && b < |s.requests|
    ensures Before(Next(s, e), a, b) == Before(s, a, b)
  {
    hide CanWake, HasMore, IsLeast;
  }

  /** What still waits, or was admitted after the `i`-th admission. */
  predicate Later(s: State, i: nat, b: RequestId) {
    b < |s.requests| && (b in s.heap || exists j :: i < j < |s.admissions| && s.admissions[j].request == b)
  }

  lemma LaterComesAfter(s: State, e: Event, i: nat, b: RequestId)
    requires Conserved(s) && Ordered(s) && Enabled(s, e) && Conserved(Next(s, e))
    requires i < |Next(s, e).admissions| && Later(Next(s, e), i, b)
    ensures After(Next(s, e), Next(s, e).admissions[i], b)
  {
    var t := Next(s, e);
    if i == |s.admissions| {
      assert e.Admit? && b in t.heap && IsLeast(s, e.next);
      BeforeIsKept(s, e, e.next, b);
    } else if b < |s.requests| {
      assert Later(s, i, b);
      BeforeIsKept(s, e, t.admissions[i].request, b);
    }
  }

  lemma NextKeepsOrdered(s: State, e: Event)
    requires Conserved(s) && Ordered(s) && Enabled(s, e)
    ensures Conserved(Next(s, e)) && Ordered(Next(s, e))
  {
    NextKeepsConserved(s, e);
    var t := Next(s, e);
    forall i, j | 0 <= i < j < |t.admissions|
      ensures After(t, t.admissions[i], t.admissions[j].request)
    {
      LaterComesAfter(s, e, i, t.admissions[j].request);
    }
    forall i, b | 0 <= i < |t.admissions| && b in t.heap
      ensures After(t, t.admissions[i], b)
    {
      LaterComesAfter(s, e, i, b);
    }
  }

  lemma MoreReady(workers: seq<Worker>, w: nat)
    requires w < |workers| && !workers[w].Ready?
    ensures |ReadyOnes(workers[w := Ready])| == |ReadyOnes(workers)| + 1
  {
    assert ReadyOnes(workers[w := Ready]) == ReadyOnes(workers) + {w};
  }

  lemma FewerReady(workers: seq<Worker>, w: nat, state: Worker)
    requires w < |workers| && workers[w].Ready? && !state.Ready?
    ensures |ReadyOnes(workers)| == |ReadyOnes(workers[w := state])| + 1
  {
    assert ReadyOnes(workers) == ReadyOnes(workers[w := state]) + {w};
  }

  lemma NextKeepsAwake(s: State, e: Event)
    requires Conserved(s) && Awake(s) && Enabled(s, e)
    ensures Awake(Next(s, e))
  {
    hide HasMore, ReadyOnes;
    var t := Next(s, e);
    match e
    case Submit(_, _, w) =>
      if w < |s.workers| && s.workers[w].Parked? {
        MoreReady(s.workers, w);
      }
    case Park(w) =>
    case Admit(w, next) =>
      FewerReady(s.workers, w, Busy(next));
      assert |t.heap| == |s.heap| - 1;
    case Finish(a) =>
      MoreReady(s.workers, s.requests[a].stage.worker);
    case Forward(_) =>
    case Receive(_) =>
    case Abandon(_) =>
  }

  /** Only the request a step acts on makes progress, and it does so in order. */
  lemma NextKeepsProgress(s: State, e: Event)
    requires Conserved(s) && Enabled(s, e)
    requires forall a | 0 <= a < |s.requests| :: Progress(s.requests[a])
    ensures forall a | 0 <= a < |Next(s, e).requests| :: Progress(Next(s, e).requests[a])
  {
    hide CanWake, HasMore, Progress;
    match e
    case Submit(priority, work, _) =>
      NewRequestProgresses(priority, work);
    case Admit(_, a) =>
      AdmittedProgresses(s, e);
    case Forward(a) =>
      ForwardedProgresses(s.requests[a]);
    case Finish(a) =>
      ClosedProgresses(s.requests[a]);
    case Receive(a) =>
      TakenProgresses(s.requests[a]);
    case Abandon(a) =>
      AbandonedProgresses(s.requests[a]);
    case Park(_) =>
  }

  lemma NewRequestProgresses(priority: int, work: Work)
    ensures Progress(Request(priority, work, Waiting, [], [], Pending))
  {}

  lemma AdmittedProgresses(s: State, e: Event)
    requires e.Admit? && Conserved(s) && Enabled(s, e) && Progress(s.requests[e.next])
    ensures Progress(Next(s, e).requests[e.next])
  {
  }

  lemma ForwardedProgresses(r: Request)
    requires r.stage.Running? && HasMore(r) && Progress(r)
    ensures Progress(Forwarded(r))
  {
    var n := r.stage.forwarded;
    assert r.taken + Forwarded(r).out == (r.taken + r.out) + [Yield(r.work.events[n])];
    assert Handed(r.work, n + 1, false) == Handed(r.work, n, false) + [Yield(r.work.events[n])];
  }

  lemma ClosedProgresses(r: Request)
    requires r.stage.Running? && !HasMore(r) && Progress(r)
    ensures Progress(Closed(r))
  {
    if r.work.Stream? {
      assert r.taken + Closed(r).out == (r.taken + r.out) + [Last(r.work.end)];
      assert Handed(r.work, Total(r.work), true) == Handed(r.work, Total(r.work), false) + [Last(r.work.end)];
    }
  }

  lemma TakenProgresses(r: Request)
    requires r.caller.Pending? && r.out != [] && Progress(r)
    ensures Progress(Taken(r))
  {
    assert Taken(r).taken + Taken(r).out == r.taken + r.out;
    assert (r.taken + r.out)[|r.taken|] == r.out[0];
  }

  lemma AbandonedProgresses(r: Request)
    requires r.caller.Pending? && Progress(r)
    ensures Progress(r.(caller := Gone))
  {}

  lemma NextKeepsInv(s: State, e: Event)
    requires Inv(s) && Enabled(s, e)
    ensures Inv(Next(s, e))
  {
    NextKeepsOrdered(s, e);
    NextKeepsAwake(s, e);
    NextKeepsProgress(s, e);
  }

  // ----- Over every run -----

  lemma {:induction false} InvHolds(states: seq<State>, events: seq<Event>, i: nat)
    requires Behaviour(states, events) && i < |states|
    ensures Inv(states[i])
  {
    hide Inv, Initial, Enabled, Next;
    if i == 0 {
      InitialInv(states[0]);
    } else {
      InvHolds(states, events, i - 1);
      assert Steps(states[i - 1], events[i - 1], states[i]);
      NextKeepsInv(states[i - 1], events[i - 1]);
    }
  }

  lemma InitialInv(s: State)
    requires Initial(s)
    ensures Inv(s)
  {}

  /** A request that is once out of the heap stays out, with its place among the admissions. */
  lemma {:induction false} AdmissionIsFinal(states: seq<State>, events: seq<Event>, i: nat, j: nat)
    requires Behaviour(states, events) && i <= j < |states|
    ensures states[i].admissions <= states[j].admissions
    ensures |states[i].requests| <= |states[j].requests|
    ensures forall a | 0 <= a < |states[i].requests| ::
              states[j].requests[a].priority == states[i].requests[a].priority
              && states[j].requests[a].work == states[i].requests[a].work
              && (a in states[j].heap ==> a in states[i].heap)
  {
    if i < j {
      hide CanWake, HasMore, IsLeast;
      AdmissionIsFinal(states, events, i, j - 1);
      assert Steps(states[j - 1], events[j - 1], states[j]);
    }
  }

  /** While `x` waits in the heap, only requests with a smaller (priority, seq) pair are admitted. */
  lemma OnlySmallerOvertake(states: seq<State>, events: seq<Event>, i: nat, k: nat, j: nat, x: RequestId)
    requires Behaviour(states, events) && i <= k < j < |states|
    requires x in states[i].heap && x in states[j].heap && events[k].Admit?
    ensures events[k].next < |states[k].requests| && x < |states[k].requests|
    ensures var next, waiting := states[k].requests[events[k].next].priority, states[k].requests[x].priority;
            next < waiting || (next == waiting && events[k].next < x)
  {
    InvHolds(states, events, i);
    InvHolds(states, events, k);
    AdmissionIsFinal(states, events, i, k);
    AdmissionIsFinal(states, events, k + 1, j);
    assert Steps(states[k], events[k], states[k + 1]);
  }

  /** Requests of equal priority are admitted in the order they were made. */
  lemma EqualPriorityIsFifo(states: seq<State>, events: seq<Event>, i: nat, a: RequestId, b: RequestId)
    requires Behaviour(states, events) && i < |states| && a < b < |states[i].requests|
    requires states[i].requests[a].priority == states[i].requests[b].priority
    ensures !states[i].requests[b].stage.Waiting? ==> !states[i].requests[a].stage.Waiting?
    ensures !states[i].requests[b].stage.Waiting? ==> states[i].requests[a].stage.at < states[i].requests[b].stage.at
  {
    InvHolds(states, events, i);
    var s := states[i];
  }

  /** The admissions are exactly the requests that left the heap, each once. */
  lemma AdmittedExactlyOnce(states: seq<State>, events: seq<Event>, i: nat, a: RequestId)
    requires Behaviour(states, events) && i < |states| && a < |states[i].requests|
    ensures var s := states[i];
            (a in s.heap <==> forall k | 0 <= k < |s.admissions| :: s.admissions[k].request != a)
            && (forall k, l | 0 <= k < l < |s.admissions| :: s.admissions[k].request != s.admissions[l].request)
  {
    InvHolds(states, events, i);
  }

  /** As many requests are in flight as workers are busy: at most one per worker, on one worker only. */
  lemma OneRequestPerWorker(states: seq<State>, events: seq<Event>, i: nat, v: nat, w: nat)
    requires Behaviour(states, events) && i < |states| && v < w < |states[i].workers|
    ensures |states[i].workers| == |states[0].workers|
    ensures states[i].workers[v].Busy? ==> states[i].workers[v] != states[i].workers[w]
  {
    InvHolds(states, events, i);
    WorkersAreFixed(states, events, i);
  }

  lemma {:induction false} WorkersAreFixed(states: seq<State>, events: seq<Event>, i: nat)
    requires Behaviour(states, events) && i < |states|
    ensures |states[i].workers| == |states[0].workers|
  {
    if i > 0 {
      WorkersAreFixed(states, events, i - 1);
      assert Steps(states[i - 1], events[i - 1], states[i]);
    }
  }

  /** No request waits while a worker sleeps and none is on its way to the heap. */
  lemma NoLostWakeup(states: seq<State>, events: seq<Event>, i: nat, w: nat)
    requires Behaviour(states, events) && i < |states| && w < |states[i].workers|
    requires states[i].workers[w].Parked? && states[i].heap != {}
    ensures exists v | 0 <= v < |states[i].workers| :: states[i].workers[v].Ready?
  {
    InvHolds(states, events, i);
    assert ReadyOnes(states[i].workers) != {};
  }

  /** A consumer sees its generator's events in order, none skipped or repeated; once it is served it
      has seen all of them and then the generator's own end, and nothing is left in its queue. */
  lemma ConsumerSeesTheGenerator(states: seq<State>, events: seq<Event>, i: nat, a: RequestId)
    requires Behaviour(states, events) && i < |states| && a < |states[i].requests|
    requires states[i].requests[a].work.Stream?
    ensures var r := states[i].requests[a];
            r.taken <= Handed(r.work, |r.work.events|, true)
            && (r.caller.Ended? <==> r.taken == Handed(r.work, |r.work.events|, true))
            && (r.caller.Ended? ==> r.caller.end == r.work.end && r.out == [])
  {
    InvHolds(states, events, i);
    WatchedStream(states[i].requests[a]);
  }

  lemma WatchedStream(r: Request)
    requires Progress(r) && r.work.Stream?
    ensures r.taken <= Handed(r.work, |r.work.events|, true)
    ensures r.caller.Ended? <==> r.taken == Handed(r.work, |r.work.events|, true)
    ensures r.caller.Ended? ==> r.caller.end == r.work.end && r.out == []
  {
    var all := Handed(r.work, |r.work.events|, true);
    assert r.taken <= r.taken + r.out;
    assert forall k | 0 <= k < |r.taken| :: r.taken[k] == (r.taken + r.out)[k] == all[k];
    if r.taken != [] {
      assert r.taken[|r.taken| - 1].Last? <==> |r.taken| == |all|;
    }
  }

  /** The future of a one-shot request gets the outcome of its own coroutine, once it has run and
      only if it is still awaited. */
  lemma CallerGetsItsOutcome(states: seq<State>, events: seq<Event>, i: nat, a: RequestId)
    requires Behaviour(states, events) && i < |states| && a < |states[i].requests|
    requires states[i].requests[a].work.Call?
    ensures var r := states[i].requests[a];
            (r.caller.Ended? ==> r.stage.Finished? && r.caller.end == r.work.end)
            && (r.stage.Finished? ==> r.caller.Ended? || r.caller.Gone?)
  {
    InvHolds(states, events, i);
  }

  lemma StepLeavesSleeper(s: State, e: Event, w: nat)
    requires Conserved(s) && Enabled(s, e) && w < |s.workers| && s.workers[w].Parked?
    requires e.Submit? ==> e.woken != w
    ensures w < |Next(s, e).workers| && Next(s, e).workers[w].Parked?
  {}

  /** A worker that has parked itself sleeps until a submission wakes it. */
  lemma {:induction false} SleepsUntilWoken(states: seq<State>, events: seq<Event>, i: nat, j: nat, w: nat)
    requires Behaviour(states, events) && i < j < |states| && events[i] == Park(w)
    requires forall k | i < k < j && events[k].Submit? :: events[k].woken != w
    ensures w < |states[j].workers| && states[j].workers[w].Parked?
  {
    hide Conserved, Ordered, Awake, Progress;
    assert Steps(states[j - 1], events[j - 1], states[j]);
    if i < j - 1 {
      hide Enabled, Next;
      SleepsUntilWoken(states, events, i, j - 1, w);
      InvHolds(states, events, j - 1);
      StepLeavesSleeper(states[j - 1], events[j - 1], w);
    }
  }

  // ----- Nothing is stuck -----

  lemma {:induction false} LeastOf(s: State, xs: set<RequestId>) returns (least: RequestId)
    requires xs != {} && forall x <- xs :: x < |s.requests|
    ensures least in xs && forall x <- xs :: x == least || Before(s, least, x)
  {
    var x :| x in xs;
    if xs == {x} {
      least := x;
    } else {
      assert xs - {x} != {};
      least := LeastOf(s, xs - {x});
      var other := least;
      if Before(s, x, least) {
        least := x;
      }
      forall y | y in xs && y != least ensures Before(s, least, y) {
        assert y == x || y == other || y in xs - {x};
      }
    }
  }

  /** Every worker that does not sleep has a step to take: one about to look at the heap parks itself or admits a
      request, a busy one forwards the next event or is done with its request. */
  lemma WorkersMoveOn(states: seq<State>, events: seq<Event>, i: nat, w: nat)
    requires Behaviour(states, events) && i < |states| && w < |states[i].workers|
    ensures states[i].workers[w].Ready? ==>
              if states[i].heap == {} then Enabled(states[i], Park(w))
              else exists a :: Enabled(states[i], Admit(w, a))
    ensures states[i].workers[w].Busy? ==>
              var a := states[i].workers[w].request;
              Enabled(states[i], Forward(a)) || Enabled(states[i], Finish(a))
  {
    InvHolds(states, events, i);
    hide Ordered, Awake, Progress;
    var s := states[i];
    if s.workers[w].Ready? && s.heap != {} {
      var a := LeastOf(s, s.heap);
      assert Enabled(s, Admit(w, a));
    }
  }

  /** A request can be made at any moment. */
  lemma RequestsAreAlwaysTaken(s: State, priority: int, work: Work)
    ensures exists w :: Enabled(s, Submit(priority, work, w))
  {
    if w :| 0 <= w < |s.workers| && s.workers[w].Parked? {
      assert Enabled(s, Submit(priority, work, w));
    } else {
      assert Enabled(s, Submit(priority, work, 0));
    }
  }

  /** A requester that gave up is never served. */
  lemma {:induction false} AbandonedIsNeverServed(states: seq<State>, events: seq<Event>, i: nat, j: nat, a: RequestId)
    requires Behaviour(states, events) && i < j < |states| && events[i] == Abandon(a)
    ensures a < |states[j].requests| && states[j].requests[a].caller.Gone?
  {
    hide Conserved, Ordered, Awake, Progress, CanWake, HasMore;
    assert Steps(states[j - 1], events[j - 1], states[j]);
    if i < j - 1 {
      AbandonedIsNeverServed(states, events, i, j - 1, a);
    }
  }
}
