/** The request queue of TinyCTX/ai.py as a state machine: every outbound request waits in one
    heap and is run to completion by one of a fixed number of workers. */
module Admission {

  /** The sequence number drawn when the request was made. */
  type RequestId = nat

  /** How the request's own coroutine or generator ends. */
  datatype End = Return(value: string) | Raise(exc: string)

  datatype Work = Call(end: End) | Stream(events: seq<string>, end: End)

  /** What goes through a stream's `out_queue`. */
  datatype Signal = Yield(event: string) | Last(end: End)

  /** In the heap; admitted as number `at` and `forwarded` events far; or run to completion. */
  datatype Stage = Waiting | Running(worker: nat, forwarded: nat, at: nat) | Finished(at: nat)

  /** The requester: awaiting its result, no longer interested, or served. */
  datatype Caller = Pending | Gone | Ended(end: End)

  /** `taken` is what the consumer of a stream has got out of the queue `out`. */
  datatype Request = Request(priority: int, work: Work, stage: Stage,
                             out: seq<Signal>, taken: seq<Signal>, caller: Caller)

  /** `Parked` waits on the condition; `Ready` is about to look at the heap. */
  datatype Worker = Parked | Ready | Busy(request: RequestId)

  /** One admission, with the number of requests made until then. */
  datatype Admission = Admission(request: RequestId, known: nat)

  datatype State = State(requests: seq<Request>, heap: set<RequestId>, workers: seq<Worker>, admissions: seq<Admission>)

  datatype Event =
    | Submit(priority: int, work: Work, woken: nat)
    | Park(worker: nat)
    | Admit(worker: nat, next: RequestId)
    | Forward(request: RequestId)
    | Finish(request: RequestId)
    | Receive(request: RequestId)
    | Abandon(request: RequestId)

  /** The order of `_QueueItem`: priority, then sequence number. */
  predicate Before(s: State, a: RequestId, b: RequestId)
    requires a < |s.requests| && b < |s.requests|
  {
    s.requests[a].priority < s.requests[b].priority
    || (s.requests[a].priority == s.requests[b].priority && a < b)
  }

  /** The top of the heap. */
  predicate IsLeast(s: State, a: RequestId) {
    a in s.heap && a < |s.requests| && forall b <- s.heap :: b < |s.requests| ==> b == a || Before(s, a, b)
  }

  /** `notify` wakes a sleeping worker if there is one. */
  predicate CanWake(s: State, w: nat) {
    (w < |s.workers| && s.workers[w].Parked?) || forall v | 0 <= v < |s.workers| :: !s.workers[v].Parked?
  }

  predicate IsRunning(s: State, a: RequestId) {
    a < |s.requests| && s.requests[a].stage.Running? && s.requests[a].stage.worker < |s.workers|
  }

  predicate Enabled(s: State, e: Event) {
    match e
    case Submit(_, _, w) => CanWake(s, w)
    case Park(w) => w < |s.workers| && s.workers[w].Ready? && s.heap == {}
    case Admit(w, a) => w < |s.workers| && s.workers[w].Ready? && IsLeast(s, a)
    case Forward(a) => IsRunning(s, a) && HasMore(s.requests[a])
    case Finish(a) => IsRunning(s, a) && !HasMore(s.requests[a])
    case Receive(a) => a < |s.requests| && s.requests[a].caller.Pending? && s.requests[a].out != []
    case Abandon(a) => a < |s.requests| && s.requests[a].caller.Pending?
  }

  predicate HasMore(r: Request)
    requires r.stage.Running?
  {
    r.work.Stream? && r.stage.forwarded < |r.work.events|
  }

  /** The generator's next event goes to the queue at once. */
  function Forwarded(r: Request): Request
    requires r.stage.Running? && HasMore(r)
  {
    r.(out := r.out + [Yield(r.work.events[r.stage.forwarded])],
       stage := r.stage.(forwarded := r.stage.forwarded + 1))
  }

  /** A stream's queue gets the end marker or the exception; a future still awaited gets the outcome. */
  function Closed(r: Request): Request
    requires r.stage.Running?
  {
    var done := r.(stage := Finished(r.stage.at));
    if r.work.Stream? then done.(out := r.out + [Last(r.work.end)])
    else if r.caller.Pending? then done.(caller := Ended(r.work.end))
    else done
  }

  function Taken(r: Request): Request
    requires r.out != []
  {
    var caller := if r.out[0].Last? then Ended(r.out[0].end) else r.caller;
    r.(out := r.out[1..], taken := r.taken + [r.out[0]], caller := caller)
  }

  function Set(s: State, a: RequestId, r: Request): State
    requires a < |s.requests|
  {
    s.(requests := s.requests[a := r])
  }

  function Next(s: State, e: Event): State
    requires Enabled(s, e)
  {
    match e
    case Submit(priority, work, w) =>
      State(s.requests + [Request(priority, work, Waiting, [], [], Pending)], s.heap + {|s.requests|},
            if w < |s.workers| && s.workers[w].Parked? then s.workers[w := Ready] else s.workers, s.admissions)
    case Park(w) => s.(workers := s.workers[w := Parked])
    case Admit(w, a) =>
      State(s.requests[a := s.requests[a].(stage := Running(w, 0, |s.admissions|))], s.heap - {a},
            s.workers[w := Busy(a)], s.admissions + [Admission(a, |s.requests|)])
    case Forward(a) => Set(s, a, Forwarded(s.requests[a]))
    case Finish(a) => Set(s, a, Closed(s.requests[a])).(workers := s.workers[s.requests[a].stage.worker := Ready])
    case Receive(a) => Set(s, a, Taken(s.requests[a]))
    case Abandon(a) => Set(s, a, s.requests[a].(caller := Gone))
  }

  predicate Steps(s: State, e: Event, t: State) {
    Enabled(s, e) && t == Next(s, e)
  }

  predicate Initial(s: State) {
    (forall w | 0 <= w < |s.workers| :: s.workers[w].Ready?)
    && s.requests == [] && s.heap == {} && s.admissions == []
  }

  predicate Behaviour(states: seq<State>, events: seq<Event>) {
    |states| == |events| + 1 && Initial(states[0])
    && forall i | 0 <= i < |events| :: Steps(states[i], events[i], states[i + 1])
  }

  // ----- What every step keeps -----

  /** What a stream's generator has handed over after `n` events, and its end once it is finished. */
  function Handed(work: Work, n: nat, finished: bool): seq<Signal>
    requires work.Stream? && n <= |work.events|
  {
    seq(n, i requires 0 <= i < n => Yield(work.events[i])) + if finished then [Last(work.end)] else []
  }

  function Total(work: Work): nat {
    if work.Stream? then |work.events| else 0
  }

  /** The requester has got, in order, what the generator produced; it is served when it got the end. */
  predicate Delivered(r: Request, n: nat, finished: bool) {
    (r.caller.Ended? ==> finished && r.caller.end == r.work.end)
    && if r.work.Stream? then
         n <= |r.work.events|
         && r.taken + r.out == Handed(r.work, n, finished)
         && (r.caller.Ended? <==> r.taken != [] && r.taken[|r.taken| - 1].Last?)
       else
         r.out == [] && r.taken == [] && n == 0 && (finished ==> !r.caller.Pending?)
  }

  predicate Progress(r: Request) {
    match r.stage
    case Waiting => Delivered(r, 0, false)
    case Running(_, n, _) => Delivered(r, n, false)
    case Finished(_) => Delivered(r, Total(r.work), true)
  }

  /** A request is in the heap, or on exactly the worker it says, or finished; it is admitted at most once. */
  predicate Conserved(s: State) {
    (forall a | 0 <= a < |s.requests| :: a in s.heap <==> s.requests[a].stage.Waiting?)
    && (forall a <- s.heap :: a < |s.requests|)
    && (forall a | 0 <= a < |s.requests| && s.requests[a].stage.Running? ::
          s.requests[a].stage.worker < |s.workers| && s.workers[s.requests[a].stage.worker] == Busy(a))
    && (forall a | 0 <= a < |s.requests| && !s.requests[a].stage.Waiting? ::
          s.requests[a].stage.at < |s.admissions| && s.admissions[s.requests[a].stage.at].request == a)
    && (forall w | 0 <= w < |s.workers| && s.workers[w].Busy? ::
          IsRunning(s, s.workers[w].request) && s.requests[s.workers[w].request].stage.worker == w)
    && (forall i | 0 <= i < |s.admissions| ::
          s.admissions[i].request < s.admissions[i].known <= |s.requests|
          && !s.requests[s.admissions[i].request].stage.Waiting?
          && s.requests[s.admissions[i].request].stage.at == i)
  }

  /** `b` comes after the admitted request, or was not yet made when that one was admitted. */
  predicate After(s: State, first: Admission, b: RequestId)
    requires first.request < |s.requests| && b < |s.requests|
  {
    Before(s, first.request, b) || first.known <= b
  }

  predicate Ordered(s: State)
    requires Conserved(s)
  {
    (forall i, j | 0 <= i < j < |s.admissions| :: After(s, s.admissions[i], s.admissions[j].request))
    && (forall i, b | 0 <= i < |s.admissions| && b in s.heap :: After(s, s.admissions[i], b))
  }

  function ReadyOnes(workers: seq<Worker>): set<nat> {
    set w | 0 <= w < |workers| && workers[w].Ready?
  }

  /** No wake-up is lost: if a worker sleeps, enough others are on their way to the heap. */
  predicate Awake(s: State) {
    (exists w | 0 <= w < |s.workers| :: s.workers[w].Parked?) ==> |s.heap| <= |ReadyOnes(s.workers)|
  }

  predicate Inv(s: State) {
    Conserved(s) && Ordered(s) && Awake(s) && forall a | 0 <= a < |s.requests| :: Progress(s.requests[a])
  }
}
