/** The module-level queue of TinyCTX/ai.py and the sections its workers and requesters run. */
module RequestQueue {
  import opened Admission
  import opened AdmissionProofs

  class Queue {
    var requests: seq<Request>
    var heap: set<RequestId>
    var workers: seq<Worker>
    /** The history of admissions. */
    var admissions: seq<Admission>

    ghost function Abs(): State
      reads this
    {
      State(requests, heap, workers, admissions)
    }

    ghost predicate Valid()
      reads this
    {
      Conserved(Abs())
    }

    /** `configure_parallel(n)`, and the workers of the first request. */
    constructor (n: int)
      ensures Valid() && Initial(Abs()) && |workers| == if n > 1 then n else 1
    {
      requests, heap, admissions := [], {}, [];
      workers := seq(if n > 1 then n else 1, _ => Ready);
    }

    /** `_enqueue` and `_enqueue_stream` up to the first wait. */
    method Enqueue(priority: int, work: Work) returns (id: RequestId, ghost woken: nat)
      requires Valid()
      modifies this
      ensures Valid() && id == |old(requests)|
      ensures Steps(old(Abs()), Submit(priority, work, woken), Abs())
    {
      id := |requests|;
      requests := requests + [Request(priority, work, Waiting, [], [], Pending)];
      heap := heap + {id};
      woken := Notify();
      NextKeepsConserved(old(Abs()), Submit(priority, work, woken));
    }

    /** `notify()`: the first sleeping worker, if there is one. */
    method Notify() returns (woken: nat)
      modifies this`workers
      ensures CanWake(old(Abs()), woken)
      ensures workers == if woken < |old(workers)| && old(workers)[woken].Parked? then old(workers)[woken := Ready]
                         else old(workers)
    {
      woken := 0;
      while woken < |workers|
        invariant woken <= |workers| && workers == old(workers)
        invariant forall v | 0 <= v < woken :: !workers[v].Parked?
      {
        if workers[woken].Parked? {
          workers := workers[woken := Ready];
          return;
        }
        woken := woken + 1;
      }
    }

    /** The least item by (priority, sequence number). */
    method Top() returns (least: RequestId)
      requires Valid() && heap != {}
      ensures IsLeast(Abs(), least)
    {
      least :| least in heap;
      var rest := heap - {least};
      while rest != {}
        invariant rest <= heap && least in heap && least !in rest
        invariant forall b <- heap :: b in rest || b == least || Before(Abs(), least, b)
        decreases rest
      {
        var b :| b in rest;
        rest := rest - {b};
        if requests[b].priority < requests[least].priority
           || (requests[b].priority == requests[least].priority && b < least) {
          least := b;
        }
      }
    }

    /** A worker that was woken takes the top of the heap, or goes back to sleep. */
    method LookAtHeap(w: nat)
      requires Valid() && w < |workers| && workers[w].Ready?
      modifies this
      ensures Valid()
      ensures if old(heap) == {} then Steps(old(Abs()), Park(w), Abs())
              else w < |workers| && workers[w].Busy? && Steps(old(Abs()), Admit(w, workers[w].request), Abs())
    {
      if heap == {} {
        workers := workers[w := Parked];
        NextKeepsConserved(old(Abs()), Park(w));
      } else {
        var a := Top();
        heap := heap - {a};
        workers := workers[w := Busy(a)];
        requests := requests[a := requests[a].(stage := Running(w, 0, |admissions|))];
        admissions := admissions + [Admission(a, |requests|)];
        NextKeepsConserved(old(Abs()), Admit(w, a));
      }
    }

    /** The worker runs the item it took: every event is forwarded as it is produced, then the end. */
    method RunItem(w: nat)
      requires Valid() && w < |workers| && workers[w].Busy? && requests[workers[w].request].stage.forwarded == 0
      modifies this
      ensures Valid()
      ensures var a := old(workers[w].request);
              var before := old(requests[a]);
              heap == old(heap) && admissions == old(admissions) && workers == old(workers)[w := Ready]
              && |requests| == |old(requests)|
              && (forall b | 0 <= b < |requests| && b != a :: requests[b] == old(requests)[b])
              && requests[a].stage == Finished(before.stage.at)
              && requests[a].out == before.out + (if before.work.Stream?
                                                  then Handed(before.work, |before.work.events|, true) else [])
              && requests[a].caller == (if before.work.Call? && before.caller.Pending?
                                        then Ended(before.work.end) else before.caller)
    {
      var a := workers[w].request;
      ghost var before := requests[a];
      assert IsRunning(Abs(), a);
      while requests[a].work.Stream? && requests[a].stage.forwarded < |requests[a].work.events|
        invariant Valid()
        invariant heap == old(heap) && admissions == old(admissions) && workers == old(workers)
        invariant |requests| == |old(requests)|
        invariant forall b | 0 <= b < |requests| && b != a :: requests[b] == old(requests)[b]
        invariant requests[a].stage.Running? && requests[a].work == before.work && requests[a].caller == before.caller
        invariant requests[a].stage.at == before.stage.at && requests[a].stage.worker == w
        invariant if before.work.Stream? then requests[a].stage.forwarded <= |before.work.events|
                    && requests[a].out == before.out + Handed(before.work, requests[a].stage.forwarded, false)
                  else requests[a].out == before.out
        decreases if requests[a].work.Stream? then |requests[a].work.events| - requests[a].stage.forwarded else 0
      {
        DeliveryKeepsConserved(Abs(), Forward(a));
        ghost var n := requests[a].stage.forwarded;
        assert Handed(before.work, n + 1, false) == Handed(before.work, n, false) + [Yield(before.work.events[n])];
        requests := requests[a := Forwarded(requests[a])];
      }
      FinishKeepsConserved(Abs(), Finish(a));
      requests := requests[a := Closed(requests[a])];
      workers := workers[w := Ready];
    }

    /** `out_queue.get()` of the consumer, when something is there. */
    method Get(a: RequestId) returns (signal: Signal)
      requires Valid() && a < |requests| && requests[a].caller.Pending? && requests[a].out != []
      modifies this`requests
      ensures Valid() && signal == old(requests[a].out[0])
      ensures Steps(old(Abs()), Receive(a), Abs())
    {
      DeliveryKeepsConserved(Abs(), Receive(a));
      signal := requests[a].out[0];
      requests := requests[a := Taken(requests[a])];
    }
  }
}
