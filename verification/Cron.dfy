/** The cron store and runner of TinyCTX/modules/cron/__main__.py. */
module Cron {
  import opened Outcomes

  type JobId = nat

  datatype Schedule = Schedule(expr: string, tz: string, oneShot: bool)

  datatype RunStatus = Never | Succeeded | Failed | Skipped

  datatype Job = Job(id: JobId, schedule: Schedule, enabled: bool, nextRun: Option<int>, lastRun: Option<int>,
                     lastStatus: RunStatus, deleteAfterRun: bool)

  /** A turn was pushed for a job that was due at `due`. */
  datatype Firing = Firing(id: JobId, due: int, oneShot: bool)

  /** How one run goes: skipped before anything is pushed, pushed, or broken off by an exception. */
  datatype Course = CreatorMissing | NotPermitted | Pushed(ok: bool) | Raised(pushed: bool)

  predicate IsDue(j: Job, now: int) {
    j.enabled && j.nextRun.Some? && j.nextRun.value != 0 && now >= j.nextRun.value
  }

  /** Everything fired so far for the job lies before its next run; a one-shot that fired is off. */
  predicate Ahead(fired: seq<Firing>, j: Job) {
    forall f | 0 <= f < |fired| && fired[f].id == j.id ::
      fired[f].oneShot == j.schedule.oneShot
      && (j.schedule.oneShot ==> !j.enabled)
      && (j.nextRun.Some? && !j.schedule.oneShot ==> fired[f].due < j.nextRun.value)
  }

  /** A one-shot fires once; the due times of a recurring job strictly increase. */
  predicate InOrder(fired: seq<Firing>) {
    forall f, g | 0 <= f < g < |fired| && fired[f].id == fired[g].id ::
      !fired[f].oneShot && !fired[g].oneShot && fired[f].due < fired[g].due
  }

  /** Every row but that of the running job is ahead of all firings. */
  predicate RowsOk(rows: map<JobId, Job>, nextId: JobId, fired: seq<Firing>, running: set<JobId>) {
    (forall i <- rows :: i < nextId && rows[i].id == i && (i !in running ==> Ahead(fired, rows[i])))
    && forall f | 0 <= f < |fired| :: fired[f].id < nextId
  }

  /** Every id that was given out is in the table or was removed. */
  predicate RemovedOk(rows: map<JobId, Job>, nextId: JobId, fired: seq<Firing>, removed: map<JobId, nat>) {
    (forall i | 0 <= i < nextId :: i in rows <==> i !in removed)
    && (forall i <- removed :: i < nextId && removed[i] <= |fired|)
  }

  /** What others do to the store. */
  datatype Change = Put(job: Job) | Drop(id: JobId)

  /** What they do in one round: before the loop comes to each job, and while its run is being awaited. */
  datatype Meanwhile = Meanwhile(ahead: JobId -> seq<Change>, during: JobId -> seq<Change>)

  class Runner {
    const computeNext: (Schedule, int) -> Option<int>
    var rows: map<JobId, Job>
    var jobs: seq<Job>
    var clock: int
    /** Ids never used before start here. */
    var nextId: JobId
    ghost var fired: seq<Firing>
    /** The removed jobs, and how many firings there had been when each was removed. */
    ghost var removed: map<JobId, nat>
    /** The job that was pushed and whose outcome is not saved yet. */
    ghost var running: set<JobId>

    ghost predicate StrictlyAfter() {
      forall s, t :: computeNext(s, t).Some? ==> computeNext(s, t).value > t
    }

    /** The schedule's next time after some moment of a stretch. */
    ghost predicate IsNext(schedule: Schedule, next: Option<int>, from: int, to: int) {
      exists t :: from <= t <= to && next == computeNext(schedule, t)
    }

    /** A one-shot that took place is switched off; any other job stays on and gets its next due time. */
    ghost predicate Rescheduled(job: Job, course: Course, after: Job, from: int, to: int) {
      if (course.Pushed? || course.Raised?) && job.schedule.oneShot then !after.enabled && after.nextRun == job.nextRun
      else after.enabled && IsNext(job.schedule, after.nextRun, from, to)
    }

    ghost predicate Valid()
      reads this
    {
      StrictlyAfter() && InOrder(fired)
      && RowsOk(rows, nextId, fired, running) && RemovedOk(rows, nextId, fired, removed)
    }

    constructor (computeNext: (Schedule, int) -> Option<int>, now: int)
      requires forall s, t :: computeNext(s, t).Some? ==> computeNext(s, t).value > t
      ensures Valid() && rows == map[] && fired == [] && removed == map[] && running == {}
      ensures clock == now && nextId == 0
    {
      this.computeNext, clock := computeNext, now;
      rows, jobs, nextId, fired, removed, running := map[], [], 0, [], map[], {};
    }

    method Now() returns (now: int)
      requires Valid()
      modifies this`clock
      ensures Valid() && now == clock >= old(clock)
    {
      var passed: nat :| true;
      clock := clock + passed;
      now := clock;
    }

    /** `CronStore.add` of a job that was just made. */
    method Add(j: Job) returns (id: JobId)
      requires Valid()
      modifies this`rows, this`nextId
      ensures Valid() && id == old(nextId) == nextId - 1 && id !in removed && rows == old(rows)[id := j.(id := id)]
    {
      id := nextId;
      rows := rows[id := j.(id := id)];
      nextId := nextId + 1;
    }

    method Delete(id: JobId) returns (found: bool)
      requires Valid()
      modifies this`rows, this`removed
      ensures Valid() && found == (id in old(rows)) && rows == old(rows) - {id}
      ensures removed == if found then old(removed)[id := |fired|] else old(removed)
    {
      found := id in rows;
      if found {
        rows, removed := rows - {id}, removed[id := |fired|];
      }
    }

    /** The changes that others make, one after the other. */
    method Others(changes: seq<Change>)
      requires Valid()
      modifies this`rows, this`removed, this`nextId
      ensures Valid() && nextId >= old(nextId)
      ensures forall i | 0 <= i < old(nextId) ::
                (i in rows <==> i in old(rows) && Drop(i) !in changes) && (i in rows ==> rows[i] == old(rows)[i])
      ensures Stamped(old(removed), removed, |fired|)
    {
      hide Ahead, InOrder;
      for n := 0 to |changes|
        invariant Valid() && nextId >= old(nextId)
        invariant forall i | 0 <= i < old(nextId) ::
                    (i in rows <==> i in old(rows) && Drop(i) !in changes[..n])
                    && (i in rows ==> rows[i] == old(rows)[i])
        invariant Stamped(old(removed), removed, |fired|)
      {
        assert changes[..n + 1] == changes[..n] + [changes[n]];
        match changes[n] {
          case Put(job) => var _ := Add(job);
          case Drop(id) => var _ := Delete(id);
        }
      }
      assert changes[..|changes|] == changes;
    }

    /** The last step of a run: the row is deleted or updated.  The update is an UPDATE, so a row
        that was deleted meanwhile stays deleted. */
    method Save(job: Job, course: Course, after: Job)
      requires Valid() && running == {job.id} && job.id < nextId && after.id == job.id && Ahead(fired, after)
      modifies this`rows, this`removed, this`running
      ensures Valid() && running == {}
      ensures rows.Keys == old(rows.Keys) - if job.deleteAfterRun && course.Pushed? then {job.id} else {}
      ensures forall i <- rows :: rows[i] == if i == job.id then after else old(rows)[i]
      ensures Stamped(old(removed), removed, |fired|)
    {
      hide Ahead, InOrder;
      if course.Pushed? && job.deleteAfterRun {
        var _ := Delete(job.id);
      } else if job.id in rows {
        rows := rows[job.id := after];
      }
      running := {};
    }

    /** `_run_job` with the handler around it: the push, whatever others do meanwhile, then the outcome. */
    method RunJob(job: Job, now: int, course: Course, changes: seq<Change>) returns (after: Job)
      requires Valid() && running == {} && IsDue(job, now) && now <= clock && job.id < nextId && Ahead(fired, job)
      modifies this`rows, this`removed, this`running, this`fired, this`nextId, this`clock
      ensures Valid() && running == {} && clock >= old(clock) && nextId >= old(nextId)
      ensures fired == old(fired) + FiringOf(job, course)
      ensures IsResult(job, course, after) && now <= after.lastRun.value <= clock
      ensures course.Raised? ==> after.lastRun == Some(now)
      ensures Rescheduled(job, course, after, old(clock), clock)
      ensures forall i | 0 <= i < old(nextId) ::
                (i in rows <==> i in old(rows) && Drop(i) !in changes
                                && !(i == job.id && job.deleteAfterRun && course.Pushed?))
                && (i in rows ==> rows[i] == if i == job.id then after else old(rows)[i])
      ensures Stamped(old(removed), removed, |fired|)
    {
      hide Ahead, InOrder, FiringOf, IsResult;
      var start := Now();
      FiringKeepsOrder(fired, job, course);
      fired := fired + FiringOf(job, course);
      running := {job.id};
      Others(changes);
      var end := Now();
      var next := computeNext(job.schedule, end);
      after := AfterRun(job, course, if course.Raised? then now else start, next);
      assert IsResult(job, course, after) by {
        ResultOfRun(job, course, if course.Raised? then now else start, next);
      }
      ResultIsAhead(old(fired), job, course, after);
      assert Rescheduled(job, course, after, old(clock), end);
      hide Rescheduled;
      Save(job, course, after);
    }

    /** `_reload`: all rows, in the order they were made. */
    method Reload()
      requires Valid()
      modifies this`jobs
      ensures Valid() && Lists(jobs, rows)
    {
      hide Ahead, InOrder, RemovedOk;
      hide ListsBelow;
      NothingListed(rows);
      jobs := [];
      for i := 0 to nextId
        invariant ListsBelow(jobs, rows, i)
      {
        OneMoreListed(jobs, rows, i);
        if i in rows {
          jobs := jobs + [rows[i]];
        }
      }
      AllListed(jobs, rows, nextId);
    }

    lemma LoadedAreAhead(loaded: seq<Job>)
      requires Valid() && running == {} && Lists(loaded, rows)
      ensures forall m | 0 <= m < |loaded| :: Ahead(fired, loaded[m]) && loaded[m].id < nextId
    {}

    /** One round of the loop: reload, then run what is due.  Nothing that was removed before fires.  A job
        removed after the reload and before its turn, by a thread or while an earlier one is running, still
        fires, exactly if it was due and its run gets to the push. */
    method Poll(courses: JobId -> Course, meanwhile: Meanwhile) returns (ghost loaded: seq<Job>, now: int)
      requires Valid() && running == {}
      modifies this
      ensures Valid() && running == {} && clock >= now >= old(clock)
      ensures Lists(loaded, old(rows))
      ensures fired == old(fired) + Firings(loaded, now, courses)
      ensures forall i <- old(removed) :: i in removed && !FiredSince(fired, |old(fired)|, i)
      ensures forall j, m | 0 <= j <= m < |loaded| && DroppedInTurn(loaded, now, meanwhile, j, m) ::
                loaded[m].id in removed
                && (FiredSince(fired, removed[loaded[m].id], loaded[m].id) <==>
                    IsDue(loaded[m], now) && GetsToPush(courses(loaded[m].id)))
      ensures forall m | 0 <= m < |loaded| && loaded[m].id in rows ::
                if IsDue(loaded[m], now)
                then Rescheduled(loaded[m], courses(loaded[m].id), rows[loaded[m].id], now, clock)
                else rows[loaded[m].id] == loaded[m]
    {
      hide InOrder, Ahead, RowsOk, Firings, FiringOf, FiredSince, RemovedInTime, IsDue, Rescheduled;
      Reload();
      loaded := jobs;
      LoadedAreAhead(loaded);
      now := Now();
      NothingFires(now, courses);
      NothingRemovedYet(loaded, now, courses, meanwhile, |fired|, removed);
      for k := 0 to |jobs|
        invariant |jobs| == |loaded| && InRound(loaded, now, courses, meanwhile, k, old(fired)) && clock >= now
        invariant forall i <- old(removed) :: i in removed
        invariant RowsAt(loaded, now, courses, k)
      {
        TakeTurn(loaded, now, courses, meanwhile, k, old(fired));
      }
      assert loaded[..|loaded|] == loaded;
      RemovedOnesFire(loaded, now, courses, meanwhile, old(fired), removed);
      NothingElseFires(loaded, now, courses, old(fired), old(removed.Keys));
    }

    /** The first `k` loaded jobs have been dealt with. */
    ghost predicate AtTurn(loaded: seq<Job>, now: int, courses: JobId -> Course, k: nat, before: seq<Firing>)
      reads this
    {
      Valid() && running == {} && k <= |loaded| == |jobs| && jobs[k..] == loaded[k..]
      && fired == before + Firings(loaded[..k], now, courses)
      && (forall m | 0 <= m < |loaded| :: loaded[m].id < nextId)
      && forall m | k <= m < |loaded| :: Ahead(fired, loaded[m])
    }

    /** The rows of the first `k` loaded jobs were rescheduled if they were due; the others are as they were loaded. */
    ghost predicate RowsAt(loaded: seq<Job>, now: int, courses: JobId -> Course, k: nat)
      reads this
    {
      forall m | 0 <= m < |loaded| && loaded[m].id in rows ::
        if m < k && IsDue(loaded[m], now)
        then Rescheduled(loaded[m], courses(loaded[m].id), rows[loaded[m].id], now, clock)
        else rows[loaded[m].id] == loaded[m]
    }

    lemma LaterIsNext(job: Job, course: Course, after: Job, from: int, from': int, to: int, to': int)
      requires from <= from' && to' <= to && Rescheduled(job, course, after, from', to')
      ensures Rescheduled(job, course, after, from, to)
    {}

    ghost predicate InRound(loaded: seq<Job>, now: int, courses: JobId -> Course, meanwhile: Meanwhile,
                            k: nat, before: seq<Firing>)
      reads this
    {
      AtTurn(loaded, now, courses, k, before) && RemovedInTime(loaded, now, courses, meanwhile, k, |before|, removed)
    }

    method RunIfDue(ghost loaded: seq<Job>, now: int, courses: JobId -> Course, changes: seq<Change>,
                    k: nat, ghost before: seq<Firing>)
      requires k < |loaded| && AtTurn(loaded, now, courses, k, before) && clock >= now
      requires forall m, n | 0 <= m < n < |loaded| :: loaded[m].id < loaded[n].id
      modifies this
      ensures AtTurn(loaded, now, courses, k + 1, before) && clock >= now
      ensures Stamped(old(removed), removed, |fired|) && |old(fired)| <= |fired| && clock >= old(clock)
      ensures forall i | 0 <= i < old(nextId) && i in rows ::
                i in old(rows)
                && if i == loaded[k].id && IsDue(loaded[k], now)
                   then Rescheduled(loaded[k], courses(i), rows[i], now, clock)
                   else rows[i] == old(rows)[i]
      ensures forall m | 0 <= m < |loaded| && IsDue(loaded[k], now) && Drop(loaded[m].id) in changes ::
                loaded[m].id in removed
    {
      hide InOrder, Ahead, RowsOk, Firings, FiringOf, IsDue, IsResult, Rescheduled;
      assert jobs[k] == jobs[k..][0] == loaded[k];
      OneMoreFires(loaded, k, now, courses);
      if IsDue(jobs[k], now) {
        DueHasNext(jobs[k], now);
        OthersStayAhead(fired, loaded, k, courses(jobs[k].id));
        var after := RunJob(jobs[k], now, courses(jobs[k].id), changes);
        LaterIsNext(loaded[k], courses(loaded[k].id), after, now, old(clock), clock, clock);
        jobs := jobs[k := after];
      }
    }

    /** The turn of one job: what threads do before it, and its run if it is due. */
    method TakeTurn(ghost loaded: seq<Job>, now: int, courses: JobId -> Course, meanwhile: Meanwhile,
                    k: nat, ghost before: seq<Firing>)
      requires k < |loaded| && InRound(loaded, now, courses, meanwhile, k, before) && clock >= now
      requires forall m, n | 0 <= m < n < |loaded| :: loaded[m].id < loaded[n].id
      requires RowsAt(loaded, now, courses, k)
      modifies this
      ensures InRound(loaded, now, courses, meanwhile, k + 1, before) && clock >= now
      ensures forall i <- old(removed) :: i in removed
      ensures RowsAt(loaded, now, courses, k + 1)
    {
      hide InOrder, Ahead, RowsOk, Firings, RemovedInTime, IsDue, Rescheduled;
      assert jobs[k] == jobs[k..][0] == loaded[k];
      Others(meanwhile.ahead(jobs[k].id));
      ghost var halfway := removed;
      RunIfDue(loaded, now, courses, meanwhile.during(jobs[k].id), k, before);
      OneMoreInTime(loaded, now, courses, meanwhile, k, |before|, old(removed), halfway, removed);
      forall m | 0 <= m < k && loaded[m].id in rows && IsDue(loaded[m], now)
        ensures Rescheduled(loaded[m], courses(loaded[m].id), rows[loaded[m].id], now, clock)
      {
        LaterIsNext(loaded[m], courses(loaded[m].id), rows[loaded[m].id], now, now, clock, old(clock));
      }
    }

    /** `_next_wake_ms`: the earliest next run of an enabled job. */
    method NextWake() returns (wake: Option<int>)
      ensures wake.None? <==> forall k | 0 <= k < |jobs| :: !(jobs[k].enabled && jobs[k].nextRun.Some?)
      ensures wake.Some? ==> exists k :: 0 <= k < |jobs| && jobs[k].enabled && jobs[k].nextRun == wake
      ensures forall k | 0 <= k < |jobs| && jobs[k].enabled && jobs[k].nextRun.Some? ::
                wake.Some? && wake.value <= jobs[k].nextRun.value
    {
      wake := None;
      for i := 0 to |jobs|
        invariant wake.None? <==> forall k | 0 <= k < i :: !(jobs[k].enabled && jobs[k].nextRun.Some?)
        invariant wake.Some? ==> exists k :: 0 <= k < i && jobs[k].enabled && jobs[k].nextRun == wake
        invariant forall k | 0 <= k < i && jobs[k].enabled && jobs[k].nextRun.Some? ::
                    wake.Some? && wake.value <= jobs[k].nextRun.value
      {
        if jobs[i].enabled && jobs[i].nextRun.Some? && (wake.None? || jobs[i].nextRun.value < wake.value) {
          wake := jobs[i].nextRun;
        }
      }
    }
  }

  lemma OthersStayAhead(fired: seq<Firing>, loaded: seq<Job>, k: nat, course: Course)
    requires k < |loaded| && loaded[k].nextRun.Some?
    requires forall m, n | 0 <= m < n < |loaded| :: loaded[m].id < loaded[n].id
    requires forall m | k <= m < |loaded| :: Ahead(fired, loaded[m])
    ensures forall m | k < m < |loaded| :: Ahead(fired + FiringOf(loaded[k], course), loaded[m])
  {}

  /** Whether the run got beyond the permission checks. */
  predicate TookPlace(course: Course) {
    course.Pushed? || course.Raised?
  }

  /** A one-shot that took place is switched off; any other run is followed by the next due time. */
  function AfterRun(job: Job, course: Course, start: int, next: Option<int>): Job {
    var off := TookPlace(course) && job.schedule.oneShot;
    var status := match course
      case CreatorMissing => Failed
      case NotPermitted => Skipped
      case Pushed(ok) => if ok then Succeeded else Failed
      case Raised(_) => Failed;
    job.(lastRun := Some(start), lastStatus := status, enabled := !off, nextRun := if off then job.nextRun else next)
  }

  /** What the schedule promises of the job after its run. */
  predicate IsResult(job: Job, course: Course, after: Job) {
    job.enabled && job.nextRun.Some? && after.id == job.id && after.schedule == job.schedule
    && after.deleteAfterRun == job.deleteAfterRun && after.lastRun.Some?
    && (after.lastStatus == Succeeded <==> course == Pushed(true))
    && (after.lastStatus == Skipped <==> course.NotPermitted?)
    && (after.lastStatus == Failed <==> course != Pushed(true) && !course.NotPermitted?)
    && after.enabled == !(TookPlace(course) && job.schedule.oneShot)
    && (after.enabled && after.nextRun.Some? ==> job.nextRun.value < after.nextRun.value)
  }

  lemma ResultOfRun(job: Job, course: Course, start: int, next: Option<int>)
    requires job.enabled && job.nextRun.Some? && (next.Some? ==> job.nextRun.value < next.value)
    ensures IsResult(job, course, AfterRun(job, course, start, next))
  {}

  /** A firing keeps the order; other jobs are not concerned. */
  lemma FiringKeepsOrder(fired: seq<Firing>, job: Job, course: Course)
    requires InOrder(fired) && Ahead(fired, job) && job.enabled && job.nextRun.Some?
    ensures InOrder(fired + FiringOf(job, course))
    ensures forall j: Job :: j.id != job.id && Ahead(fired, j) ==> Ahead(fired + FiringOf(job, course), j)
    ensures forall f | 0 <= f < |FiringOf(job, course)| :: FiringOf(job, course)[f].id == job.id
  {}

  /** The job that comes out of the run is ahead of its firing. */
  lemma ResultIsAhead(fired: seq<Firing>, job: Job, course: Course, after: Job)
    requires Ahead(fired, job) && IsResult(job, course, after)
    ensures Ahead(fired + FiringOf(job, course), after) && after.id == job.id
  {}

  predicate GetsToPush(course: Course) {
    course.Pushed? || (course.Raised? && course.pushed)
  }

  /** The job fired after the first `n` firings. */
  predicate FiredSince(fired: seq<Firing>, n: nat, id: JobId) {
    exists f :: n <= f < |fired| && fired[f].id == id
  }

  /** Nothing that was removed comes back, and what is removed now is stamped with the number of firings. */
  predicate Stamped(before: map<JobId, nat>, after: map<JobId, nat>, firings: nat) {
    forall i <- before + after :: i in after && after[i] == if i in before then before[i] else firings
  }

  /** What was dropped before or during the turns of the first `k` jobs was removed by then; what was loaded was
      not removed before the round. */
  ghost predicate RemovedInTime(loaded: seq<Job>, now: int, courses: JobId -> Course, meanwhile: Meanwhile,
                                k: nat, base: nat, removed: map<JobId, nat>)
    requires k <= |loaded|
  {
    (forall m | 0 <= m < |loaded| && loaded[m].id in removed :: removed[loaded[m].id] >= base)
    && (forall j, m | 0 <= j < k && j <= m < |loaded| && DroppedAhead(loaded, meanwhile, j, m) ::
          loaded[m].id in removed && removed[loaded[m].id] <= base + |Firings(loaded[..j], now, courses)|)
    && forall j, m | 0 <= j < k && j < m < |loaded| && DroppedDuring(loaded, now, meanwhile, j, m) ::
         loaded[m].id in removed && removed[loaded[m].id] <= base + |Firings(loaded[..j + 1], now, courses)|
  }

  predicate DroppedAhead(loaded: seq<Job>, meanwhile: Meanwhile, j: nat, m: nat)
    requires j < |loaded| && m < |loaded|
  {
    Drop(loaded[m].id) in meanwhile.ahead(loaded[j].id)
  }

  predicate DroppedDuring(loaded: seq<Job>, now: int, meanwhile: Meanwhile, j: nat, m: nat)
    requires j < |loaded| && m < |loaded|
  {
    IsDue(loaded[j], now) && Drop(loaded[m].id) in meanwhile.during(loaded[j].id)
  }

  /** Dropped before the turn of `j`, or during it when that is an earlier job. */
  predicate DroppedInTurn(loaded: seq<Job>, now: int, meanwhile: Meanwhile, j: nat, m: nat)
    requires j <= m < |loaded|
  {
    DroppedAhead(loaded, meanwhile, j, m) || (j < m && DroppedDuring(loaded, now, meanwhile, j, m))
  }

  lemma NothingRemovedYet(loaded: seq<Job>, now: int, courses: JobId -> Course, meanwhile: Meanwhile,
                          base: nat, removed: map<JobId, nat>)
    requires forall m | 0 <= m < |loaded| :: loaded[m].id !in removed
    ensures RemovedInTime(loaded, now, courses, meanwhile, 0, base, removed)
  {}

  lemma OneMoreInTime(loaded: seq<Job>, now: int, courses: JobId -> Course, meanwhile: Meanwhile, k: nat, base: nat,
                      before: map<JobId, nat>, halfway: map<JobId, nat>, after: map<JobId, nat>)
    requires k < |loaded| && RemovedInTime(loaded, now, courses, meanwhile, k, base, before)
    requires Stamped(before, halfway, base + |Firings(loaded[..k], now, courses)|)
    requires Stamped(halfway, after, base + |Firings(loaded[..k + 1], now, courses)|)
    requires forall i <- before :: before[i] <= base + |Firings(loaded[..k], now, courses)|
    requires |Firings(loaded[..k], now, courses)| <= |Firings(loaded[..k + 1], now, courses)|
    requires forall m | k <= m < |loaded| && DroppedAhead(loaded, meanwhile, k, m) :: loaded[m].id in halfway
    requires forall m | k < m < |loaded| && DroppedDuring(loaded, now, meanwhile, k, m) :: loaded[m].id in after
    ensures RemovedInTime(loaded, now, courses, meanwhile, k + 1, base, after)
  {
    hide Firings, DroppedAhead, DroppedDuring;
  }

  lemma DueHasNext(job: Job, now: int)
    requires IsDue(job, now)
    ensures job.nextRun.Some? && job.enabled
  {}

  function FiringOf(job: Job, course: Course): seq<Firing>
    requires job.nextRun.Some?
  {
    if GetsToPush(course) then [Firing(job.id, job.nextRun.value, job.schedule.oneShot)]
    else []
  }

  /** Every job that was due, in order, if its run got as far as the push. */
  function Firings(jobs: seq<Job>, now: int, courses: JobId -> Course): seq<Firing> {
    if jobs == [] then []
    else
      var last := jobs[|jobs| - 1];
      Firings(jobs[..|jobs| - 1], now, courses) + if IsDue(last, now) then FiringOf(last, courses(last.id)) else []
  }

  lemma NothingFires(now: int, courses: JobId -> Course)
    ensures Firings([], now, courses) == []
  {}

  lemma OneMoreFires(jobs: seq<Job>, k: nat, now: int, courses: JobId -> Course)
    requires k < |jobs|
    ensures Firings(jobs[..k + 1], now, courses)
         == if IsDue(jobs[k], now) then Firings(jobs[..k], now, courses) + FiringOf(jobs[k], courses(jobs[k].id))
            else Firings(jobs[..k], now, courses)
  {
    assert jobs[..k + 1][..k] == jobs[..k];
  }

  lemma {:induction false} FirstFirings(jobs: seq<Job>, k: nat, now: int, courses: JobId -> Course)
    requires k <= |jobs|
    ensures Firings(jobs[..k], now, courses) <= Firings(jobs, now, courses)
  {
    if k == |jobs| {
      assert jobs[..k] == jobs;
    } else {
      assert jobs[..|jobs| - 1][..k] == jobs[..k];
      FirstFirings(jobs[..|jobs| - 1], k, now, courses);
    }
  }

  /** What fires in a round was loaded, due, and got to the push. */
  lemma {:induction false} FiredWasDue(jobs: seq<Job>, now: int, courses: JobId -> Course, f: nat) returns (k: nat)
    requires f < |Firings(jobs, now, courses)|
    ensures k < |jobs| && IsDue(jobs[k], now) && courses(jobs[k].id) in {Pushed(true), Pushed(false), Raised(true)}
    ensures Firings(jobs, now, courses)[f].id == jobs[k].id
    ensures jobs[k].enabled && jobs[k].nextRun.Some? && 0 != jobs[k].nextRun.value <= now
  {
    var front := jobs[..|jobs| - 1];
    if f < |Firings(front, now, courses)| {
      k := FiredWasDue(front, now, courses, f);
    } else {
      k := |jobs| - 1;
    }
  }

  /** A job with a next due time is due from that time on, as long as it is enabled. */
  lemma DueFromThenOn(job: Job, u: int, now: int)
    requires job.enabled && job.nextRun == Some(u) && u != 0 && now >= u
    ensures IsDue(job, now)
  {}

  /** And such a job fires when its turn comes. */
  lemma DueFires(jobs: seq<Job>, k: nat, now: int, courses: JobId -> Course)
    requires k < |jobs| && IsDue(jobs[k], now) && courses(jobs[k].id) in {Pushed(true), Pushed(false), Raised(true)}
    ensures var f := |Firings(jobs[..k], now, courses)|;
            f < |Firings(jobs, now, courses)| && Firings(jobs, now, courses)[f].id == jobs[k].id
  {
    hide Firings, IsDue;
    DueHasNext(jobs[k], now);
    OneMoreFires(jobs, k, now, courses);
    FirstFirings(jobs, k + 1, now, courses);
  }

  lemma NothingElseFires(loaded: seq<Job>, now: int, courses: JobId -> Course, fired: seq<Firing>, removed: set<JobId>)
    requires forall m | 0 <= m < |loaded| :: loaded[m].id !in removed
    ensures forall i <- removed :: !FiredSince(fired + Firings(loaded, now, courses), |fired|, i)
  {
    hide Firings, IsDue;
    var all := fired + Firings(loaded, now, courses);
    forall f | |fired| <= f < |all|
      ensures all[f].id !in removed
    {
      var k := FiredWasDue(loaded, now, courses, f - |fired|);
    }
  }

  lemma RemovedOneFires(loaded: seq<Job>, now: int, courses: JobId -> Course, fired: seq<Firing>,
                        m: nat, n: nat, since: nat)
    requires forall k, l | 0 <= k < l < |loaded| :: loaded[k].id < loaded[l].id
    requires n <= m < |loaded| && |fired| <= since <= |fired| + |Firings(loaded[..n], now, courses)|
    ensures FiredSince(fired + Firings(loaded, now, courses), since, loaded[m].id) <==>
              IsDue(loaded[m], now) && GetsToPush(courses(loaded[m].id))
  {
    hide Firings, IsDue;
    var id, round := loaded[m].id, Firings(loaded, now, courses);
    if IsDue(loaded[m], now) && GetsToPush(courses(id)) {
      DueFires(loaded, m, now, courses);
      FirstFirings(loaded[..m], n, now, courses);
      assert loaded[..m][..n] == loaded[..n];
      assert (fired + round)[|fired| + |Firings(loaded[..m], now, courses)|].id == id;
    }
    if FiredSince(fired + round, since, id) {
      var f :| since <= f < |fired + round| && (fired + round)[f].id == id;
      var k := FiredWasDue(loaded, now, courses, f - |fired|);
      assert loaded[k].id == id && k == m;
    }
  }

  lemma RemovedOnesFire(loaded: seq<Job>, now: int, courses: JobId -> Course, meanwhile: Meanwhile,
                        fired: seq<Firing>, removed: map<JobId, nat>)
    requires forall k, l | 0 <= k < l < |loaded| :: loaded[k].id < loaded[l].id
    requires RemovedInTime(loaded, now, courses, meanwhile, |loaded|, |fired|, removed)
    ensures forall j, m | 0 <= j <= m < |loaded| && DroppedInTurn(loaded, now, meanwhile, j, m) ::
              loaded[m].id in removed
              && (FiredSince(fired + Firings(loaded, now, courses), removed[loaded[m].id], loaded[m].id) <==>
                  IsDue(loaded[m], now) && GetsToPush(courses(loaded[m].id)))
  {
    hide Firings, DroppedAhead, DroppedDuring, FiredSince, IsDue;
    forall j, m | 0 <= j <= m < |loaded| && DroppedInTurn(loaded, now, meanwhile, j, m)
      ensures loaded[m].id in removed
      ensures FiredSince(fired + Firings(loaded, now, courses), removed[loaded[m].id], loaded[m].id) <==>
                IsDue(loaded[m], now) && GetsToPush(courses(loaded[m].id))
    {
      var n := if DroppedAhead(loaded, meanwhile, j, m) then j else j + 1;
      RemovedOneFires(loaded, now, courses, fired, m, n, removed[loaded[m].id]);
    }
  }

  /** The rows of the table, each once. */
  predicate Lists(jobs: seq<Job>, rows: map<JobId, Job>) {
    (forall k | 0 <= k < |jobs| :: jobs[k].id in rows && rows[jobs[k].id] == jobs[k])
    && (forall i <- rows :: exists k :: 0 <= k < |jobs| && jobs[k].id == i)
    && forall k, l | 0 <= k < l < |jobs| :: jobs[k].id < jobs[l].id
  }

  /** The rows with an id below `n`. */
  predicate ListsBelow(jobs: seq<Job>, rows: map<JobId, Job>, n: nat) {
    (forall k | 0 <= k < |jobs| :: jobs[k].id < n && jobs[k].id in rows && rows[jobs[k].id] == jobs[k])
    && (forall i <- rows :: i < n ==> exists k :: 0 <= k < |jobs| && jobs[k].id == i)
    && forall k, l | 0 <= k < l < |jobs| :: jobs[k].id < jobs[l].id
  }

  lemma NothingListed(rows: map<JobId, Job>)
    ensures ListsBelow([], rows, 0)
  {}

  lemma OneMoreListed(jobs: seq<Job>, rows: map<JobId, Job>, n: nat)
    requires ListsBelow(jobs, rows, n) && (n in rows ==> rows[n].id == n)
    ensures ListsBelow(if n in rows then jobs + [rows[n]] else jobs, rows, n + 1)
  {
    if n in rows {
      var more := jobs + [rows[n]];
      assert more[|jobs|].id == n;
      forall i <- rows | i < n
        ensures exists k :: 0 <= k < |more| && more[k].id == i
      {
        var k :| 0 <= k < |jobs| && jobs[k].id == i;
        assert more[k] == jobs[k];
      }
    }
  }

  lemma AllListed(jobs: seq<Job>, rows: map<JobId, Job>, n: nat)
    requires ListsBelow(jobs, rows, n) && forall i <- rows :: i < n
    ensures Lists(jobs, rows)
  {}

  const DUE := Job(0, Schedule("* * * * *", "", false), true, Some(1), None, Never, false)

  lemma InOrderOfId(loaded: seq<Job>, rows: map<JobId, Job>, a: JobId, b: JobId) returns (j: nat, m: nat)
    requires Lists(loaded, rows) && a in rows && b in rows && a < b
    ensures j < m < |loaded| && loaded[j] == rows[a] && loaded[m] == rows[b]
  {
    j :| 0 <= j < |loaded| && loaded[j].id == a;
    m :| 0 <= m < |loaded| && loaded[m].id == b;
  }

  lemma DueAt(id: JobId, now: int)
    requires now >= 5
    ensures IsDue(DUE.(id := id), now)
  {}

  lemma RemovedIsGone(runner: Runner, id: JobId)
    requires runner.Valid() && id in runner.removed
    ensures id !in runner.rows
  {}

  method TwoDueJobs() returns (runner: Runner)
    ensures fresh(runner) && runner.Valid() && runner.running == {} && runner.clock == 5
    ensures runner.rows == map[0 := DUE, 1 := DUE.(id := 1)]
  {
    hide Ahead, InOrder, RowsOk, RemovedOk;
    runner := new Runner((_, t) => Some(t + 1), 5);
    var first := runner.Add(DUE);
    var second := runner.Add(DUE);
  }

  /** Two jobs are due; the turn of the first removes the second, which then still fires. */
  method RemovedDuringTheRound() returns (runner: Runner)
    ensures fresh(runner) && runner.Valid()
    ensures 1 in runner.removed && 1 !in runner.rows && FiredSince(runner.fired, runner.removed[1], 1)
  {
    hide IsDue, Firings, FiredSince, Ahead, InOrder, RowsOk, RemovedOk;
    runner := TwoDueJobs();
    ghost var rows := runner.rows;
    var courses := (_: JobId) => Pushed(true);
    var meanwhile := Meanwhile(_ => [], id => if id == 0 then [Drop(1)] else []);
    var loaded, now := runner.Poll(courses, meanwhile);
    ghost var j, m := InOrderOfId(loaded, rows, 0, 1);
    DueAt(0, now);
    DueAt(1, now);
    assert DroppedInTurn(loaded, now, meanwhile, j, m);
    RemovedIsGone(runner, 1);
  }
}
