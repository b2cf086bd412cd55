/** What the fork protocol guarantees over whole runs of the program. */
module ForkGuarantees {
  import opened Outcomes
  import opened ConversationTree
  import opened Forks
  import opened ForkInvariant
  import opened SessionState

  lemma {:induction false} InvHolds(ss: seq<State>, es: seq<Event>, i: nat)
    requires Behaviour(ss, es) && i < |ss|
    ensures Inv(ss[i])
  {
    if i == 0 {
      assert ExecutingRuns(ss[0]) == {};
    } else {
      InvHolds(ss, es, i - 1);
      assert Steps(ss[i - 1], es[i - 1], ss[i]);
      NextKeepsInv(ss[i - 1], es[i - 1]);
    }
  }

  /** One step of a behaviour. */
  lemma GrowsOnce(ss: seq<State>, es: seq<Event>, i: nat)
    requires Behaviour(ss, es) && i < |es|
    ensures Grows(ss[i], ss[i + 1])
  {
    hide Grows, Enabled, Next;
    InvHolds(ss, es, i);
    hide RunsOk, NobodyMisses, PathsDisjoint, PostOk, SlotsOk;
    assert Steps(ss[i], es[i], ss[i + 1]);
    NextGrows(ss[i], es[i]);
  }

  lemma GrowsTwice(s: State, s1: State, s2: State)
    requires Grows(s, s1) && Grows(s1, s2)
    ensures Grows(s, s2)
  {}

  lemma {:induction false} GrowsOver(ss: seq<State>, es: seq<Event>, i: nat, j: nat)
    requires Behaviour(ss, es) && i <= j < |ss|
    ensures Grows(ss[i], ss[j])
    decreases j
  {
    hide Steps;
    if i < j {
      hide Grows;
      GrowsOver(ss, es, i, j - 1);
      GrowsOnce(ss, es, j - 1);
      GrowsTwice(ss[i], ss[j - 1], ss[j]);
    }
  }

  /** Once `f` has finished, its session's attach point covers it. */
  lemma SessionNeverMisses(ss: seq<State>, es: seq<Event>, i: nat, j: nat, f: RunId)
    requires Behaviour(ss, es) && i <= j < |ss|
    requires f in ss[i].runs && ss[i].runs[f].status == Done
    ensures f in ss[j].runs && ss[i].runs[f].session in ss[j].settled
    ensures Covers(ss[j], ss[j].settled[ss[i].runs[f].session], f)
  {
    hide Steps;
    InvHolds(ss, es, j);
    GrowsOver(ss, es, i, j);
    assert Evolved(ss[i].runs[f], ss[j].runs[f]);
    assert Informed(ss[j], ss[i].runs[f].session, ss[j].settled[ss[i].runs[f].session]);
  }

  /** Never neither: once `f` has finished, the root of every run of its session that was still
      going, or that starts later, covers it for ever. */
  lemma {:induction false} NeverNeither(ss: seq<State>, es: seq<Event>, i: nat, j: nat, f: RunId, r: RunId)
    requires Behaviour(ss, es) && i <= j < |ss|
    requires f in ss[i].runs && ss[i].runs[f].status == Done
    requires r in ss[j].runs && (r in ss[i].runs ==> ss[i].runs[r].status == Running)
    requires ss[j].runs[r].session == ss[i].runs[f].session
    ensures f in ss[j].runs && ss[j].runs[r].Started() && Covers(ss[j], ss[j].runs[r].Root(), f)
    decreases j
  {
    hide Steps, NobodyMisses, Evolved, RunsOk;
    SessionNeverMisses(ss, es, i, j, f);
    InvHolds(ss, es, j);
    if ss[j].runs[r].status == Running {
      RunningRunCovers(ss, es, i, j, f, r);
    } else {
      InvHolds(ss, es, j - 1);
      EndedRunsAreOld(ss[j - 1], es[j - 1], ss[j], r);
      SessionNeverMisses(ss, es, i, j - 1, f);
      NeverNeither(ss, es, i, j - 1, f, r);
      CoveredRootStays(ss[j - 1], es[j - 1], ss[j], r, f);
    }
  }

  lemma RunningRunCovers(ss: seq<State>, es: seq<Event>, i: nat, j: nat, f: RunId, r: RunId)
    requires Behaviour(ss, es) && i <= j < |ss|
    requires f in ss[i].runs && ss[i].runs[f].status == Done
    requires r in ss[j].runs && ss[j].runs[r].status == Running && ss[j].runs[r].session == ss[i].runs[f].session
    ensures f in ss[j].runs && ss[j].runs[r].Started() && Covers(ss[j], ss[j].runs[r].Root(), f)
  {
    hide Steps;
    InvHolds(ss, es, j);
    GrowsOver(ss, es, i, j);
    assert Evolved(ss[i].runs[f], ss[j].runs[f]);
    assert Informed(ss[j], ss[j].runs[r].session, ss[j].runs[r].Root());
  }

  lemma EndedRunsAreOld(s: State, e: Event, s': State, r: RunId)
    requires Steps(s, e, s') && r in s'.runs && s'.runs[r].status != Running
    ensures r in s.runs && s'.runs[r].session == s.runs[r].session
  {}

  lemma CoveredRootStays(s: State, e: Event, s': State, r: RunId, f: RunId)
    requires RunsOk(s) && Steps(s, e, s') && r in s.runs && f in s.runs
    requires s.runs[r].Started() && Covers(s, s.runs[r].Root(), f)
    ensures r in s'.runs && f in s'.runs && s'.runs[r].Started() && Covers(s', s'.runs[r].Root(), f)
  {
    hide Next;
    NextGrows(s, e);
    assert Evolved(s.runs[r], s'.runs[r]) && RunOk(s, r, s.runs[r]);
    var root := s.runs[r].Root();
    assert Above(s'.tree, root, root);
    CoversCarries(s, s', root, root, f);
  }

  /** `start_run` itself takes any branch point: the new root then covers a finished run exactly
      when the branch point did.  Only forks spawned off a running cycle inherit the guarantee. */
  lemma StartRunCoversIff(s: State, k: Session, from: NodeId, n: NodeId, r: RunId, f: RunId)
    requires from in s.tree && Fresh(s.tree, n) && r !in s.runs && RunsOk(s)
    requires f in s.runs && s.runs[f].head.Some? && s.runs[f].head.value in s.tree
    ensures Covers(StartRun(s, k, from, n, r), n, f) <==> Covers(s, from, f)
  {
    var s' := StartRun(s, k, from, n, r);
    OneRunGrows(s, s', r);
    if Covers(s, from, f) {
      assert Above(s'.tree, from, from) && Above(s'.tree, from, n);
      CoversCarries(s, s', from, n, f);
    }
    if Covers(s', n, f) {
      if Above(s'.tree, s.runs[f].head.value, n) {
        AboveStable(s.tree, s'.tree, s.runs[f].head.value, from);
      } else {
        var p :| p in s'.runs && s'.runs[p].Started() && Digest(f) in s'.runs[p].given
                 && Above(s'.tree, s'.runs[p].Root(), n);
        assert RunOk(s, p, s.runs[p]);
        AboveStable(s.tree, s'.tree, s.runs[p].Root(), from);
      }
    }
  }

  // ----- Registration, ending, worker slots -----

  /** `_runs` holds exactly the accepted runs that have not ended, and `_active` counts the runs
      holding a slot, never more than there are. */
  lemma LiveRunsAreTheUnended(ss: seq<State>, es: seq<Event>, i: nat)
    requires Behaviour(ss, es) && i < |ss|
    ensures ss[i].live == set r | r in ss[i].runs && ss[i].runs[r].status == Running
    ensures ss[i].active == |set r | r in ss[i].runs && ss[i].runs[r].phase == Executing| <= ss[0].slots
  {
    InvHolds(ss, es, i);
    SlotsStay(ss, es, i);
    forall r | r in ss[i].runs ensures r in ss[i].live <==> ss[i].runs[r].status == Running {
      assert RunOk(ss[i], r, ss[i].runs[r]);
    }
    assert ExecutingRuns(ss[i]) == set r | r in ss[i].runs && ss[i].runs[r].phase == Executing;
  }

  lemma {:induction false} SlotsStay(ss: seq<State>, es: seq<Event>, i: nat)
    requires Behaviour(ss, es) && i < |ss|
    ensures ss[i].slots == ss[0].slots
  {
    if i > 0 {
      SlotsStay(ss, es, i - 1);
    }
  }

  /** A run that has ended is out of `_runs` for good, under one final status. */
  lemma EndingIsFinal(ss: seq<State>, es: seq<Event>, i: nat, j: nat, r: RunId)
    requires Behaviour(ss, es) && i <= j < |ss|
    requires r in ss[i].runs && r !in ss[i].live
    ensures r in ss[j].runs && r !in ss[j].live
    ensures ss[j].runs[r].status == ss[i].runs[r].status != Running
    ensures ss[j].runs[r].head == ss[i].runs[r].head
  {
    InvHolds(ss, es, i);
    InvHolds(ss, es, j);
    GrowsOver(ss, es, i, j);
    assert RunOk(ss[i], r, ss[i].runs[r]) && RunOk(ss[j], r, ss[j].runs[r]);
    assert Evolved(ss[i].runs[r], ss[j].runs[r]);
  }

  /** Each ending run leaves its session at a node at or below the run's own root; one that dies, at the last node
      it wrote. */
  lemma EndingAdvancesSession(ss: seq<State>, es: seq<Event>, i: nat, r: RunId)
    requires Behaviour(ss, es) && i < |es| && r in ss[i].live && r !in ss[i + 1].live
    ensures r in ss[i + 1].runs && ss[i + 1].runs[r].Started() && ss[i + 1].runs[r].session in ss[i + 1].settled
    ensures Above(ss[i + 1].tree, ss[i + 1].runs[r].Root(), ss[i + 1].settled[ss[i + 1].runs[r].session])
    ensures ss[i + 1].runs[r].status in {Failed, Aborted} ==>
              var path := ss[i + 1].runs[r].path;
              ss[i + 1].settled[ss[i + 1].runs[r].session] == path[|path| - 1]
  {
    hide NobodyMisses, PathsDisjoint, PostOk, SlotsOk, RunsOk, Enabled, Next;
    InvHolds(ss, es, i);
    InvHolds(ss, es, i + 1);
    assert Steps(ss[i], es[i], ss[i + 1]);
    EndingStepMovesSettled(ss[i], es[i], ss[i + 1], r);
    hide Steps;
    RootIsAbovePath(ss[i + 1], r, ss[i + 1].settled[ss[i + 1].runs[r].session]);
  }

  lemma EndingStepMovesSettled(s: State, e: Event, s': State, r: RunId)
    requires RunsOk(s) && Steps(s, e, s') && r in s.live && r !in s'.live
    ensures r in s'.runs && s'.runs[r].session in s'.settled && s'.settled[s'.runs[r].session] in s'.runs[r].path
    ensures s'.runs[r].status in {Failed, Aborted} ==>
              s'.settled[s'.runs[r].session] == s'.runs[r].path[|s'.runs[r].path| - 1]
  {}

  /** A run that holds a slot can end: with a reply, in failure or aborted, or by returning after its reply. */
  lemma SlotsAreGivenBack(s: State, r: RunId)
    requires Inv(s) && r in s.runs && s.runs[r].phase == Executing
    ensures s.runs[r].status == Running ==>
              Enabled(s, Finished(r, s.runs[r].path[0]))
              && Enabled(s, Released(r, Failed)) && Enabled(s, Released(r, Aborted))
    ensures s.runs[r].status != Running ==> Enabled(s, LeftAfterFinish(r))
  {
    hide NobodyMisses, PathsDisjoint, PostOk;
    RunIsOk(s, r);
    assert r in ExecutingRuns(s);
  }

  /** No run waits for nothing: it can be admitted, or each slot is held by a run that can give it back. */
  lemma NobodyIsStuck(ss: seq<State>, es: seq<Event>, i: nat, r: RunId)
    requires Behaviour(ss, es) && i < |ss| && ss[i].slots > 0
    requires r in ss[i].runs && ss[i].runs[r].phase == Waiting
    ensures Enabled(ss[i], Admitted(r))
            || exists p :: p in ss[i].runs
                           && (Enabled(ss[i], Released(p, Aborted)) || Enabled(ss[i], LeftAfterFinish(p)))
  {
    InvHolds(ss, es, i);
    if ss[i].active == ss[i].slots {
      assert ExecutingRuns(ss[i]) != {};
      var p :| p in ExecutingRuns(ss[i]);
      SlotsAreGivenBack(ss[i], p);
    }
  }

  // ----- Digests and nudges -----

  function DigestsOf(s: State, p: RunId, f: RunId): nat
    requires p in s.runs
  {
    multiset(s.runs[p].given)[Digest(f)]
  }

  lemma DigestStep(s: State, e: Event, f: RunId, p: RunId)
    requires Enabled(s, e) && p in Next(s, e).runs
    ensures DigestsOf(Next(s, e), p, f)
         == (if p in s.runs then DigestsOf(s, p, f) else 0)
            + if e.Finished? && e.r == f && IsPeer(s, f, p) then 1 else 0
  {}

  /** A run is given a nudge exactly when a run of its own session nudges it while it is still going, and then it has
      it in its inbox too. */
  lemma NudgeStep(s: State, e: Event, from: RunId, p: RunId)
    requires RunsOk(s) && Enabled(s, e) && p in Next(s, e).runs
    ensures var arrives := e.Nudged? && e.from == from && e.target == p && p in s.runs
                           && s.runs[p].status == Running && s.runs[p].session == s.runs[from].session;
            multiset(Next(s, e).runs[p].given)[Nudge(from)]
            == (if p in s.runs then multiset(s.runs[p].given)[Nudge(from)] else 0) + (if arrives then 1 else 0)
            && (arrives ==> Next(s, e).runs[p].inbox == s.runs[p].inbox + [Nudge(from)])
  {
    if e.Finished? {
      FinishShape(s, e.r, e.head);
      hide Finish, IsPeer;
    } else if e.Nudged? {
      RunIsOk(s, p);
      hide RunsOk;
    } else {
      OthersGiveNothing(s, e, p);
      hide Next, Enabled;
    }
  }

  lemma OthersGiveNothing(s: State, e: Event, p: RunId)
    requires Enabled(s, e) && p in Next(s, e).runs && !e.Finished? && !e.Nudged?
    ensures Next(s, e).runs[p].given == if p in s.runs then s.runs[p].given else []
  {}

  /** No step but a rewritten delta changes what an old node reads; a node that a run starts on or writes reads what
      its parent reads. */
  lemma ReadsStay(s: State, e: Event, m: NodeId, key: string)
    requires Enabled(s, e) && m in Next(s, e).tree
    ensures m in s.tree && !e.Amended? ==>
              SessionState.Read(Next(s, e).tree, m, key) == SessionState.Read(s.tree, m, key)
    ensures m !in s.tree && (e.Spawned? || e.Wrote? || e.Drained?) ==>
              Next(s, e).tree[m].parent.Some?
              && SessionState.Read(Next(s, e).tree, m, key)
                 == SessionState.Read(s.tree, Next(s, e).tree[m].parent.value, key)
  {
    hide IsPeer, NudgeAccepted;
    var (parent, n, delta) := InsertedBy(s, e);
    if Next(s, e).tree != s.tree && !e.Amended? {
      InsertedReads(s.tree, n, parent, delta, if m == n then parent else m, key);
    }
  }

  /** The node that a step inserts, if it inserts one. */
  function InsertedBy(s: State, e: Event): (r: (NodeId, NodeId, Delta))
    requires Enabled(s, e)
    ensures !e.Amended? ==>
              Next(s, e).tree == s.tree
              || (r.0 in s.tree && Fresh(s.tree, r.1) && Next(s, e).tree == Insert(s.tree, r.1, r.0, r.2))
    ensures e.Spawned? || e.Wrote? || e.Drained? ==> r.2 == map[]
  {
    match e
    case Pushed(k, tail, delta, _, n, _) => (AttachPoint(s, k, tail), n, delta)
    case Spawned(p, n, _) => (s.runs[p].Tail(), n, map[])
    case Wrote(r, n) => (s.runs[r].Tail(), n, map[])
    case Drained(r, n) => (s.runs[r].Tail(), n, map[])
    case Inserted(parent, n, delta) => (parent, n, delta)
    case _ => (0, 0, map[])
  }

  lemma NoDigestBeforeTheEnd(s: State, f: RunId, p: RunId)
    requires RunsOk(s) && PostOk(s) && p in s.runs && (f in s.runs ==> s.runs[f].status != Done)
    ensures DigestsOf(s, p, f) == 0
  {}

  /** Over a whole history each finished run's digest reaches each run exactly once if that run
      was a running peer of the session at that moment, and never otherwise. */
  lemma {:induction false} DigestsReachPeersOnce(ss: seq<State>, es: seq<Event>, i: nat, j: nat, f: RunId, p: RunId)
    requires Behaviour(ss, es) && i < |es| && es[i].Finished? && es[i].r == f
    requires i < j < |ss| && p in ss[j].runs
    ensures f in ss[i].runs && DigestsOf(ss[j], p, f) == if IsPeer(ss[i], f, p) then 1 else 0
    decreases j
  {
    hide Next, IsPeer, DigestsOf, RunsOk, PostOk, NobodyMisses, PathsDisjoint, SlotsOk;
    InvHolds(ss, es, i);
    assert Steps(ss[i], es[i], ss[i + 1]) && Steps(ss[j - 1], es[j - 1], ss[j]);
    DigestStep(ss[j - 1], es[j - 1], f, p);
    if i + 1 == j {
      if p in ss[i].runs {
        NoDigestBeforeTheEnd(ss[i], f, p);
      }
    } else {
      EndedOnce(ss, es, i, j - 1, f);
      if p in ss[j - 1].runs {
        DigestsReachPeersOnce(ss, es, i, j - 1, f, p);
      } else {
        OnlyOldRunsArePeers(ss, es, i, j - 1, f, p);
      }
    }
  }

  lemma OnlyOldRunsArePeers(ss: seq<State>, es: seq<Event>, i: nat, j: nat, f: RunId, p: RunId)
    requires Behaviour(ss, es) && i <= j < |ss| && f in ss[i].runs && p !in ss[j].runs
    ensures !IsPeer(ss[i], f, p)
  {
    hide Steps;
    GrowsOver(ss, es, i, j);
  }

  lemma EndedOnce(ss: seq<State>, es: seq<Event>, i: nat, j: nat, f: RunId)
    requires Behaviour(ss, es) && i < j < |es| && es[i].Finished? && es[i].r == f
    ensures !(es[j].Finished? && es[j].r == f)
  {
    GrowsOver(ss, es, i + 1, j);
    assert Steps(ss[i], es[i], ss[i + 1]) && Steps(ss[j], es[j], ss[j + 1]);
    assert f in ss[i + 1].runs && ss[i + 1].runs[f].status == Done;
    assert Evolved(ss[i + 1].runs[f], ss[j].runs[f]);
  }

  /** Nothing in any inbox came from another session, and no digest from its own reader. */
  lemma LettersStayInSession(ss: seq<State>, es: seq<Event>, i: nat, r: RunId, x: Exogenous)
    requires Behaviour(ss, es) && i < |ss| && r in ss[i].runs && x in ss[i].runs[r].inbox
    ensures x.from in ss[i].runs && ss[i].runs[x.from].session == ss[i].runs[r].session
    ensures x.Digest? ==> x.from != r && ss[i].runs[x.from].status == Done
  {
    InvHolds(ss, es, i);
    var run := ss[i].runs[r];
    assert RunOk(ss[i], r, run);
    assert x in run.given;
    var m :| 0 <= m < |run.given| && run.given[m] == x;
    assert LetterOk(ss[i], r, run.given[m]);
  }

  // ----- Where messages and replies land -----

  predicate MovesSession(s: State, e: Event, k: Session) {
    match e
    case Pushed(k', _, _, trigger, _, _) => k' == k && !trigger
    case Finished(r, _) => r in s.runs && s.runs[r].session == k
    case Released(r, _) => r in s.runs && s.runs[r].session == k
    case _ => false
  }

  /** A triggering message of session `k` that was stored. */
  predicate Triggers(s: State, e: Event, k: Session) {
    e.Pushed? && e.k == k && e.trigger && AttachPoint(s, k, e.tail) in s.tree
  }

  lemma {:induction false} SettledStays(ss: seq<State>, es: seq<Event>, i: nat, j: nat, k: Session)
    requires Behaviour(ss, es) && i <= j < |ss| && k in ss[i].settled
    requires forall m | i <= m < j :: !MovesSession(ss[m], es[m], k)
    ensures k in ss[j].settled && ss[j].settled[k] == ss[i].settled[k]
    decreases j
  {
    if i < j {
      SettledStays(ss, es, i, j - 1, k);
    }
  }

  /** Triggering messages with no settled move between them are siblings. */
  lemma ConcurrentMessagesAreSiblings(ss: seq<State>, es: seq<Event>, i: nat, j: nat, k: Session)
    requires Behaviour(ss, es) && i < j < |es|
    requires Triggers(ss[i], es[i], k) && Triggers(ss[j], es[j], k)
    requires forall m | i < m < j :: !MovesSession(ss[m], es[m], k)
    ensures es[i].n in ss[j + 1].tree && es[j].n in ss[j + 1].tree && es[i].n != es[j].n
    ensures ss[j + 1].tree[es[i].n].parent == ss[j + 1].tree[es[j].n].parent != None
  {
    SettledStays(ss, es, i + 1, j, k);
    GrowsOver(ss, es, i + 1, j + 1);
    assert es[i].n in ss[i + 1].tree;
    GrowsOver(ss, es, i + 1, j);
  }

  /** The node a session is left at by a passive message or the end of a run. */
  function LeftAt(s: State, e: Event, k: Session): NodeId
    requires Enabled(s, e) && MovesSession(s, e, k)
  {
    match e
    case Pushed(_, _, _, _, n, _) => n
    case Finished(_, head) => head
    case Released(r, _) => s.runs[r].path[|s.runs[r].path| - 1]
  }

  /** The next message of the session hangs off the last passive message, the head the last run finished with, or
      the last node of the run that died, whichever came last. */
  lemma MessagesContinueTheSession(ss: seq<State>, es: seq<Event>, i: nat, j: nat, k: Session)
    requires Behaviour(ss, es) && i < j < |es|
    requires MovesSession(ss[i], es[i], k) && (es[i].Pushed? ==> es[i].n in ss[i + 1].tree)
    requires forall m | i < m < j :: !MovesSession(ss[m], es[m], k)
    requires es[j].Pushed? && es[j].k == k
    ensures es[j].n in ss[j + 1].tree && ss[j + 1].tree[es[j].n].parent == Some(LeftAt(ss[i], es[i], k))
  {
    assert Steps(ss[i], es[i], ss[i + 1]);
    var head := LeftAt(ss[i], es[i], k);
    InvHolds(ss, es, i);
    MovedSessionIsAt(ss[i], es[i], k);
    hide Inv;
    SettledStays(ss, es, i + 1, j, k);
    GrowsOver(ss, es, i + 1, j);
    assert head in ss[j].tree && Steps(ss[j], es[j], ss[j + 1]);
  }

  lemma MovedSessionIsAt(s: State, e: Event, k: Session)
    requires Inv(s) && Enabled(s, e) && MovesSession(s, e, k) && (e.Pushed? ==> e.n in Next(s, e).tree)
    ensures k in Next(s, e).settled && Next(s, e).settled[k] == LeftAt(s, e, k)
    ensures LeftAt(s, e, k) in Next(s, e).tree
  {
    hide NobodyMisses, PathsDisjoint, PostOk, SlotsOk;
    if !e.Pushed? {
      RunIsOk(s, e.r);
      hide RunsOk;
    }
  }

  /** A run's nodes are exactly its root and what its cycle wrote: each is the parent of the
      next, so they hang below the root as one chain, and no two runs share a node. */
  lemma RunsWriteDisjointChains(ss: seq<State>, es: seq<Event>, i: nat, r: RunId, p: RunId)
    requires Behaviour(ss, es) && i < |ss| && r in ss[i].runs && p in ss[i].runs
    ensures IsPath(ss[i].tree, ss[i].runs[r].path)
    ensures forall n :: n in ss[i].runs[r].path ==> Above(ss[i].tree, ss[i].runs[r].Root(), n)
    ensures r != p ==> forall n :: n in ss[i].runs[r].path ==> n !in ss[i].runs[p].path
  {
    InvHolds(ss, es, i);
    assert RunOk(ss[i], r, ss[i].runs[r]);
    forall n | n in ss[i].runs[r].path ensures Above(ss[i].tree, ss[i].runs[r].Root(), n) {
      RootIsAbovePath(ss[i], r, n);
    }
  }

  lemma WrittenNodesAreOnThePath(ss: seq<State>, es: seq<Event>, i: nat, j: nat)
    requires Behaviour(ss, es) && i < j < |ss| && i < |es| && (es[i].Wrote? || es[i].Drained?)
    ensures es[i].r in ss[j].runs && es[i].n in ss[j].runs[es[i].r].path
  {
    GrowsOver(ss, es, i + 1, j);
    var path := ss[i + 1].runs[es[i].r].path;
    assert path[|path| - 1] == es[i].n;
    assert Evolved(ss[i + 1].runs[es[i].r], ss[j].runs[es[i].r]);
  }

  // ----- What happens to the tree outside runs -----

  /** Every insertion of one row and every rewritten delta is a step that touches nothing else: what is proved of all
      behaviours allows for any of them at any moment. */
  lemma OutsideWritesAreSteps(s: State, n: NodeId, row: Node)
    requires row.parent.Some? && row.parent.value in s.tree && row.flags == []
    ensures Fresh(s.tree, n) ==> exists e :: Enabled(s, e) && Next(s, e) == s.(tree := s.tree[n := row])
    ensures n in s.tree ==>
              exists e :: Enabled(s, e) && Next(s, e) == s.(tree := s.tree[n := s.tree[n].(delta := row.delta)])
  {
    if Fresh(s.tree, n) {
      var e := Inserted(row.parent.value, n, row.delta);
      assert Enabled(s, e) && Next(s, e) == s.(tree := s.tree[n := row]);
    }
    if n in s.tree {
      var e := Amended(n, row.delta);
      assert Enabled(s, e) && Next(s, e) == s.(tree := s.tree[n := s.tree[n].(delta := row.delta)]);
    }
  }

  // ----- Sessions seeded with a missing node -----

  /** The environment of a message is stored with it: the node of an accepted message reads an entry back exactly
      when the attach point and the message's own tail agree on it. */
  lemma MessageReadsItsEnvironmentIff(s: State, k: Session, tail: NodeId, env: Delta, trigger: bool,
                                      n: NodeId, r: RunId, key: string)
    requires Fresh(s.tree, n) && CHECKPOINT !in env && key in env && AttachPoint(s, k, tail) in s.tree
    ensures var s' := Push(s, k, tail, StateDelta(s.tree, tail, env), trigger, n, r);
            SessionState.Read(s'.tree, n, key) == Some(env[key])
            <==> (SessionState.Read(s.tree, tail, key) == Some(env[key]) ==>
                    SessionState.Read(s.tree, if k in s.settled then s.settled[k] else tail, key) == Some(env[key]))
  {
    EnvironmentIsReadBack(s.tree, tail, AttachPoint(s, k, tail), n, env, key);
  }

  predicate SettledNodesExist(s: State) {
    forall k <- s.settled :: s.settled[k] in s.tree
  }

  /** A push leaves every settled node in the tree exactly when the session was known or the
      message's tail exists: the tail is recorded before the insert that may fail. */
  lemma PushKeepsSettledNodesIff(s: State, k: Session, tail: NodeId, delta: Delta, trigger: bool, n: NodeId, r: RunId)
    requires SettledNodesExist(s) && Enabled(s, Pushed(k, tail, delta, trigger, n, r))
    ensures SettledNodesExist(Push(s, k, tail, delta, trigger, n, r)) <==> k in s.settled || tail in s.tree
  {
    var s' := Push(s, k, tail, delta, trigger, n, r);
    assert k in s'.settled;
  }

  /** Every other step keeps settled nodes in the tree. */
  lemma OthersKeepSettledNodes(s: State, e: Event)
    requires SettledNodesExist(s) && RunsOk(s) && Enabled(s, e) && !e.Pushed?
    ensures SettledNodesExist(Next(s, e))
  {}

  /** A session with a run has an attach point in the tree. */
  predicate RunsHaveAttachPoints(s: State) {
    forall r <- s.runs :: s.runs[r].session in s.settled && s.settled[s.runs[r].session] in s.tree
  }

  lemma {:induction false} RunsHaveAttachPointsAlways(ss: seq<State>, es: seq<Event>, i: nat)
    requires Behaviour(ss, es) && i < |ss|
    ensures RunsHaveAttachPoints(ss[i])
  {
    if i > 0 {
      RunsHaveAttachPointsAlways(ss, es, i - 1);
      InvHolds(ss, es, i - 1);
      InvHolds(ss, es, i);
      NextKeepsAttachPoints(ss[i - 1], es[i - 1]);
    }
  }

  lemma NextKeepsAttachPoints(s: State, e: Event)
    requires RunsOk(s) && RunsHaveAttachPoints(s) && Enabled(s, e)
    ensures RunsHaveAttachPoints(Next(s, e))
  {
    if e.Finished? || e.Released? {
      assert RunOk(s, e.r, s.runs[e.r]);
      hide RunOk, RunsOk;
    } else if e.Pushed? {
      hide RunOk, RunsOk;
    } else {
      hide RunOk, RunsOk;
      OtherStepKeepsAttachPoints(s, e);
    }
  }

  lemma OtherStepKeepsAttachPoints(s: State, e: Event)
    requires RunsHaveAttachPoints(s) && Enabled(s, e) && !e.Finished? && !e.Released? && !e.Pushed?
    ensures RunsHaveAttachPoints(Next(s, e))
  {
    var s' := Next(s, e);
    assert s'.settled == s.settled && s.tree.Keys <= s'.tree.Keys;
  }

  /** A session whose first message named a missing node is dead: as long as no new node takes
      that id, every later message of the session fails and none of its runs ever starts. */
  lemma {:induction false} BadlySeededSessionIsDead(ss: seq<State>, es: seq<Event>, i: nat, j: nat, k: Session)
    requires Behaviour(ss, es) && i <= j < |ss| && k in ss[i].settled && ss[i].settled[k] !in ss[i].tree
    requires ss[i].settled[k] !in ss[j].tree
    ensures k in ss[j].settled && ss[j].settled[k] == ss[i].settled[k]
    ensures forall r <- ss[j].runs :: ss[j].runs[r].session != k
    ensures j < |es| && es[j].Pushed? && es[j].k == k ==> ss[j + 1] == ss[j]
    decreases j
  {
    hide Next, Enabled;
    RunsHaveAttachPointsAlways(ss, es, j);
    if i < j {
      GrowsOver(ss, es, j - 1, j);
      BadlySeededSessionIsDead(ss, es, i, j - 1, k);
      DeadSessionStep(ss[j - 1], es[j - 1], ss[j], k);
    }
    if j < |es| {
      DeadSessionStep(ss[j], es[j], ss[j + 1], k);
    }
  }

  lemma DeadSessionStep(s: State, e: Event, s': State, k: Session)
    requires Steps(s, e, s') && k in s.settled && s.settled[k] !in s.tree
    requires forall r <- s.runs :: s.runs[r].session != k
    ensures k in s'.settled && s'.settled[k] == s.settled[k]
    ensures e.Pushed? && e.k == k ==> s' == s
  {}
}
