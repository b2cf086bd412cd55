/** Every step of the fork protocol keeps its invariant. */
module ForkInvariant {
  import opened Outcomes
  import opened ConversationTree
  import opened Forks

  // ----- What never shrinks -----

  predicate Evolved(run: Run, run': Run) {
    run'.session == run.session
    && run.path <= run'.path && run.given <= run'.given
    && (run.head.Some? ==> run'.head == run.head)
    && (run.status != Running ==> run'.status == run.status)
  }

  ghost predicate Grows(s: State, s': State) {
    Extends(s.tree, s'.tree) && s.runs.Keys <= s'.runs.Keys
    && s.settled.Keys <= s'.settled.Keys
    && forall r <- s.runs :: Evolved(s.runs[r], s'.runs[r])
  }

  /** At most one run changes, or is added. */
  lemma OneRunGrows(s: State, s': State, r: RunId)
    requires Extends(s.tree, s'.tree) && s.settled.Keys <= s'.settled.Keys
    requires s'.runs.Keys == s.runs.Keys + {r} && forall p <- s.runs :: p != r ==> s'.runs[p] == s.runs[p]
    requires r in s.runs ==> Evolved(s.runs[r], s'.runs[r])
    ensures Grows(s, s')
  {}

  lemma FinishGrows(s: State, r: RunId, head: NodeId)
    requires Enabled(s, Finished(r, head)) && RunsOk(s)
    ensures Grows(s, Finish(s, r, head))
  {
    hide RunsOk, RunOk, Finish, IsPeer, Evolved;
    RunIsOk(s, r);
    FinishShape(s, r, head);
    forall p | p in s.runs
      ensures Evolved(s.runs[p], Finish(s, r, head).runs[p])
    {
      FinishEvolves(s, r, head, p);
    }
  }

  lemma FinishEvolves(s: State, r: RunId, head: NodeId, p: RunId)
    requires Enabled(s, Finished(r, head)) && RunOk(s, r, s.runs[r]) && p in s.runs
    ensures Evolved(s.runs[p], Finish(s, r, head).runs[p])
  {}

  /** The finished run gets its status and head; another one may get one more letter. */
  lemma FinishShape(s: State, r: RunId, head: NodeId)
    requires r in s.runs
    ensures var s' := Finish(s, r, head);
            s'.tree == s.tree && s'.runs.Keys == s.runs.Keys && s'.settled == s.settled[s.runs[r].session := head]
            && s'.runs[r] == s.runs[r].(status := Done, head := Some(head))
            && forall p <- s.runs :: p != r ==>
                 s'.runs[p] == if IsPeer(s, r, p) then s.runs[p].Receive(Digest(r)) else s.runs[p]
  {}

  lemma RunIsOk(s: State, r: RunId)
    requires RunsOk(s) && r in s.runs
    ensures RunOk(s, r, s.runs[r])
  {}

  lemma PushGrows(s: State, k: Session, tail: NodeId, delta: Delta, trigger: bool, n: NodeId, r: RunId)
    requires Enabled(s, Pushed(k, tail, delta, trigger, n, r))
    ensures Grows(s, Push(s, k, tail, delta, trigger, n, r))
  {}

  lemma NextGrows(s: State, e: Event)
    requires Enabled(s, e) && RunsOk(s)
    ensures Grows(s, Next(s, e))
  {
    hide RunsOk, Grows;
    match e {
      case Pushed(k, tail, delta, trigger, n, r) => PushGrows(s, k, tail, delta, trigger, n, r);
      case Spawned(_, n, r) => OneRunGrows(s, Next(s, e), r);
      case Admitted(r) => OneRunGrows(s, Admit(s, r), r);
      case Wrote(r, n) => OneRunGrows(s, Write(s, r, n), r);
      case Drained(r, n) => OneRunGrows(s, DrainOne(s, r, n), r);
      case Finished(r, head) => FinishGrows(s, r, head);
      case LeftAfterFinish(r) => OneRunGrows(s, Leave(s, r), r);
      case Released(r, _) => ReleaseGrows(s, e);
      case Nudged(target, _) => NudgeGrows(s, e);
      case Inserted(_, _, _) => TreeGrows(s, Next(s, e));
      case Amended(_, _) => TreeGrows(s, Next(s, e));
    }
  }

  lemma ReleaseGrows(s: State, e: Event)
    requires e.Released? && Enabled(s, e) && RunsOk(s)
    ensures Grows(s, Next(s, e))
  {}

  lemma NudgeGrows(s: State, e: Event)
    requires e.Nudged? && Enabled(s, e)
    ensures Grows(s, Next(s, e))
  {}

  /** Only the tree changes. */
  lemma TreeGrows(s: State, s': State)
    requires Extends(s.tree, s'.tree) && s' == s.(tree := s'.tree)
    ensures Grows(s, s')
  {}

  lemma CoversCarries(s: State, s': State, a: NodeId, n: NodeId, f: RunId)
    requires Grows(s, s') && f in s.runs && Covers(s, a, f) && Above(s'.tree, a, n)
    ensures Covers(s', n, f)
  {
    if s.runs[f].head.Some? && Above(s.tree, s.runs[f].head.value, a) {
      AboveStable(s.tree, s'.tree, s.runs[f].head.value, a);
      AboveTransitive(s'.tree, s.runs[f].head.value, a, n);
    } else {
      var r :| r in s.runs && s.runs[r].Started() && Digest(f) in s.runs[r].given && Above(s.tree, s.runs[r].Root(), a);
      AboveStable(s.tree, s'.tree, s.runs[r].Root(), a);
      AboveTransitive(s'.tree, s.runs[r].Root(), a, n);
      assert Evolved(s.runs[r], s'.runs[r]);
    }
  }

  /** What `a` knows its descendants know, now and later, unless a run of the session ends. */
  lemma InformedCarries(s: State, s': State, k: Session, a: NodeId, n: NodeId)
    requires Grows(s, s') && Informed(s, k, a)
    requires a in s.tree ==> Above(s'.tree, a, n)
    requires forall f | f in s'.runs && s'.runs[f].status == Done && s'.runs[f].session == k ::
               f in s.runs && s.runs[f].status == Done
    ensures Informed(s', k, n)
  {
    forall f | f in s'.runs && s'.runs[f].status == Done && s'.runs[f].session == k ensures Covers(s', n, f) {
      assert Evolved(s.runs[f], s'.runs[f]);
      assert Covers(s, a, f);
      CoversCarries(s, s', a, n, f);
    }
  }

  lemma {:induction false} PathGoesDown(t: Tree, path: seq<NodeId>, i: nat, j: nat)
    requires IsPath(t, path) && i <= j < |path|
    ensures Above(t, path[i], path[j])
    decreases j
  {
    if i < j {
      PathGoesDown(t, path, i, j - 1);
      assert t[path[j]].parent == Some(path[j - 1]);
    }
  }

  lemma RootIsAbovePath(s: State, r: RunId, n: NodeId)
    requires RunsOk(s) && r in s.runs && n in s.runs[r].path
    ensures s.runs[r].Started() && Above(s.tree, s.runs[r].Root(), n)
  {
    assert RunOk(s, r, s.runs[r]);
    var i :| 0 <= i < |s.runs[r].path| && s.runs[r].path[i] == n;
    PathGoesDown(s.tree, s.runs[r].path, 0, i);
  }

  // ----- Nobody misses a finished run -----

  /** Every attach point of `s'` lies at or below an attach point of `s`: the settled node of
      its session, or the root of a run of that session that is still going. */
  ghost predicate DescendsFromInformed(s: State, k: Session, n: NodeId, t: Tree) {
    (k in s.settled && (s.settled[k] in s.tree ==> Above(t, s.settled[k], n)))
    || exists r :: r in s.runs && s.runs[r].status == Running && s.runs[r].session == k
                   && s.runs[r].Started() && Above(t, s.runs[r].Root(), n)
  }

  lemma DescendantIsInformed(s: State, s': State, k: Session, n: NodeId)
    requires NobodyMisses(s) && Grows(s, s') && DescendsFromInformed(s, k, n, s'.tree)
    requires forall f | f in s'.runs && s'.runs[f].status == Done && s'.runs[f].session == k ::
               f in s.runs && s.runs[f].status == Done
    ensures Informed(s', k, n)
  {
    if k in s.settled && (s.settled[k] in s.tree ==> Above(s'.tree, s.settled[k], n)) {
      InformedCarries(s, s', k, s.settled[k], n);
    } else {
      var r :| r in s.runs && s.runs[r].status == Running && s.runs[r].session == k
               && s.runs[r].Started() && Above(s'.tree, s.runs[r].Root(), n);
      InformedCarries(s, s', k, s.runs[r].Root(), n);
    }
  }

  lemma AttachPointsDescend(s: State, s': State)
    requires NobodyMisses(s) && Grows(s, s')
    requires forall f | f in s'.runs && s'.runs[f].status == Done :: f in s.runs && s.runs[f].status == Done
    requires forall k | k in s'.settled :: DescendsFromInformed(s, k, s'.settled[k], s'.tree)
    requires forall r | r in s'.runs && s'.runs[r].status == Running ::
               s'.runs[r].Started() && DescendsFromInformed(s, s'.runs[r].session, s'.runs[r].Root(), s'.tree)
    ensures NobodyMisses(s')
  {
    forall f | f in s'.runs && s'.runs[f].status == Done ensures s'.runs[f].session in s'.settled {
      assert Evolved(s.runs[f], s'.runs[f]);
    }
    forall k | k in s'.settled ensures Informed(s', k, s'.settled[k]) {
      DescendantIsInformed(s, s', k, s'.settled[k]);
    }
    forall r | r in s'.runs && s'.runs[r].status == Running
      ensures Informed(s', s'.runs[r].session, s'.runs[r].Root())
    {
      DescendantIsInformed(s, s', s'.runs[r].session, s'.runs[r].Root());
    }
  }

  /** The run's own root, and everything else that was there, descends from itself. */
  lemma OldPointsDescend(s: State, t: Tree)
    requires RunsOk(s) && Extends(s.tree, t)
    ensures forall k | k in s.settled :: DescendsFromInformed(s, k, s.settled[k], t)
    ensures forall r | r in s.runs && s.runs[r].status == Running ::
              s.runs[r].Started() && DescendsFromInformed(s, s.runs[r].session, s.runs[r].Root(), t)
  {}

  /** `setdefault` on a session that has finished no run yet. */
  lemma SeedingMissesNobody(s: State, k: Session, tail: NodeId)
    requires NobodyMisses(s)
    ensures NobodyMisses(s.(settled := s.settled[k := AttachPoint(s, k, tail)]))
  {}

  lemma PushMissesNobody(s: State, k: Session, tail: NodeId, delta: Delta, trigger: bool, n: NodeId, r: RunId)
    requires RunsOk(s) && NobodyMisses(s) && Enabled(s, Pushed(k, tail, delta, trigger, n, r))
    ensures NobodyMisses(Push(s, k, tail, delta, trigger, n, r))
  {
    hide NobodyMisses;
    var attach := AttachPoint(s, k, tail);
    var s1 := s.(settled := s.settled[k := attach]);
    SeedingMissesNobody(s, k, tail);
    if attach in s.tree {
      SeedingKeepsRunsOk(s, k, attach);
      PushOntoSeeded(s1, k, tail, delta, trigger, n, r);
      assert s1.settled[k := attach] == s1.settled;
      assert Push(s1, k, tail, delta, trigger, n, r) == Push(s, k, tail, delta, trigger, n, r);
    } else {
      assert Push(s, k, tail, delta, trigger, n, r) == s1;
    }
  }

  lemma SeedingKeepsRunsOk(s: State, k: Session, n: NodeId)
    requires RunsOk(s)
    ensures RunsOk(s.(settled := s.settled[k := n]))
  {}

  lemma PushOntoSeeded(s: State, k: Session, tail: NodeId, delta: Delta, trigger: bool, n: NodeId, r: RunId)
    requires RunsOk(s) && NobodyMisses(s) && Enabled(s, Pushed(k, tail, delta, trigger, n, r))
    requires k in s.settled && s.settled[k] in s.tree
    ensures NobodyMisses(Push(s, k, tail, delta, trigger, n, r))
  {
    var s' := Push(s, k, tail, delta, trigger, n, r);
    PushGrows(s, k, tail, delta, trigger, n, r);
    OldPointsDescend(s, s'.tree);
    ChildDescends(s, k, s.settled[k], n, s'.tree);
    AttachPointsDescend(s, s');
  }

  lemma ChildDescends(s: State, k: Session, a: NodeId, n: NodeId, t: Tree)
    requires a in t && n in t && t[n].parent == Some(a) && DescendsFromInformed(s, k, a, t)
    ensures DescendsFromInformed(s, k, n, t)
  {}

  /** Every node a running cycle wrote descends from an informed attach point: its root. */
  lemma PathDescends(s: State, r: RunId, n: NodeId, t: Tree)
    requires RunsOk(s) && r in s.runs && s.runs[r].status == Running && n in s.runs[r].path && Extends(s.tree, t)
    ensures DescendsFromInformed(s, s.runs[r].session, n, t)
  {
    RootIsAbovePath(s, r, n);
    assert RunOk(s, r, s.runs[r]);
    AboveStable(s.tree, t, s.runs[r].Root(), n);
  }

  lemma SpawnMissesNobody(s: State, parent: RunId, n: NodeId, r: RunId)
    requires RunsOk(s) && NobodyMisses(s) && Enabled(s, Spawned(parent, n, r))
    ensures NobodyMisses(Next(s, Spawned(parent, n, r)))
  {
    hide NobodyMisses, DescendsFromInformed, RunsOk, Above;
    var s' := Next(s, Spawned(parent, n, r));
    var run := s.runs[parent];
    OneRunGrows(s, s', r);
    OldPointsDescend(s, s'.tree);
    PathDescends(s, parent, run.Tail(), s'.tree);
    ChildDescends(s, run.session, run.Tail(), n, s'.tree);
    AttachPointsDescend(s, s');
  }

  /** Steps that start no run, end no run and leave every attach point alone. */
  lemma QuietStepMissesNobody(s: State, s': State)
    requires RunsOk(s) && NobodyMisses(s) && Grows(s, s')
    requires s'.settled == s.settled && s'.runs.Keys == s.runs.Keys
    requires forall r <- s.runs :: s'.runs[r].status == s.runs[r].status
    ensures NobodyMisses(s')
  {
    hide NobodyMisses, DescendsFromInformed, RunsOk, Above;
    OldPointsDescend(s, s'.tree);
    forall r | r in s'.runs && s'.runs[r].status == Running
      ensures s'.runs[r].Started() && DescendsFromInformed(s, s'.runs[r].session, s'.runs[r].Root(), s'.tree)
    {
      assert Evolved(s.runs[r], s'.runs[r]) && s.runs[r].Started();
    }
    AttachPointsDescend(s, s');
  }

  lemma ReleaseMissesNobody(s: State, r: RunId, status: Status)
    requires RunsOk(s) && NobodyMisses(s) && Enabled(s, Released(r, status))
    ensures NobodyMisses(Release(s, r, status))
  {
    hide NobodyMisses, DescendsFromInformed, RunsOk, Above;
    var s' := Release(s, r, status);
    ReleaseGrows(s, Released(r, status));
    OldPointsDescend(s, s'.tree);
    PathDescends(s, r, s.runs[r].Tail(), s'.tree);
    AttachPointsDescend(s, s');
  }

  lemma RunningIsInformed(s: State, p: RunId)
    requires NobodyMisses(s) && p in s.runs && s.runs[p].status == Running
    ensures s.runs[p].Started() && Informed(s, s.runs[p].session, s.runs[p].Root())
  {}

  lemma FinishedSessionsStaySettled(s: State, r: RunId, head: NodeId)
    requires NobodyMisses(s) && r in s.runs
    ensures var s' := Finish(s, r, head);
            forall f | f in s'.runs && s'.runs[f].status == Done :: s'.runs[f].session in s'.settled
  {
    FinishShape(s, r, head);
    hide Finish, Informed;
  }

  /** `finish_run`: a peer either sees the advanced tail or is in the fan-out, never neither. */
  lemma FinishMissesNobody(s: State, r: RunId, head: NodeId)
    requires RunsOk(s) && NobodyMisses(s) && Enabled(s, Finished(r, head))
    ensures NobodyMisses(Finish(s, r, head))
  {
    hide RunsOk, RunOk, Grows, Informed, Above, Finish, IsPath;
    FinishedSessionsStaySettled(s, r, head);
    SessionsStayInformed(s, r, head);
    PeersStayInformed(s, r, head);
  }

  lemma SessionsStayInformed(s: State, r: RunId, head: NodeId)
    requires RunsOk(s) && NobodyMisses(s) && Enabled(s, Finished(r, head))
    ensures var s' := Finish(s, r, head);
            forall j | j in s'.settled :: Informed(s', j, s'.settled[j])
  {
    hide RunsOk, RunOk, Grows, Informed, Above, Finish, IsPath, NobodyMisses;
    FinishGrows(s, r, head);
    RunIsOk(s, r);
    RootIsAbovePath(s, r, head);
    FinishShape(s, r, head);
    var s' := Finish(s, r, head);
    forall j | j in s'.settled
      ensures Informed(s', j, s'.settled[j])
    {
      SessionStaysInformed(s, r, head, j);
    }
  }

  lemma PeersStayInformed(s: State, r: RunId, head: NodeId)
    requires RunsOk(s) && NobodyMisses(s) && Enabled(s, Finished(r, head))
    ensures var s' := Finish(s, r, head);
            forall p | p in s'.runs && s'.runs[p].status == Running ::
              s'.runs[p].Started() && Informed(s', s'.runs[p].session, s'.runs[p].Root())
  {
    hide RunsOk, RunOk, Grows, Informed, Above, Finish, IsPath, NobodyMisses;
    FinishGrows(s, r, head);
    FinishShape(s, r, head);
    var s' := Finish(s, r, head);
    forall p | p in s'.runs && s'.runs[p].status == Running
      ensures s'.runs[p].Started() && Informed(s', s'.runs[p].session, s'.runs[p].Root())
    {
      RunIsOk(s, p);
      RunningIsInformed(s, p);
      PeerStaysInformed(s, r, head, p);
    }
  }

  lemma SessionStaysInformed(s: State, r: RunId, head: NodeId, j: Session)
    requires Enabled(s, Finished(r, head)) && Grows(s, Finish(s, r, head)) && NobodyMisses(s)
    requires j in s.settled || j == s.runs[r].session
    requires Above(s.tree, s.runs[r].Root(), head)
    ensures Informed(Finish(s, r, head), j, if j == s.runs[r].session then head else s.settled[j])
  {
    var s' := Finish(s, r, head);
    var from, n := s.runs[r].Root(), head;
    if j != s.runs[r].session {
      from, n := s.settled[j], s.settled[j];
    }
    assert s'.tree == s.tree && (n in s.tree ==> Above(s'.tree, n, n));
    OthersStayInformed(s, s', r, j, from, n);
  }

  lemma PeerStaysInformed(s: State, r: RunId, head: NodeId, p: RunId)
    requires Enabled(s, Finished(r, head)) && Grows(s, Finish(s, r, head)) && p in s.runs && RunOk(s, p, s.runs[p])
    requires p != r && s.runs[p].status == Running && Informed(s, s.runs[p].session, s.runs[p].Root())
    ensures Informed(Finish(s, r, head), s.runs[p].session, s.runs[p].Root())
  {}

  /** Apart from `r` itself, what `a` covered before `r` finished `n` below it covers now. */
  lemma OthersStayInformed(s: State, s': State, r: RunId, k: Session, a: NodeId, n: NodeId)
    requires Grows(s, s') && Informed(s, k, a) && (a in s.tree ==> Above(s'.tree, a, n))
    requires r in s'.runs && (s'.runs[r].session == k ==> Covers(s', n, r))
    requires forall f | f in s'.runs && s'.runs[f].status == Done && f != r :: f in s.runs && s.runs[f].status == Done
    ensures Informed(s', k, n)
  {
    forall f | f in s'.runs && s'.runs[f].status == Done && s'.runs[f].session == k ensures Covers(s', n, f) {
      if f != r {
        assert Evolved(s.runs[f], s'.runs[f]) && Covers(s, a, f);
        CoversCarries(s, s', a, n, f);
      }
    }
  }

  predicate Quiet(e: Event) {
    e.Admitted? || e.Wrote? || e.Drained? || e.LeftAfterFinish? || e.Nudged? || e.Inserted? || e.Amended?
  }

  lemma StatusStays(s: State, e: Event)
    requires Enabled(s, e) && Quiet(e)
    ensures Next(s, e).settled == s.settled && Next(s, e).runs.Keys == s.runs.Keys
    ensures forall r <- s.runs :: Next(s, e).runs[r].status == s.runs[r].status
  {}

  lemma QuietEventMissesNobody(s: State, e: Event)
    requires RunsOk(s) && NobodyMisses(s) && Enabled(s, e) && Quiet(e)
    ensures NobodyMisses(Next(s, e))
  {
    hide NobodyMisses, RunsOk, Grows, Next;
    NextGrows(s, e);
    StatusStays(s, e);
    QuietStepMissesNobody(s, Next(s, e));
  }

  lemma NextMissesNobody(s: State, e: Event)
    requires RunsOk(s) && NobodyMisses(s) && Enabled(s, e)
    ensures NobodyMisses(Next(s, e))
  {
    hide NobodyMisses;
    if Quiet(e) {
      QuietEventMissesNobody(s, e);
    } else {
      match e {
        case Pushed(k, tail, delta, trigger, n, r) => PushMissesNobody(s, k, tail, delta, trigger, n, r);
        case Spawned(parent, n, r) => SpawnMissesNobody(s, parent, n, r);
        case Finished(r, head) => FinishMissesNobody(s, r, head);
        case Released(r, status) => ReleaseMissesNobody(s, r, status);
      }
    }
  }

  // ----- The other invariants -----

  lemma UnchangedRunOk(s: State, s': State, r: RunId, run: Run)
    requires RunOk(s, r, run) && Extends(s.tree, s'.tree) && s.settled.Keys <= s'.settled.Keys
    requires r in s'.live <==> r in s.live
    ensures RunOk(s', r, run)
  {}

  /** At most run `r` changes, is added, or leaves `live`. */
  lemma OneRunKeepsRunsOk(s: State, s': State, r: RunId)
    requires RunsOk(s) && Extends(s.tree, s'.tree) && s.settled.Keys <= s'.settled.Keys
    requires s'.runs.Keys == s.runs.Keys + {r} && forall p <- s.runs :: p != r ==> s'.runs[p] == s.runs[p]
    requires forall p :: p != r ==> (p in s'.live <==> p in s.live)
    requires RunOk(s', r, s'.runs[r])
    ensures RunsOk(s')
  {}

  lemma PushKeepsRunsOk(s: State, k: Session, tail: NodeId, delta: Delta, trigger: bool, n: NodeId, r: RunId)
    requires RunsOk(s) && Enabled(s, Pushed(k, tail, delta, trigger, n, r))
    ensures RunsOk(Push(s, k, tail, delta, trigger, n, r))
  {
    var s' := Push(s, k, tail, delta, trigger, n, r);
    if trigger && AttachPoint(s, k, tail) in s.tree {
      OneRunKeepsRunsOk(s, s', r);
    } else {
      forall p | p in s'.runs ensures RunOk(s', p, s'.runs[p]) {
        UnchangedRunOk(s, s', p, s.runs[p]);
      }
    }
  }

  lemma WriteKeepsRunsOk(s: State, r: RunId, n: NodeId)
    requires RunsOk(s) && Enabled(s, Wrote(r, n))
    ensures RunsOk(Write(s, r, n))
  {}

  lemma FinishKeepsRunsOk(s: State, r: RunId, head: NodeId)
    requires RunsOk(s) && Enabled(s, Finished(r, head))
    ensures RunsOk(Finish(s, r, head))
  {
    var s' := Finish(s, r, head);
    FinishShape(s, r, head);
    forall p | p in s'.runs
      ensures RunOk(s', p, s'.runs[p])
    {
      hide RunsOk, RunOk, Finish;
      RunIsOk(s, p);
      FinishKeepsRunOk(s, r, head, p);
    }
    hide RunOk, Finish;
  }

  lemma FinishKeepsRunOk(s: State, r: RunId, head: NodeId, p: RunId)
    requires Enabled(s, Finished(r, head)) && p in s.runs && RunOk(s, p, s.runs[p])
    ensures RunOk(Finish(s, r, head), p, Finish(s, r, head).runs[p])
  {
    FinishShape(s, r, head);
    hide IsPath, InboxOk;
    ReceivingKeepsInboxOk(s.runs[p], Digest(r));
  }

  lemma ReceivingKeepsInboxOk(run: Run, x: Exogenous)
    requires InboxOk(run)
    ensures InboxOk(run.Receive(x))
  {}

  lemma TakingKeepsInboxOk(run: Run)
    requires InboxOk(run) && run.inbox != []
    ensures InboxOk(run.(inbox := run.inbox[1..]))
  {}

  lemma NextKeepsRunsOk(s: State, e: Event)
    requires RunsOk(s) && Enabled(s, e)
    ensures RunsOk(Next(s, e))
  {
    var s' := Next(s, e);
    match e {
      case Pushed(k, tail, delta, trigger, n, r) => PushKeepsRunsOk(s, k, tail, delta, trigger, n, r);
      case Spawned(_, n, r) => OneRunKeepsRunsOk(s, s', r);
      case Wrote(r, n) => WriteKeepsRunsOk(s, r, n);
      case Finished(r, head) => FinishKeepsRunsOk(s, r, head);
      case Drained(r, n) => DrainKeepsRunsOk(s, r, n);
      case Nudged(target, from) => NudgeKeepsRunsOk(s, target, from);
      case Inserted(_, _, _) => TreeKeepsRunsOk(s, Next(s, e));
      case Amended(_, _) => TreeKeepsRunsOk(s, Next(s, e));
      case Admitted(r) => AdmitKeepsRunsOk(s, r);
      case LeftAfterFinish(r) => LeaveKeepsRunsOk(s, r);
      case Released(r, status) => ReleaseKeepsRunsOk(s, r, status);
    }
  }

  lemma AdmitKeepsRunsOk(s: State, r: RunId)
    requires RunsOk(s) && Enabled(s, Admitted(r))
    ensures RunsOk(Admit(s, r))
  {}

  lemma LeaveKeepsRunsOk(s: State, r: RunId)
    requires RunsOk(s) && Enabled(s, LeftAfterFinish(r))
    ensures RunsOk(Leave(s, r))
  {}

  lemma ReleaseKeepsRunsOk(s: State, r: RunId, status: Status)
    requires RunsOk(s) && Enabled(s, Released(r, status))
    ensures RunsOk(Release(s, r, status))
  {}

  lemma DrainKeepsRunsOk(s: State, r: RunId, n: NodeId)
    requires RunsOk(s) && Enabled(s, Drained(r, n))
    ensures RunsOk(DrainOne(s, r, n))
  {
    var s1, s' := Write(s, r, n), DrainOne(s, r, n);
    WriteKeepsRunsOk(s, r, n);
    RunIsOk(s1, r);
    assert s1.runs[r].inbox == s.runs[r].inbox;
    hide RunsOk, Write, IsPath, InboxOk;
    TakingKeepsInboxOk(s1.runs[r]);
    OneRunKeepsRunsOk(s1, s', r);
  }

  lemma TreeKeepsRunsOk(s: State, s': State)
    requires RunsOk(s) && Extends(s.tree, s'.tree) && s' == s.(tree := s'.tree)
    ensures RunsOk(s')
  {
    forall r | r in s'.runs
      ensures RunOk(s', r, s'.runs[r])
    {
      UnchangedRunOk(s, s', r, s.runs[r]);
    }
  }

  lemma NudgeKeepsRunsOk(s: State, target: RunId, from: RunId)
    requires RunsOk(s) && Enabled(s, Nudged(target, from))
    ensures RunsOk(NudgeRun(s, target, from))
  {
    if NudgeAccepted(s, target, from) {
      RunIsOk(s, target);
      hide RunsOk, IsPath, InboxOk;
      ReceivingKeepsInboxOk(s.runs[target], Nudge(from));
      OneRunKeepsRunsOk(s, NudgeRun(s, target, from), target);
    }
  }

  /** The path of at most one run changes, and only by a node that did not exist before. */
  lemma PathsStayDisjoint(s: State, s': State, r: RunId, n: NodeId)
    requires RunsOk(s) && PathsDisjoint(s) && s.runs.Keys <= s'.runs.Keys <= s.runs.Keys + {r}
    requires forall p <- s.runs :: p != r ==> s'.runs[p].path == s.runs[p].path
    requires r in s'.runs ==>
               (r in s.runs && s'.runs[r].path == s.runs[r].path)
               || (n !in s.tree && s'.runs[r].path == (if r in s.runs then s.runs[r].path else []) + [n])
    ensures PathsDisjoint(s')
  {
    forall p | p in s.runs
      ensures forall m <- s.runs[p].path :: m in s.tree
    {
      RunIsOk(s, p);
    }
    hide RunsOk;
  }

  lemma SamePathsDisjoint(s: State, s': State)
    requires PathsDisjoint(s) && s'.runs.Keys == s.runs.Keys
    requires forall r <- s.runs :: s'.runs[r].path == s.runs[r].path
    ensures PathsDisjoint(s')
  {}

  lemma InsertsKeepPathsDisjoint(s: State, e: Event)
    requires RunsOk(s) && PathsDisjoint(s) && Enabled(s, e) && (e.Pushed? || e.Spawned?)
    ensures PathsDisjoint(Next(s, e))
  {
    hide PathsDisjoint, RunsOk;
    match e {
      case Pushed(_, _, _, _, n, r) => PathsStayDisjoint(s, Next(s, e), r, n);
      case Spawned(_, n, r) => PathsStayDisjoint(s, Next(s, e), r, n);
    }
  }

  lemma WritesKeepPathsDisjoint(s: State, e: Event)
    requires RunsOk(s) && PathsDisjoint(s) && Enabled(s, e) && (e.Wrote? || e.Drained?)
    ensures PathsDisjoint(Next(s, e))
  {
    hide PathsDisjoint, RunsOk;
    match e {
      case Wrote(r, n) => PathsStayDisjoint(s, Next(s, e), r, n);
      case Drained(r, n) => PathsStayDisjoint(s, Next(s, e), r, n);
    }
  }

  lemma NextKeepsPathsDisjoint(s: State, e: Event)
    requires RunsOk(s) && PathsDisjoint(s) && Enabled(s, e)
    ensures PathsDisjoint(Next(s, e))
  {
    hide PathsDisjoint, RunsOk;
    if e.Pushed? || e.Spawned? {
      InsertsKeepPathsDisjoint(s, e);
    } else if e.Wrote? || e.Drained? {
      WritesKeepPathsDisjoint(s, e);
    } else {
      SamePathsDisjoint(s, Next(s, e));
    }
  }

  /** What was given before is still in order; what is new has to be. */
  lemma LettersStayOk(s: State, s': State)
    requires PostOk(s) && Grows(s, s')
    requires forall r, i | r in s'.runs && 0 <= i < |s'.runs[r].given| && (r in s.runs ==> i >= |s.runs[r].given|) ::
               LetterOk(s', r, s'.runs[r].given[i])
    ensures PostOk(s')
  {
    hide Extends;
    forall r, i | r in s'.runs && 0 <= i < |s'.runs[r].given|
      ensures LetterOk(s', r, s'.runs[r].given[i])
    {
      if r in s.runs && i < |s.runs[r].given| {
        assert Evolved(s.runs[r], s'.runs[r]) && LetterOk(s, r, s.runs[r].given[i]);
      }
    }
  }

  lemma FinishKeepsPostOk(s: State, r: RunId, head: NodeId)
    requires RunsOk(s) && PostOk(s) && Enabled(s, Finished(r, head))
    ensures PostOk(Finish(s, r, head))
  {
    FinishGrows(s, r, head);
    FinishShape(s, r, head);
    hide RunsOk, Finish, PostOk, Grows;
    LettersStayOk(s, Finish(s, r, head));
  }

  lemma NextKeepsPostOk(s: State, e: Event)
    requires RunsOk(s) && PostOk(s) && Enabled(s, e)
    ensures PostOk(Next(s, e))
  {
    hide RunsOk, PostOk, Grows, Finish;
    if e.Finished? {
      FinishKeepsPostOk(s, e.r, e.head);
    } else {
      NextGrows(s, e);
      LettersStayOk(s, Next(s, e));
    }
  }

  lemma SamePhases(s: State, s': State)
    requires SlotsOk(s) && s'.active == s.active && s'.slots == s.slots
    requires s.runs.Keys <= s'.runs.Keys && forall r <- s.runs :: s'.runs[r].phase == s.runs[r].phase
    requires forall r | r in s'.runs && r !in s.runs :: s'.runs[r].phase == Waiting
    ensures SlotsOk(s')
  {
    assert ExecutingRuns(s') == ExecutingRuns(s);
  }

  lemma AdmitKeepsSlotsOk(s: State, r: RunId)
    requires SlotsOk(s) && Enabled(s, Admitted(r))
    ensures SlotsOk(Admit(s, r))
  {
    assert ExecutingRuns(Admit(s, r)) == ExecutingRuns(s) + {r};
  }

  lemma EndKeepsSlotsOk(s: State, s': State, r: RunId)
    requires SlotsOk(s) && s'.active == s.active - 1 && s'.slots == s.slots
    requires r in s.runs && s.runs[r].phase == Executing && r in s'.runs && s'.runs[r].phase == Left
    requires s'.runs.Keys == s.runs.Keys && forall p <- s.runs :: p != r ==> s'.runs[p] == s.runs[p]
    ensures SlotsOk(s')
  {
    assert ExecutingRuns(s') == ExecutingRuns(s) - {r};
  }

  lemma OutsideKeepsSlotsOk(s: State, e: Event)
    requires SlotsOk(s) && Enabled(s, e) && (e.Nudged? || e.Inserted? || e.Amended?)
    ensures SlotsOk(Next(s, e)) && Next(s, e).slots == s.slots
  {
    hide SlotsOk;
    SamePhases(s, Next(s, e));
  }

  lemma WritesKeepSlotsOk(s: State, e: Event)
    requires SlotsOk(s) && Enabled(s, e) && (e.Pushed? || e.Spawned? || e.Wrote? || e.Drained? || e.Finished?)
    ensures SlotsOk(Next(s, e)) && Next(s, e).slots == s.slots
  {
    hide SlotsOk;
    SamePhases(s, Next(s, e));
  }

  lemma NextKeepsSlotsOk(s: State, e: Event)
    requires SlotsOk(s) && Enabled(s, e)
    ensures SlotsOk(Next(s, e)) && Next(s, e).slots == s.slots
  {
    hide SlotsOk;
    match e {
      case Admitted(r) => AdmitKeepsSlotsOk(s, r);
      case LeftAfterFinish(r) => EndKeepsSlotsOk(s, Leave(s, r), r);
      case Released(r, status) => EndKeepsSlotsOk(s, Release(s, r, status), r);
      case Nudged(_, _) => OutsideKeepsSlotsOk(s, e);
      case Inserted(_, _, _) => OutsideKeepsSlotsOk(s, e);
      case Amended(_, _) => OutsideKeepsSlotsOk(s, e);
      case _ => WritesKeepSlotsOk(s, e);
    }
  }

  lemma NextKeepsInv(s: State, e: Event)
    requires Inv(s) && Enabled(s, e)
    ensures Inv(Next(s, e))
  {
    hide NobodyMisses, RunsOk, PathsDisjoint, PostOk, SlotsOk;
    NextMissesNobody(s, e);
    NextKeepsRunsOk(s, e);
    NextKeepsPathsDisjoint(s, e);
    NextKeepsPostOk(s, e);
    NextKeepsSlotsOk(s, e);
  }
}
