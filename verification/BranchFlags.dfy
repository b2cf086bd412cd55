/** Branch flags over the conversation tree (TinyCTX/db.py, `flag_branch`): the walk that stops
    early flags what the walk to the root would, and no node is ever reported twice. */
module BranchFlags {
  import opened ConversationTree
  import opened Sequences

  predicate HasFlag(t: Tree, n: NodeId, flag: string) {
    n in t && flag in t[n].flags
  }

  /** The nodes `flag_branch` visits and flags: up the chain until one has the flag. */
  function Unflagged(t: Tree, n: NodeId, flag: string): (ns: seq<NodeId>)
    ensures forall m :: m in ns ==> m in t && m <= n && Above(t, m, n) && !HasFlag(t, m, flag)
    decreases n
  {
    if n !in t || HasFlag(t, n, flag) then []
    else if t[n].parent.None? then [n]
    else [n] + Unflagged(t, t[n].parent.value, flag)
  }

  function AddFlag(t: Tree, ns: set<NodeId>, flag: string): (t': Tree)
    ensures Extends(t, t') && Extends(t', t)
    ensures forall n, f :: HasFlag(t', n, f) <==> HasFlag(t, n, f) || (f == flag && n in ns && n in t)
  {
    map n | n in t :: if n in ns then t[n].(flags := t[n].flags + [flag]) else t[n]
  }

  lemma AddFlagOnceMore(t: Tree, ns: seq<NodeId>, n: NodeId, flag: string)
    requires n !in ns
    ensures AddFlag(AddFlag(t, Elements(ns), flag), {n}, flag) == AddFlag(t, Elements(ns + [n]), flag)
  {}

  lemma UnflaggedStep(t: Tree, n: NodeId, flag: string)
    ensures Unflagged(t, n, flag)
         == if n !in t || HasFlag(t, n, flag) then []
            else if t[n].parent.None? then [n] else [n] + Unflagged(t, t[n].parent.value, flag)
  {}

  lemma NotFlaggedYet(t: Tree, ns: seq<NodeId>, n: NodeId, flag: string)
    requires n !in ns
    ensures HasFlag(AddFlag(t, Elements(ns), flag), n, flag) == HasFlag(t, n, flag)
  {}

  lemma NothingToFlag(t: Tree, flag: string)
    ensures AddFlag(t, Elements([]), flag) == t
  {}

  /** Effect of `flag_branch`. */
  function FlagUpToFlagged(t: Tree, n: NodeId, flag: string): Tree {
    AddFlag(t, Elements(Unflagged(t, n, flag)), flag)
  }

  /** Effect of flagging the whole chain to the root. */
  function FlagWholeChain(t: Tree, n: NodeId, flag: string): Tree {
    AddFlag(t, (set m | m in t && Above(t, m, n) && !HasFlag(t, m, flag)), flag)
  }

  /** The parent of a flagged node is flagged. */
  ghost predicate ClosedUpward(t: Tree, flag: string) {
    forall n {:trigger t[n].parent, HasFlag(t, n, flag)} ::
      HasFlag(t, n, flag) && t[n].parent.Some? ==> HasFlag(t, t[n].parent.value, flag)
  }

  lemma {:induction false} FlaggedAbove(t: Tree, m: NodeId, n: NodeId, flag: string)
    requires ClosedUpward(t, flag) && HasFlag(t, n, flag) && Above(t, m, n)
    ensures HasFlag(t, m, flag)
    decreases n
  {
    if m != n {
      FlaggedAbove(t, m, t[n].parent.value, flag);
    }
  }

  lemma {:induction false} UnflaggedIsWholeChain(t: Tree, m: NodeId, n: NodeId, flag: string)
    requires ClosedUpward(t, flag) && Above(t, m, n) && !HasFlag(t, m, flag)
    ensures m in Unflagged(t, n, flag)
    decreases n
  {
    if HasFlag(t, n, flag) {
      FlaggedAbove(t, m, n, flag);
    } else if m != n {
      UnflaggedIsWholeChain(t, m, t[n].parent.value, flag);
    }
  }

  /** Stopping at the first flagged node is as good as flagging the whole chain, from every
      node, exactly when the flagged set is closed under parents. */
  lemma EarlyStopIsSoundIffClosed(t: Tree, flag: string)
    ensures (forall n :: FlagUpToFlagged(t, n, flag) == FlagWholeChain(t, n, flag)) <==> ClosedUpward(t, flag)
  {
    if ClosedUpward(t, flag) {
      forall n ensures FlagUpToFlagged(t, n, flag) == FlagWholeChain(t, n, flag) {
        forall m | m in t && Above(t, m, n) && !HasFlag(t, m, flag) ensures m in Unflagged(t, n, flag) {
          UnflaggedIsWholeChain(t, m, n, flag);
        }
        assert Elements(Unflagged(t, n, flag)) == (set m | m in t && Above(t, m, n) && !HasFlag(t, m, flag));
      }
    } else {
      var n :| HasFlag(t, n, flag) && t[n].parent.Some? && !HasFlag(t, t[n].parent.value, flag);
      var p := t[n].parent.value;
      assert Above(t, p, p) && Above(t, p, n);
      assert HasFlag(FlagWholeChain(t, n, flag), p, flag) && !HasFlag(FlagUpToFlagged(t, n, flag), p, flag);
    }
  }

  lemma {:induction false} UnflaggedLeavesNoGap(t: Tree, n: NodeId, flag: string, m: NodeId)
    requires m in Unflagged(t, n, flag) && t[m].parent.Some?
    ensures HasFlag(t, t[m].parent.value, flag) || t[m].parent.value in Unflagged(t, n, flag)
    decreases n
  {
    if m != n {
      UnflaggedLeavesNoGap(t, t[n].parent.value, flag, m);
    } else {
      assert n in t && t[n].parent.value in t;
    }
  }

  lemma FlaggingKeepsClosed(t: Tree, n: NodeId, flag: string)
    requires ClosedUpward(t, flag)
    ensures ClosedUpward(FlagUpToFlagged(t, n, flag), flag)
  {
    var t' := FlagUpToFlagged(t, n, flag);
    forall m | HasFlag(t', m, flag) && t'[m].parent.Some? ensures HasFlag(t', t'[m].parent.value, flag) {
      if m in Unflagged(t, n, flag) {
        UnflaggedLeavesNoGap(t, n, flag, m);
      }
      assert t'[m].parent == t[m].parent;
    }
  }

  function Flagged(t: Tree, flag: string): set<NodeId> {
    set n | n in t && HasFlag(t, n, flag)
  }

  lemma {:induction false} UnflaggedHasNoRepeats(t: Tree, n: NodeId, flag: string)
    ensures |Elements(Unflagged(t, n, flag))| == |Unflagged(t, n, flag)|
    decreases n
  {
    var ns := Unflagged(t, n, flag);
    if |ns| > 1 {
      var above := Unflagged(t, t[n].parent.value, flag);
      UnflaggedHasNoRepeats(t, t[n].parent.value, flag);
      assert ns == [n] + above && Elements(ns) == {n} + Elements(above);
      assert n !in above;
    } else if |ns| == 1 {
      assert Elements(ns) == {ns[0]};
    }
  }

  datatype FlagStep = Grow(parent: NodeId, id: NodeId, delta: Delta) | FlagFrom(node: NodeId)

  ghost predicate FlagStepped(t: Tree, step: FlagStep, t': Tree, flag: string) {
    match step
    case Grow(parent, id, delta) => Fresh(t, id) && parent in t && t' == Insert(t, id, parent, delta)
    case FlagFrom(node) => t' == FlagUpToFlagged(t, node, flag)
  }

  ghost predicate FlagHistory(ts: seq<Tree>, steps: seq<FlagStep>, flag: string) {
    |ts| == |steps| + 1
    && Flagged(ts[0], flag) == {}
    && forall i | 0 <= i < |steps| :: FlagStepped(ts[i], steps[i], ts[i + 1], flag)
  }

  /** The list `flag_branch` returned at step `i`; nothing for an insertion. */
  ghost function Returned(ts: seq<Tree>, steps: seq<FlagStep>, flag: string, i: nat): seq<NodeId>
    requires |ts| == |steps| + 1 && i < |steps|
  {
    if steps[i].FlagFrom? then Unflagged(ts[i], steps[i].node, flag) else []
  }

  ghost function TotalReturned(ts: seq<Tree>, steps: seq<FlagStep>, flag: string, i: nat): nat
    requires |ts| == |steps| + 1 && i <= |steps|
  {
    if i == 0 then 0 else TotalReturned(ts, steps, flag, i - 1) + |Returned(ts, steps, flag, i - 1)|
  }

  /** Over every history of insertions and `flag_branch` calls the flagged set stays closed
      under parents, and the lengths of all lists returned so far add up to its size: no node is
      returned twice, and all the calls together do no more flagging than there are nodes. */
  lemma {:induction false} FlaggingWorkIsBounded(ts: seq<Tree>, steps: seq<FlagStep>, flag: string, i: nat)
    requires FlagHistory(ts, steps, flag) && i <= |steps|
    ensures ClosedUpward(ts[i], flag)
    ensures TotalReturned(ts, steps, flag, i) == |Flagged(ts[i], flag)| <= |ts[i]|
  {
    hide ClosedUpward, FlagStepped, Flagged;
    if i == 0 {
      NothingFlagged(ts[0], flag);
    } else {
      FlaggingWorkIsBounded(ts, steps, flag, i - 1);
      assert FlagStepped(ts[i - 1], steps[i - 1], ts[i], flag);
      FlaggingStep(ts[i - 1], steps[i - 1], ts[i], flag);
    }
    FlaggedAreNodes(ts[i], flag);
  }

  lemma NothingFlagged(t: Tree, flag: string)
    requires Flagged(t, flag) == {}
    ensures ClosedUpward(t, flag)
  {
    forall n ensures HasFlag(t, n, flag) <==> n in Flagged(t, flag) {}
  }

  lemma FlaggingStep(t: Tree, step: FlagStep, t': Tree, flag: string)
    requires FlagStepped(t, step, t', flag) && ClosedUpward(t, flag)
    ensures ClosedUpward(t', flag)
    ensures |Flagged(t', flag)| == |Flagged(t, flag)| + if step.FlagFrom? then |Unflagged(t, step.node, flag)| else 0
  {
    match step {
      case Grow(parent, id, delta) => GrowingFlagsNothing(t, parent, id, delta, flag);
      case FlagFrom(node) => FlaggingFlagsTheReturned(t, node, flag);
    }
  }

  lemma GrowingFlagsNothing(t: Tree, parent: NodeId, id: NodeId, delta: Delta, flag: string)
    requires Fresh(t, id) && parent in t && ClosedUpward(t, flag)
    ensures ClosedUpward(Insert(t, id, parent, delta), flag)
    ensures Flagged(Insert(t, id, parent, delta), flag) == Flagged(t, flag)
  {
    var t' := Insert(t, id, parent, delta);
    forall n ensures HasFlag(t', n, flag) <==> HasFlag(t, n, flag) {}
  }

  lemma FlaggingFlagsTheReturned(t: Tree, n: NodeId, flag: string)
    requires ClosedUpward(t, flag)
    ensures ClosedUpward(FlagUpToFlagged(t, n, flag), flag)
    ensures |Flagged(FlagUpToFlagged(t, n, flag), flag)| == |Flagged(t, flag)| + |Unflagged(t, n, flag)|
  {
    FlaggingKeepsClosed(t, n, flag);
    UnflaggedHasNoRepeats(t, n, flag);
    assert Flagged(FlagUpToFlagged(t, n, flag), flag) == Flagged(t, flag) + Elements(Unflagged(t, n, flag));
    assert Flagged(t, flag) !! Elements(Unflagged(t, n, flag));
  }

  lemma FlaggedAreNodes(t: Tree, flag: string)
    ensures |Flagged(t, flag)| <= |t|
  {
    var rest := t.Keys - Flagged(t, flag);
    assert t.Keys == Flagged(t, flag) + rest;
  }

  /** The lists returned by two calls of one history have no node in common. */
  lemma {:induction false} ReturnedListsAreDisjoint(ts: seq<Tree>, steps: seq<FlagStep>, flag: string,
                                                    i: nat, j: nat, n: NodeId)
    requires FlagHistory(ts, steps, flag) && i < j < |steps|
    requires n in Returned(ts, steps, flag, i)
    ensures HasFlag(ts[j], n, flag) && n !in Returned(ts, steps, flag, j)
    decreases j
  {
    if i + 1 < j {
      ReturnedListsAreDisjoint(ts, steps, flag, i, j - 1, n);
      StepKeepsFlag(ts, steps, flag, j - 1, n);
    } else {
      assert ts[i + 1] == FlagUpToFlagged(ts[i], steps[i].node, flag);
    }
  }

  lemma StepKeepsFlag(ts: seq<Tree>, steps: seq<FlagStep>, flag: string, i: nat, n: NodeId)
    requires FlagHistory(ts, steps, flag) && i < |steps| && HasFlag(ts[i], n, flag)
    ensures HasFlag(ts[i + 1], n, flag)
  {}
}
