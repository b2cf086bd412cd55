/** Checkpoints over whole histories of writes (TinyCTX/db.py): when they could be left out without any
    read showing it. */
module CheckpointHistory {
  import opened Outcomes
  import opened ConversationTree
  import opened SessionState

  datatype Write =
    | Add(parent: NodeId, id: NodeId, delta: Delta)
    | Set(node: NodeId, key: string, value: Json)
    | Checkpoint(at: NodeId, state: Delta)

  ghost predicate Writable(t: Tree, w: Write) {
    match w
    case Add(parent, id, _) => Fresh(t, id) && parent in t
    case Set(node, key, _) => node in t && key != CHECKPOINT
    case Checkpoint(at, state) => at in t && IsStateAt(state, t, at)
  }

  ghost function Written(t: Tree, w: Write): Tree
    requires Writable(t, w)
  {
    match w
    case Add(parent, id, delta) => Insert(t, id, parent, delta)
    case Set(node, key, value) => SetKey(t, node, key, value)
    case Checkpoint(at, state) => Compact(t, at, state)
  }

  /** No checkpoint lies strictly below `n`. */
  ghost predicate NoMarkerBelow(t: Tree, n: NodeId) {
    forall m <- t :: m != n && Above(t, n, m) ==> !IsCheckpoint(t[m].delta)
  }

  /** `ts` lists the table before the first write and after each of them. */
  ghost predicate History(ts: seq<Tree>, ws: seq<Write>) {
    |ts| == |ws| + 1
    && forall i | 0 <= i < |ws| :: Writable(ts[i], ws[i]) && ts[i + 1] == Written(ts[i], ws[i])
  }

  /** The table after the first `i` writes when the checkpoints among them are left out. */
  ghost function WithoutCheckpoints(t: Tree, ws: seq<Write>, i: nat): Tree
    requires i <= |ws|
  {
    if i == 0 then t
    else
      var before := WithoutCheckpoints(t, ws, i - 1);
      if ws[i - 1].Checkpoint? || !Writable(before, ws[i - 1]) then before else Written(before, ws[i - 1])
  }

  /** Each of the first `n` writes that is a `set_state` lands on a node with no checkpoint below it. */
  ghost predicate SetsBelowMarkers(ts: seq<Tree>, ws: seq<Write>, n: nat)
    requires n <= |ws| && |ts| == |ws| + 1
  {
    forall i | 0 <= i < n && ws[i].Set? :: NoMarkerBelow(ts[i], ws[i].node)
  }

  ghost predicate SameReads(t: Tree, u: Tree) {
    t.Keys == u.Keys && forall n, k :: n in t ==> Read(t, n, k) == Read(u, n, k)
  }

  /** `t` is `plain` with some rows replaced by checkpoints. */
  ghost predicate SameShape(t: Tree, plain: Tree) {
    t.Keys == plain.Keys && Extends(t, plain)
    && (forall n <- t :: t[n].delta != plain[n].delta ==> IsCheckpoint(t[n].delta))
  }

  /** From every node where the write would be seen without the checkpoints, it is seen, or the value it
      writes was read there already. */
  ghost predicate ReachesAll(t: Tree, plain: Tree, n: NodeId, key: string, v: Json) {
    forall m <- t :: ReadsThrough(plain, m, n, key) && !ReadsThrough(t, m, n, key) ==> Read(t, m, key) == Some(v)
  }

  /** What reaches a write past the checkpoints reaches it without them. */
  lemma {:induction false} ReachedWithoutCheckpoints(t: Tree, plain: Tree, m: NodeId, n: NodeId, key: string)
    requires SameShape(t, plain) && ReadsThrough(t, m, n, key)
    ensures ReadsThrough(plain, m, n, key)
    decreases m
  {
    if m != n {
      ReachedWithoutCheckpoints(t, plain, t[m].parent.value, n, key);
    }
  }

  /** One `set_state` keeps the reads equal exactly when it reaches all. */
  lemma SetIsUnnoticedIff(t: Tree, plain: Tree, n: NodeId, key: string, v: Json)
    requires SameReads(t, plain) && SameShape(t, plain) && n in t && key != CHECKPOINT
    ensures SameReads(SetKey(t, n, key, v), SetKey(plain, n, key, v)) <==> ReachesAll(t, plain, n, key, v)
  {
    var t1, p1 := SetKey(t, n, key, v), SetKey(plain, n, key, v);
    forall m, k | m in t
      ensures Read(t1, m, k) == Read(p1, m, k) <==>
                (k == key && ReadsThrough(plain, m, n, key) && !ReadsThrough(t, m, n, key) ==>
                   Read(t, m, key) == Some(v))
    {
      if ReadsThrough(t, m, n, key) {
        ReachedWithoutCheckpoints(t, plain, m, n, key);
      }
      SetKeyIsReadExactlyBelow(t, n, key, v, m, k);
      SetKeyIsReadExactlyBelow(plain, n, key, v, m, k);
    }
    hide Read, ReadsThrough, SetKey;
    if SameReads(t1, p1) {
      forall m | m in t && ReadsThrough(plain, m, n, key) && !ReadsThrough(t, m, n, key)
        ensures Read(t, m, key) == Some(v)
      {
        assert Read(t1, m, key) == Read(p1, m, key);
      }
    }
  }

  lemma AddIsUnnoticed(t: Tree, plain: Tree, parent: NodeId, id: NodeId, delta: Delta)
    requires SameReads(t, plain) && SameShape(t, plain) && Fresh(t, id) && parent in t
    ensures SameReads(Insert(t, id, parent, delta), Insert(plain, id, parent, delta))
  {
    var t1, p1 := Insert(t, id, parent, delta), Insert(plain, id, parent, delta);
    forall m, k | m in t
      ensures Read(t1, m, k) == Read(p1, m, k)
    {
      InsertedReads(t, id, parent, delta, m, k);
      InsertedReads(plain, id, parent, delta, m, k);
    }
  }

  lemma CheckpointIsUnnoticed(t: Tree, plain: Tree, n: NodeId, state: Delta)
    requires SameReads(t, plain) && n in t && IsStateAt(state, t, n)
    ensures SameReads(Compact(t, n, state), plain)
  {
    forall m, k | m in t
      ensures Read(Compact(t, n, state), m, k) == Read(plain, m, k)
    {
      CheckpointIsInvisible(t, n, state, m, k);
    }
  }

  /** Without its checkpoints the history can still make every other write, on the same rows. */
  lemma {:induction false} ShapeStays(ts: seq<Tree>, ws: seq<Write>, i: nat)
    requires History(ts, ws) && i <= |ws|
    ensures SameShape(ts[i], WithoutCheckpoints(ts[0], ws, i))
    ensures i < |ws| && !ws[i].Checkpoint? ==> Writable(WithoutCheckpoints(ts[0], ws, i), ws[i])
  {
    hide SameShape, SetKey, Compact, Insert, IsStateAt;
    if i == 0 {
      SameAsItself(ts[0]);
    } else {
      ShapeStays(ts, ws, i - 1);
      var t, p := ts[i - 1], WithoutCheckpoints(ts[0], ws, i - 1);
      match ws[i - 1] {
        case Add(parent, id, delta) => AddKeepsShape(t, p, parent, id, delta);
        case Set(node, key, value) => SetKeepsShape(t, p, node, key, value);
        case Checkpoint(at, state) => CheckpointKeepsShape(t, p, at, state);
      }
    }
    ShapeKeepsWritable(ts[i], WithoutCheckpoints(ts[0], ws, i));
  }

  lemma SameAsItself(t: Tree)
    ensures SameShape(t, t)
  {}

  lemma CheckpointKeepsShape(t: Tree, plain: Tree, n: NodeId, state: Delta)
    requires SameShape(t, plain) && n in t && IsStateAt(state, t, n)
    ensures SameShape(Compact(t, n, state), plain)
  {
    assert Get(state, CHECKPOINT) == Read(t, n, CHECKPOINT);
  }

  lemma ShapeKeepsWritable(t: Tree, plain: Tree)
    requires SameShape(t, plain)
    ensures forall w: Write :: Writable(t, w) && !w.Checkpoint? ==> Writable(plain, w)
  {}

  lemma AddKeepsShape(t: Tree, plain: Tree, parent: NodeId, id: NodeId, delta: Delta)
    requires SameShape(t, plain) && Fresh(t, id) && parent in t
    ensures SameShape(Insert(t, id, parent, delta), Insert(plain, id, parent, delta))
  {
    var t1, p1 := Insert(t, id, parent, delta), Insert(plain, id, parent, delta);
    forall m | m in t1
      ensures p1[m].parent == t1[m].parent
    {
      if m != id {
        assert p1[m] == plain[m] && t1[m] == t[m] && plain[m].parent == t[m].parent;
      }
    }
  }

  lemma SetKeepsShape(t: Tree, plain: Tree, n: NodeId, key: string, v: Json)
    requires SameShape(t, plain) && n in t && key != CHECKPOINT
    ensures SameShape(SetKey(t, n, key, v), SetKey(plain, n, key, v))
  {}

  ghost predicate SetReachesAll(ts: seq<Tree>, ws: seq<Write>, i: nat)
    requires i < |ws| && |ts| == |ws| + 1
  {
    ws[i].Set? ==> ReachesAll(ts[i], WithoutCheckpoints(ts[0], ws, i), ws[i].node, ws[i].key, ws[i].value)
  }

  ghost predicate SetsReachAll(ts: seq<Tree>, ws: seq<Write>, n: nat)
    requires n <= |ws| && |ts| == |ws| + 1
  {
    forall i | 0 <= i < n :: SetReachesAll(ts, ws, i)
  }

  ghost predicate UnnoticedAt(ts: seq<Tree>, ws: seq<Write>, i: nat)
    requires i <= |ws| && |ts| == |ws| + 1
  {
    SameReads(ts[i], WithoutCheckpoints(ts[0], ws, i))
  }

  /** Up to the `n`-th write no read shows whether there were checkpoints. */
  ghost predicate Unnoticed(ts: seq<Tree>, ws: seq<Write>, n: nat)
    requires n <= |ws| && |ts| == |ws| + 1
  {
    forall i | 0 <= i <= n :: UnnoticedAt(ts, ws, i)
  }

  lemma NextIsUnnoticedIff(ts: seq<Tree>, ws: seq<Write>, i: nat)
    requires History(ts, ws) && i < |ws| && UnnoticedAt(ts, ws, i)
    ensures UnnoticedAt(ts, ws, i + 1) <==> SetReachesAll(ts, ws, i)
  {
    hide Read, ReadsThrough, ReachesAll, SameReads, SameShape;
    ShapeStays(ts, ws, i);
    var t, p := ts[i], WithoutCheckpoints(ts[0], ws, i);
    match ws[i] {
      case Add(parent, id, delta) => AddIsUnnoticed(t, p, parent, id, delta);
      case Set(node, key, value) => SetIsUnnoticedIff(t, p, node, key, value);
      case Checkpoint(at, state) => CheckpointIsUnnoticed(t, p, at, state);
    }
  }

  /** Over every history: leaving all checkpoints out changes no read at any moment exactly when every
      `set_state` reaches all nodes it would reach without them, or tells them what they read already. */
  lemma {:induction false} CheckpointsAreErasableIff(ts: seq<Tree>, ws: seq<Write>, n: nat)
    requires History(ts, ws) && n <= |ws|
    ensures Unnoticed(ts, ws, n) <==> SetsReachAll(ts, ws, n)
  {
    hide UnnoticedAt, SetReachesAll;
    if n == 0 {
      NothingLeftOut(ts, ws);
    } else {
      CheckpointsAreErasableIff(ts, ws, n - 1);
      if Unnoticed(ts, ws, n - 1) {
        NextIsUnnoticedIff(ts, ws, n - 1);
      }
    }
  }

  lemma NothingLeftOut(ts: seq<Tree>, ws: seq<Write>)
    requires |ts| == |ws| + 1
    ensures Unnoticed(ts, ws, 0)
  {}

  // ----- A condition to check before the call -----

  ghost predicate NoMarkers(t: Tree) {
    forall m <- t :: !IsCheckpoint(t[m].delta)
  }

  /** No row defines the key. */
  ghost predicate Unused(t: Tree, key: string) {
    forall m <- t :: key !in t[m].delta
  }

  lemma {:induction false} UnusedReadsNothing(t: Tree, m: NodeId, key: string)
    requires Unused(t, key)
    ensures Read(t, m, key) == None
    decreases m
  {
    if m in t && t[m].parent.Some? {
      UnusedReadsNothing(t, t[m].parent.value, key);
    }
  }

  /** Where nothing stands in between, a write is seen exactly from below. */
  lemma {:induction false} SeenFromBelow(t: Tree, m: NodeId, n: NodeId, key: string)
    requires Unused(t, key) && NoMarkerBelow(t, n)
    ensures ReadsThrough(t, m, n, key) <==> Above(t, n, m)
    decreases m
  {
    if m in t && m != n && t[m].parent.Some? {
      var p := t[m].parent.value;
      SeenFromBelow(t, p, n, key);
      if Above(t, n, m) {
        assert !IsCheckpoint(t[m].delta);
      }
    }
  }

  lemma UnusedInPlain(t: Tree, plain: Tree, key: string)
    requires SameReads(t, plain) && Unused(t, key) && key != CHECKPOINT
    ensures Unused(plain, key)
  {
    forall m | m in plain
      ensures key !in plain[m].delta
    {
      UnusedReadsNothing(t, m, key);
      assert Read(t, m, key) == Read(plain, m, key);
    }
  }

  /** For a new key in a tree whose markers all come from checkpoints: no checkpoint below the node. */
  lemma NewKeyReachesAllIff(t: Tree, plain: Tree, n: NodeId, key: string, v: Json)
    requires SameReads(t, plain) && SameShape(t, plain) && NoMarkers(plain)
    requires n in t && key != CHECKPOINT && Unused(t, key)
    ensures ReachesAll(t, plain, n, key, v) <==> NoMarkerBelow(t, n)
  {
    UnusedInPlain(t, plain, key);
    forall m | m in t
      ensures ReadsThrough(plain, m, n, key) <==> Above(t, n, m)
      ensures Read(t, m, key) == None
    {
      SeenFromBelow(plain, m, n, key);
      AboveStable(t, plain, n, m);
      UnusedReadsNothing(t, m, key);
    }
    if NoMarkerBelow(t, n) {
      forall m | m in t
        ensures ReadsThrough(t, m, n, key) <==> Above(t, n, m)
      {
        SeenFromBelow(t, m, n, key);
      }
    }
  }

  /** The history starts without checkpoints, inserts none, and sets only keys that are new. */
  ghost predicate Plain(ts: seq<Tree>, ws: seq<Write>)
    requires |ts| == |ws| + 1
  {
    NoMarkers(ts[0])
    && (forall i | 0 <= i < |ws| && ws[i].Add? :: !IsCheckpoint(ws[i].delta))
    && (forall i | 0 <= i < |ws| && ws[i].Set? :: Unused(ts[i], ws[i].key))
  }

  lemma {:induction false} PlainHasNoMarkers(ts: seq<Tree>, ws: seq<Write>, i: nat)
    requires History(ts, ws) && Plain(ts, ws) && i <= |ws|
    ensures NoMarkers(WithoutCheckpoints(ts[0], ws, i))
  {
    if i > 0 {
      PlainHasNoMarkers(ts, ws, i - 1);
    }
  }

  /** In such a history the checkpoints go unnoticed exactly when every `set_state` lands on a node with no
      checkpoint below it, which the caller can look up in the table before the call. */
  lemma {:induction false} NewKeysAreErasableIff(ts: seq<Tree>, ws: seq<Write>, n: nat)
    requires History(ts, ws) && Plain(ts, ws) && n <= |ws|
    ensures Unnoticed(ts, ws, n) <==> SetsBelowMarkers(ts, ws, n)
  {
    hide SameReads, SameShape, ReachesAll, WithoutCheckpoints, NoMarkerBelow, NoMarkers, Unused;
    if n == 0 {
      NothingLeftOut(ts, ws);
    } else {
      var i := n - 1;
      NewKeysAreErasableIff(ts, ws, i);
      if Unnoticed(ts, ws, i) {
        NextIsUnnoticedIff(ts, ws, i);
        ShapeStays(ts, ws, i);
        PlainHasNoMarkers(ts, ws, i);
        if ws[i].Set? {
          NewKeyReachesAllIff(ts[i], WithoutCheckpoints(ts[0], ws, i), ws[i].node, ws[i].key, ws[i].value);
        }
      }
    }
  }

  /** Whatever the keys, a write with no checkpoint below it reaches all. */
  lemma BelowMarkersReachesAll(t: Tree, plain: Tree, n: NodeId, key: string, v: Json)
    requires SameShape(t, plain) && NoMarkerBelow(t, n)
    ensures ReachesAll(t, plain, n, key, v)
  {
    forall m | m in t && ReadsThrough(plain, m, n, key)
      ensures ReadsThrough(t, m, n, key)
    {
      ReachedPastNothing(t, plain, m, n, key);
    }
  }

  lemma {:induction false} ReachedPastNothing(t: Tree, plain: Tree, m: NodeId, n: NodeId, key: string)
    requires SameShape(t, plain) && NoMarkerBelow(t, n) && ReadsThrough(plain, m, n, key)
    ensures ReadsThrough(t, m, n, key) && Above(t, n, m)
    decreases m
  {
    if m != n {
      ReachedPastNothing(t, plain, t[m].parent.value, n, key);
    }
  }

  /** A history whose `set_state` calls have no checkpoint below them never notices the checkpoints. */
  lemma CheckpointsAreErasable(ts: seq<Tree>, ws: seq<Write>)
    requires History(ts, ws) && SetsBelowMarkers(ts, ws, |ws|)
    ensures Unnoticed(ts, ws, |ws|)
  {
    hide SameShape, ReachesAll, WithoutCheckpoints, NoMarkerBelow, SameReads, UnnoticedAt;
    CheckpointsAreErasableIff(ts, ws, |ws|);
    forall i | 0 <= i < |ws|
      ensures SetReachesAll(ts, ws, i)
    {
      if ws[i].Set? {
        ShapeStays(ts, ws, i);
        BelowMarkersReachesAll(ts[i], WithoutCheckpoints(ts[0], ws, i), ws[i].node, ws[i].key, ws[i].value);
      }
    }
  }

  /** It does happen: a write above a checkpoint is lost below it. */
  lemma WriteAboveCheckpointIsLost()
    ensures exists ts, ws :: History(ts, ws) && |ws| == 2 && !SameReads(ts[2], WithoutCheckpoints(ts[0], ws, 2))
  {
    var t: Tree := map[0 := Node(None, map[], []), 1 := Node(Some(0), map[], [])];
    var check, put := Checkpoint(1, map[]), Set(0, "model", Null);
    assert Read(t, 0, "model") == None;
    ChecksThenPuts(t, check, put);
  }

  lemma ChecksThenPuts(t: Tree, check: Write, put: Write)
    requires check.Checkpoint? && put.Set? && Writable(t, check) && Writable(t, put)
    requires check.at != put.node && t[check.at].parent == Some(put.node)
    requires put.key !in check.state && put.key !in t[check.at].delta && !IsCheckpoint(t[check.at].delta)
    ensures exists ts, ws :: History(ts, ws) && |ws| == 2 && !SameReads(ts[2], WithoutCheckpoints(ts[0], ws, 2))
  {
    hide Read, Written, Writable;
    PutIsLost(t, check, put);
    var t1 := Written(t, check);
    var ts, ws := [t, t1, Written(t1, put)], [check, put];
    assert History(ts, ws);
    var plain := Written(t, put);
    assert WithoutCheckpoints(t, ws, 2) == plain by {
      assert WithoutCheckpoints(t, ws, 0) == t;
      assert WithoutCheckpoints(t, ws, 1) == t;
    }
    assert !SameReads(ts[2], plain);
  }

  lemma PutIsLost(t: Tree, check: Write, put: Write)
    requires check.Checkpoint? && put.Set? && Writable(t, check) && Writable(t, put)
    requires check.at != put.node && t[check.at].parent == Some(put.node)
    requires put.key !in check.state && put.key !in t[check.at].delta && !IsCheckpoint(t[check.at].delta)
    ensures Writable(Written(t, check), put)
    ensures check.at in Written(Written(t, check), put)
    ensures Read(Written(Written(t, check), put), check.at, put.key) == None
    ensures Read(Written(t, put), check.at, put.key) == Some(put.value)
  {
    var marked, plain := Written(Written(t, check), put), Written(t, put);
    assert Get(check.state, CHECKPOINT) == Read(t, check.at, CHECKPOINT);
    assert IsCheckpoint(marked[check.at].delta);
    assert Read(plain, check.at, put.key) == Read(plain, put.node, put.key);
  }
}
