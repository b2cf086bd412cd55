/** Session state over the conversation tree (TinyCTX/db.py, `load_session_state` and its
    writers): what a node reads, what a write changes, and why checkpoints go unnoticed. */
module SessionState {
  import opened Outcomes
  import opened ConversationTree

  /** The value the walk from `n` finds for `key`: the nearest definition wins, a checkpoint
      hides everything above it, and the marker itself is never part of the state. */
  function Read(t: Tree, n: NodeId, key: string): Option<Json>
    decreases n
  {
    if n !in t || key == CHECKPOINT then None
    else if key in t[n].delta then Some(t[n].delta[key])
    else if IsCheckpoint(t[n].delta) || t[n].parent.None? then None
    else Read(t, t[n].parent.value, key)
  }

  function Get(state: Delta, key: string): Option<Json> {
    if key in state then Some(state[key]) else None
  }

  /** `state` is exactly the session state read at `n`. */
  ghost predicate IsStateAt(state: Delta, t: Tree, n: NodeId) {
    forall key :: Get(state, key) == Read(t, n, key)
  }

  /** How many nodes the walk visits. */
  function WalkDepth(t: Tree, n: NodeId): nat
    decreases n
  {
    if n !in t then 0
    else if IsCheckpoint(t[n].delta) || t[n].parent.None? then 1
    else 1 + WalkDepth(t, t[n].parent.value)
  }

  /** The walk that starts at `m` visits `n`. */
  predicate Walks(t: Tree, m: NodeId, n: NodeId)
    decreases m
  {
    m in t && (m == n || (!IsCheckpoint(t[m].delta) && t[m].parent.Some? && Walks(t, t[m].parent.value, n)))
  }

  function Visited(t: Tree, m: NodeId): set<NodeId> {
    set n | n in t && Walks(t, m, n)
  }

  /** The depth counts the nodes visited. */
  lemma {:induction false} WalkDepthCountsNodes(t: Tree, m: NodeId)
    ensures WalkDepth(t, m) == |Visited(t, m)|
    decreases m
  {
    if m !in t {
      assert Visited(t, m) == {};
    } else if IsCheckpoint(t[m].delta) || t[m].parent.None? {
      assert Visited(t, m) == {m};
    } else {
      var p := t[m].parent.value;
      WalkDepthCountsNodes(t, p);
      forall n | n in Visited(t, p) ensures n <= p {
        WalksUpward(t, p, n);
      }
      assert Visited(t, m) == {m} + Visited(t, p);
    }
  }

  lemma {:induction false} WalksUpward(t: Tree, m: NodeId, n: NodeId)
    requires Walks(t, m, n)
    ensures n <= m
    decreases m
  {
    if m != n {
      WalksUpward(t, t[m].parent.value, n);
    }
  }

  /** The walk that starts at `m` visits `n` and meets no earlier node that defines `key`. */
  predicate ReadsThrough(t: Tree, m: NodeId, n: NodeId, key: string)
    decreases m
  {
    m in t
    && (m == n || (key !in t[m].delta && !IsCheckpoint(t[m].delta)
                   && t[m].parent.Some? && ReadsThrough(t, t[m].parent.value, n, key)))
  }

  function WithDelta(t: Tree, n: NodeId, d: Delta): (t': Tree)
    requires n in t
    ensures t'.Keys == t.Keys && Extends(t, t') && Extends(t', t)
    ensures t'[n] == t[n].(delta := d) && forall m <- t :: m != n ==> t'[m] == t[m]
  {
    t[n := t[n].(delta := d)]
  }

  /** Effect of `set_state` on the table. */
  function SetKey(t: Tree, n: NodeId, key: string, v: Json): Tree
    requires n in t
  {
    WithDelta(t, n, t[n].delta[key := v])
  }

  /** Effect of a checkpoint write on the table. */
  function Compact(t: Tree, n: NodeId, state: Delta): Tree
    requires n in t
  {
    WithDelta(t, n, map[CHECKPOINT := Bool(true)] + state)
  }

  /** After `set_state(n, key, v)` exactly the nodes whose walk reaches `n` before any other
      definition of `key` read `v` for it; every other read of the tree is as before. */
  lemma {:induction false} SetKeyIsReadExactlyBelow(t: Tree, n: NodeId, key: string, v: Json, m: NodeId, k: string)
    requires n in t && key != CHECKPOINT
    ensures Read(SetKey(t, n, key, v), m, k)
         == if k == key && ReadsThrough(t, m, n, key) then Some(v) else Read(t, m, k)
    ensures WalkDepth(SetKey(t, n, key, v), m) == WalkDepth(t, m)
    decreases m
  {
    if m in t && t[m].parent.Some? {
      SetKeyIsReadExactlyBelow(t, n, key, v, t[m].parent.value, k);
      if m == n {
        NothingBelowItself(t, t[m].parent.value, n, key);
      }
    }
  }

  lemma {:induction false} NothingBelowItself(t: Tree, m: NodeId, n: NodeId, key: string)
    requires m < n
    ensures !ReadsThrough(t, m, n, key) && !Walks(t, m, n)
    decreases m
  {
    if m in t && t[m].parent.Some? {
      NothingBelowItself(t, t[m].parent.value, n, key);
    }
  }

  /** A checkpoint holding the loaded state changes what no node reads. */
  lemma {:induction false} CheckpointIsInvisible(t: Tree, n: NodeId, state: Delta, m: NodeId, k: string)
    requires n in t && IsStateAt(state, t, n)
    ensures Read(Compact(t, n, state), m, k) == Read(t, m, k)
    decreases m
  {
    assert Get(state, k) == Read(t, n, k) && Get(state, CHECKPOINT) == Read(t, n, CHECKPOINT);
    if m in t && t[m].parent.Some? {
      CheckpointIsInvisible(t, n, state, t[m].parent.value, k);
    }
  }

  /** It cuts the walk at `n`: the walks that reach `n` end there, the others keep their length. */
  lemma {:induction false} CheckpointShortensWalks(t: Tree, n: NodeId, state: Delta, m: NodeId)
    requires n in t && IsStateAt(state, t, n)
    ensures Walks(t, m, n) ==> WalkDepth(t, m) >= WalkDepth(t, n) >= 1
    ensures WalkDepth(Compact(t, n, state), m)
         == if Walks(t, m, n) then WalkDepth(t, m) - WalkDepth(t, n) + 1 else WalkDepth(t, m)
    decreases m
  {
    assert Get(state, CHECKPOINT) == Read(t, n, CHECKPOINT);
    if m in t && t[m].parent.Some? {
      CheckpointShortensWalks(t, n, state, t[m].parent.value);
      if m == n {
        NothingBelowItself(t, t[m].parent.value, n, "");
      }
    }
  }

  /** No other state would do: a checkpoint is invisible only if it holds the loaded state. */
  lemma CheckpointStateIsForced(t: Tree, n: NodeId, state: Delta)
    requires n in t && CHECKPOINT !in state
    ensures (forall m, k :: m in t ==> Read(Compact(t, n, state), m, k) == Read(t, m, k)) <==> IsStateAt(state, t, n)
  {
    var t' := Compact(t, n, state);
    forall k ensures Read(t', n, k) == Get(state, k) {}
    if IsStateAt(state, t, n) {
      forall m, k | m in t ensures Read(t', m, k) == Read(t, m, k) {
        CheckpointIsInvisible(t, n, state, m, k);
      }
    } else {
      var k :| Get(state, k) != Read(t, n, k);
      assert Read(t', n, k) != Read(t, n, k);
    }
  }

  lemma {:induction false} InsertedReads(t: Tree, n: NodeId, parent: NodeId, delta: Delta, m: NodeId, k: string)
    requires Fresh(t, n) && parent in t && m in t
    ensures Read(Insert(t, n, parent, delta), m, k) == Read(t, m, k)
    decreases m
  {
    if t[m].parent.Some? {
      InsertedReads(t, n, parent, delta, t[m].parent.value, k);
    }
  }

  // ----- The delta an inbound message records -----

  /** The entries of `env` that the state at `tail` does not already hold. */
  function StateDelta(t: Tree, tail: NodeId, env: Delta): Delta {
    map key | key in env && Read(t, tail, key) != Some(env[key]) :: env[key]
  }

  /** The delta is taken against the message's own tail but stored under the session's attach
      point.  The new node reads an entry of `env` back exactly when the two agree on it. */
  lemma EnvironmentIsReadBack(t: Tree, tail: NodeId, attach: NodeId, id: NodeId, env: Delta, key: string)
    requires Fresh(t, id) && attach in t && CHECKPOINT !in env && key in env
    ensures Read(Insert(t, id, attach, StateDelta(t, tail, env)), id, key) == Some(env[key])
       <==> (Read(t, tail, key) == Some(env[key]) ==> Read(t, attach, key) == Some(env[key]))
  {
    InsertedReads(t, id, attach, StateDelta(t, tail, env), attach, key);
  }
}
