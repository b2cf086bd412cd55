/** The database class of TinyCTX/db.py over an in-memory node table. */
module ConversationDb {
  import opened Outcomes
  import opened ConversationTree
  import opened SessionState
  import opened BranchFlags
  import opened Sequences

  /** `add_node` under a parent that is not a row: SQLite's foreign key check raises. */
  datatype DbError = ForeignKeyFailed

  class Database {
    var nodes: Tree
    var next: NodeId

    ghost predicate Valid()
      reads this
    {
      Fresh(nodes, next)
    }

    /** `ensure_schema` on a new file: the global root node and nothing else. */
    constructor ()
      ensures Valid() && nodes == map[0 := Node(None, map[], [])]
    {
      nodes := map[0 := Node(None, map[], [])];
      next := 1;
    }

    method AddNode(parent: NodeId, delta: Delta) returns (r: Result<NodeId, DbError>)
      requires Valid()
      modifies this
      ensures Valid()
      ensures r.Ok? <==> parent in old(nodes)
      ensures r.Ok? ==> r.value == old(next) && next == old(next) + 1
                        && nodes == Insert(old(nodes), old(next), parent, delta)
      ensures r.Err? ==> nodes == old(nodes) && next == old(next)
    {
      if parent !in nodes {
        return Err(ForeignKeyFailed);
      }
      nodes := Insert(nodes, next, parent, delta);
      r := Ok(next);
      next := next + 1;
    }

    method LoadSessionState(nodeId: NodeId) returns (state: Delta, depth: nat)
      requires Valid()
      ensures IsStateAt(state, nodes, nodeId)
      ensures depth == WalkDepth(nodes, nodeId)
    {
      state, depth := map[], 0;
      var current := Some(nodeId);
      while current.Some?
        invariant forall key | key != CHECKPOINT ::
                    Read(nodes, nodeId, key)
                    == if key in state then Some(state[key])
                       else if current.Some? then Read(nodes, current.value, key) else None
        invariant WalkDepth(nodes, nodeId) == depth + if current.Some? then WalkDepth(nodes, current.value) else 0
        decreases if current.Some? then current.value + 1 else 0
      {
        if current.value !in nodes {
          current := None;
        } else {
          var node := nodes[current.value];
          depth := depth + 1;
          state := node.delta + state;
          current := if IsCheckpoint(node.delta) then None else node.parent;
        }
      }
      state := state - {CHECKPOINT};
    }

    /** False and no change when the node does not exist. */
    method SetState(nodeId: NodeId, key: string, value: Json) returns (found: bool)
      requires Valid()
      modifies this
      ensures Valid() && found == (nodeId in old(nodes))
      ensures nodes == if found then SetKey(old(nodes), nodeId, key, value) else old(nodes)
    {
      found := nodeId in nodes;
      if found {
        nodes := WithDelta(nodes, nodeId, nodes[nodeId].delta[key := value]);
      }
    }

    /** The update of a missing node touches no row. */
    method WriteCheckpointIfNeeded(nodeId: NodeId, state: Delta, depth: nat, threshold: nat)
      requires Valid()
      modifies this
      ensures Valid()
      ensures nodes == if depth > threshold && nodeId in old(nodes) then Compact(old(nodes), nodeId, state)
                       else old(nodes)
    {
      if depth <= threshold || nodeId !in nodes {
        return;
      }
      nodes := WithDelta(nodes, nodeId, map[CHECKPOINT := Bool(true)] + state);
    }

    method FlagBranch(nodeId: NodeId, flag: string) returns (flagged: seq<NodeId>)
      requires Valid()
      modifies this
      ensures Valid()
      ensures flagged == Unflagged(old(nodes), nodeId, flag)
      ensures nodes == FlagUpToFlagged(old(nodes), nodeId, flag)
    {
      hide AddFlag, Unflagged, Elements;
      flagged := [];
      ghost var before := nodes;
      NothingToFlag(before, flag);
      var current := Some(nodeId);
      while current.Some?
        invariant Unflagged(before, nodeId, flag)
               == flagged + if current.Some? then Unflagged(before, current.value, flag) else []
        invariant current.Some? ==> forall n :: n in flagged ==> n > current.value
        invariant nodes == AddFlag(before, Elements(flagged), flag)
        invariant Valid()
        decreases if current.Some? then current.value + 1 else 0
      {
        var id := current.value;
        UnflaggedStep(before, id, flag);
        NotFlaggedYet(before, flagged, id, flag);
        if id !in nodes || HasFlag(nodes, id, flag) {
          current := None;
        } else {
          AddFlagOnceMore(before, flagged, id, flag);
          nodes := AddFlag(nodes, {id}, flag);
          flagged := flagged + [id];
          current := nodes[id].parent;
        }
      }
    }
  }
}
