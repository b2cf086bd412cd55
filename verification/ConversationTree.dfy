/** The conversation tree of TinyCTX/db.py as a value: rows keyed by node id, and what a
    reader of the tree sees.  Node ids are uuid4 strings in the program; here they are
    numbers handed out in creation order, so a parent always precedes its children. */
module ConversationTree {
  import opened Outcomes

  type NodeId = nat

  datatype Json =
    | Null
    | Bool(b: bool)
    | Number(n: real)
    | Text(s: string)
    | List(elems: seq<Json>)
    | Object(fields: map<string, Json>)

  /** Python's truth value of a decoded JSON value. */
  predicate Truthy(j: Json) {
    match j
    case Null => false
    case Bool(b) => b
    case Number(n) => n != 0.0
    case Text(s) => s != ""
    case List(elems) => elems != []
    case Object(fields) => fields != map[]
  }

  /** There are six false values. */
  lemma FalsyIff(j: Json)
    ensures !Truthy(j) <==> j in [Null, Bool(false), Number(0.0), Text(""), List([]), Object(map[])]
  {}

  type Delta = map<string, Json>

  const CHECKPOINT := "_checkpoint"

  predicate IsCheckpoint(d: Delta) {
    CHECKPOINT in d && Truthy(d[CHECKPOINT])
  }

  datatype Node = Node(parent: Option<NodeId>, delta: Delta, flags: seq<string>)

  predicate WellFormed(t: map<NodeId, Node>) {
    forall n {:trigger t[n].parent} | n in t :: t[n].parent.Some? ==> t[n].parent.value in t && t[n].parent.value < n
  }

  type Tree = t: map<NodeId, Node> | WellFormed(t) witness map[]

  /** A row with this id can be inserted: the id is new and later than every other. */
  predicate Fresh(t: Tree, n: NodeId) {
    forall m <- t :: m < n
  }

  function Insert(t: Tree, n: NodeId, parent: NodeId, delta: Delta): (t': Tree)
    requires Fresh(t, n) && parent in t
    ensures t'.Keys == t.Keys + {n} && n !in t && t'[n].parent == Some(parent)
    ensures Extends(t, t')
  {
    assert n !in t;
    t[n := Node(Some(parent), delta, [])]
  }

  /** `a` is `n` or an ancestor of `n`. */
  predicate Above(t: Tree, a: NodeId, n: NodeId)
    decreases n
  {
    n in t && (a == n || (t[n].parent.Some? && Above(t, a, t[n].parent.value)))
  }

  /** No row is lost and no parent changes from `t` to `t'`. */
  ghost predicate Extends(t: Tree, t': Tree) {
    t.Keys <= t'.Keys && forall n {:trigger t'[n].parent} | n in t :: t'[n].parent == t[n].parent
  }

  lemma {:induction false} AboveStable(t: Tree, t': Tree, a: NodeId, n: NodeId)
    requires Extends(t, t') && n in t
    ensures Above(t', a, n) <==> Above(t, a, n)
    decreases n
  {
    if t[n].parent.Some? {
      AboveStable(t, t', a, t[n].parent.value);
    }
  }

  lemma {:induction false} AboveTransitive(t: Tree, a: NodeId, b: NodeId, n: NodeId)
    requires Above(t, a, b) && Above(t, b, n)
    ensures Above(t, a, n)
    decreases n
  {
    if b != n {
      AboveTransitive(t, a, b, t[n].parent.value);
    }
  }
}
