/** The tables of TinyCTX/users/store.py: users with their platform identities, and the index that
    says whose an identity is. */
module UserDirectory {

  datatype Platform = CLI | Discord | Matrix | Telegram | Cron | Api | System

  datatype Identity = Identity(platform: Platform, userId: string, username: string, displayName: string)

  /** (platform, user_id). */
  type IdentityKey = (Platform, string)

  datatype User = User(username: string, identities: seq<Identity>,
                       meta: map<string, string>, overrides: map<string, bool>)

  datatype Tables = Tables(users: map<string, User>, index: map<IdentityKey, string>)

  function KeyOf(i: Identity): IdentityKey {
    (i.platform, i.userId)
  }

  predicate HasKey(ids: seq<Identity>, k: IdentityKey) {
    exists i :: 0 <= i < |ids| && KeyOf(ids[i]) == k
  }

  predicate NoRepeats(ids: seq<Identity>) {
    forall i, j | 0 <= i < j < |ids| :: KeyOf(ids[i]) != KeyOf(ids[j])
  }

  /** The same keys, each once. */
  ghost predicate HasKeysOf(ids: seq<Identity>, row: seq<Identity>) {
    NoRepeats(ids) && forall k :: HasKey(ids, k) <==> HasKey(row, k)
  }

  predicate Owns(t: Tables, name: string, k: IdentityKey) {
    name in t.users && HasKey(t.users[name].identities, k)
  }

  predicate IsIndexed(t: Tables, name: string, k: IdentityKey) {
    k in t.index && t.index[k] == name
  }

  /** Every identity belongs to exactly the user the index names, and is listed there once. */
  ghost predicate Partitioned(t: Tables) {
    (forall n <- t.users :: t.users[n].username == n && NoRepeats(t.users[n].identities))
    && forall n, k :: Owns(t, n, k) <==> IsIndexed(t, n, k)
  }

  // ----- The statements -----

  function Insert(t: Tables, u: User, k: IdentityKey): Tables {
    Tables(t.users[u.username := u], t.index[k := u.username])
  }

  /** `UPDATE users … WHERE username`: nothing when there is no such row. */
  function Update(t: Tables, u: User): Tables {
    if u.username in t.users then t.(users := t.users[u.username := u]) else t
  }

  function Repoint(index: map<IdentityKey, string>, from: string, to: string): map<IdentityKey, string> {
    map k | k in index :: if index[k] == from then to else index[k]
  }

  /** `primary` followed by the identities of `secondary` it does not have yet. */
  function Joined(primary: seq<Identity>, secondary: seq<Identity>): seq<Identity> {
    if secondary == [] then primary
    else
      var rest := Joined(primary, secondary[..|secondary| - 1]);
      var last := secondary[|secondary| - 1];
      if HasKey(primary, KeyOf(last)) then rest else rest + [last]
  }

  /** The three statements of `merge_users`, in order. */
  function Merge(t: Tables, primary: string, secondary: string): Tables
    requires primary in t.users && secondary in t.users
  {
    var merged := t.users[primary].(identities := Joined(t.users[primary].identities, t.users[secondary].identities));
    Tables(t.users[primary := merged] - {secondary}, Repoint(t.index, secondary, primary))
  }

  /** The two statements of `rename_user`. */
  function Rename(t: Tables, name: string, newName: string): Tables {
    Tables(if name in t.users then (t.users - {name})[newName := t.users[name].(username := newName)] else t.users,
           Repoint(t.index, name, newName))
  }

  /** The identity with the names it was last seen with. */
  function Refresh(ids: seq<Identity>, seen: Identity): seq<Identity> {
    if ids == [] then []
    else if KeyOf(ids[0]) == KeyOf(seen) then [seen] + ids[1..]
    else [ids[0]] + Refresh(ids[1..], seen)
  }

  // ----- What they keep -----

  lemma HasKeyOfConcat(a: seq<Identity>, b: seq<Identity>, k: IdentityKey)
    ensures HasKey(a + b, k) <==> HasKey(a, k) || HasKey(b, k)
  {
    if HasKey(a, k) {
      var i :| 0 <= i < |a| && KeyOf(a[i]) == k;
      assert KeyOf((a + b)[i]) == k;
    } else if HasKey(b, k) {
      var i :| 0 <= i < |b| && KeyOf(b[i]) == k;
      assert KeyOf((a + b)[|a| + i]) == k;
    }
  }

  lemma {:induction false} RefreshKeepsKeys(ids: seq<Identity>, seen: Identity)
    ensures |Refresh(ids, seen)| == |ids|
    ensures forall i | 0 <= i < |ids| :: KeyOf(Refresh(ids, seen)[i]) == KeyOf(ids[i])
    ensures NoRepeats(ids) ==>
              forall i | 0 <= i < |ids| ::
                Refresh(ids, seen)[i] == if KeyOf(ids[i]) == KeyOf(seen) then seen else ids[i]
  {
    if ids != [] && KeyOf(ids[0]) != KeyOf(seen) {
      RefreshKeepsKeys(ids[1..], seen);
    }
  }

  lemma {:induction false} RefreshHasSeen(ids: seq<Identity>, seen: Identity)
    requires HasKey(ids, KeyOf(seen))
    ensures seen in Refresh(ids, seen) && HasKey(Refresh(ids, seen), KeyOf(seen))
  {
    var i :| 0 <= i < |ids| && KeyOf(ids[i]) == KeyOf(seen);
    RefreshKeepsKeys(ids, seen);
    assert KeyOf(Refresh(ids, seen)[i]) == KeyOf(seen);
    if KeyOf(ids[0]) != KeyOf(seen) {
      assert KeyOf(ids[1..][i - 1]) == KeyOf(seen);
      RefreshHasSeen(ids[1..], seen);
    }
  }

  lemma {:induction false} JoinedKeys(a: seq<Identity>, b: seq<Identity>)
    requires NoRepeats(a) && NoRepeats(b)
    ensures NoRepeats(Joined(a, b)) && a <= Joined(a, b)
    ensures forall i <- Joined(a, b)[|a|..] :: i in b
    ensures forall k :: HasKey(Joined(a, b), k) <==> HasKey(a, k) || HasKey(b, k)
  {
    if b != [] {
      var front, last := b[..|b| - 1], b[|b| - 1];
      JoinedKeys(a, front);
      assert b == front + [last];
      var rest := Joined(a, front);
      forall k
        ensures HasKey(Joined(a, b), k) <==> HasKey(a, k) || HasKey(b, k)
      {
        HasKeyOfConcat(front, [last], k);
        HasKeyOfConcat(rest, [last], k);
      }
      assert !HasKey(front, KeyOf(last));
    }
  }

  /** Of the tables, merging changes only the identities of the one user, the row of the other, and what the index says
      of the other's identities. */
  lemma MergeChangesOnlyIdentities(t: Tables, primary: string, secondary: string)
    requires Partitioned(t) && primary in t.users && secondary in t.users && primary != secondary
    ensures var m := Merge(t, primary, secondary);
            m.users.Keys == t.users.Keys - {secondary}
            && (forall n <- m.users :: n != primary ==> m.users[n] == t.users[n])
            && m.users[primary].username == primary && m.users[primary].meta == t.users[primary].meta
            && m.users[primary].overrides == t.users[primary].overrides
            && t.users[primary].identities <= m.users[primary].identities
            && (forall i <- m.users[primary].identities ::
                  i in t.users[primary].identities || i in t.users[secondary].identities)
            && m.index.Keys == t.index.Keys
            && forall k <- t.index :: m.index[k] == if t.index[k] == secondary then primary else t.index[k]
  {
    var a, b := t.users[primary].identities, t.users[secondary].identities;
    JoinedKeys(a, b);
    assert Joined(a, b) == a + Joined(a, b)[|a|..];
  }

  /** Writing a user back changes its own row if it has one, and nothing else. */
  lemma UpdateWritesOneRow(t: Tables, u: User)
    ensures var m := Update(t, u);
            m.users.Keys == t.users.Keys && m.index == t.index
            && forall n <- t.users :: m.users[n] == if n == u.username then u else t.users[n]
  {}

  /** Renaming moves the row and what the index says of it, and changes nothing else. */
  lemma RenameMovesOneRow(t: Tables, name: string, newName: string)
    requires name in t.users && newName !in t.users
    ensures var m := Rename(t, name, newName);
            m.users.Keys == t.users.Keys - {name} + {newName}
            && (forall n <- m.users :: n != newName ==> m.users[n] == t.users[n])
            && m.users[newName] == t.users[name].(username := newName)
            && m.index.Keys == t.index.Keys
            && forall k <- t.index :: m.index[k] == if t.index[k] == name then newName else t.index[k]
  {}

  /** Merging keeps the partition unless it deletes the only user it names and leaves identities behind. */
  lemma MergeKeepsPartitionIff(t: Tables, primary: string, secondary: string)
    requires Partitioned(t) && primary in t.users && secondary in t.users
    ensures Partitioned(Merge(t, primary, secondary)) <==> primary != secondary || t.users[primary].identities == []
  {
    var p, s, m := t.users[primary].identities, t.users[secondary].identities, Merge(t, primary, secondary);
    JoinedKeys(p, s);
    if primary != secondary || p == [] {
      hide HasKey, NoRepeats, Joined;
      forall n, k
        ensures Owns(m, n, k) <==> IsIndexed(m, n, k)
      {
        assert Owns(t, n, k) <==> IsIndexed(t, n, k);
        assert Owns(t, primary, k) <==> IsIndexed(t, primary, k);
        assert Owns(t, secondary, k) <==> IsIndexed(t, secondary, k);
        assert p == [] ==> !HasKey(p, k) by {
          NothingHasNoKey(k);
        }
      }
    } else {
      var k := KeyOf(p[0]);
      assert HasKey(p, k);
      assert Owns(t, primary, k) && IsIndexed(m, primary, k) && !Owns(m, primary, k);
    }
  }

  lemma NothingHasNoKey(k: IdentityKey)
    ensures !HasKey([], k)
  {}

  lemma RenameKeepsPartition(t: Tables, name: string, newName: string)
    requires Partitioned(t) && newName !in t.users
    ensures Partitioned(Rename(t, name, newName))
  {
    var m := Rename(t, name, newName);
    hide HasKey, NoRepeats;
    forall n, k
      ensures Owns(m, n, k) <==> IsIndexed(m, n, k)
    {
      assert Owns(t, n, k) <==> IsIndexed(t, n, k);
      assert Owns(t, name, k) <==> IsIndexed(t, name, k);
      assert Owns(t, newName, k) <==> IsIndexed(t, newName, k);
    }
  }

  /** Writing a user back keeps the partition exactly when its identities have the keys of the row. */
  lemma UpdateKeepsPartitionIff(t: Tables, u: User)
    requires Partitioned(t) && u.username in t.users
    ensures Partitioned(Update(t, u)) <==> HasKeysOf(u.identities, t.users[u.username].identities)
  {
    var m := Update(t, u);
    hide HasKey, NoRepeats;
    forall n, k
      ensures Owns(m, n, k) <==> if n == u.username then HasKey(u.identities, k) else IsIndexed(m, n, k)
    {
      assert Owns(t, n, k) <==> IsIndexed(t, n, k);
    }
    forall k
      ensures HasKey(t.users[u.username].identities, k) <==> IsIndexed(m, u.username, k)
    {
      assert Owns(t, u.username, k) <==> IsIndexed(t, u.username, k);
    }
    if Partitioned(m) {
      assert u.username in m.users && m.users[u.username] == u;
      forall k
        ensures HasKey(u.identities, k) <==> HasKey(t.users[u.username].identities, k)
      {
        assert Owns(m, u.username, k) <==> IsIndexed(m, u.username, k);
      }
    }
  }

  lemma InsertKeepsPartition(t: Tables, u: User, i: Identity)
    requires Partitioned(t) && u.username !in t.users && KeyOf(i) !in t.index && u.identities == [i]
    ensures Partitioned(Insert(t, u, KeyOf(i)))
  {
    var m := Insert(t, u, KeyOf(i));
    forall n, k
      ensures Owns(m, n, k) <==> IsIndexed(m, n, k)
    {
      assert Owns(t, n, k) <==> IsIndexed(t, n, k);
      assert HasKey([i], k) <==> k == KeyOf(i) by {
        assert KeyOf([i][0]) == KeyOf(i);
      }
    }
  }
}
