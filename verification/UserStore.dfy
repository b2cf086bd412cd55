/** The user store of TinyCTX/users/store.py: two tables and two caches over them. */
module UserStore {
  import opened Outcomes
  import opened UserDirectory

  datatype StoreError = UsernameConflict | IntegrityFailed | UserNotFound(name: string) | AssertionFailed

  /** `str.lower`, whatever it does outside the letters of a slug. */
  type Lower = string -> string

  /** In lower case, only letters, digits, hyphens and underscores, at most 32 characters. */
  function Slug(lower: Lower, s: string): (r: string)
    ensures |r| <= 32 && IsSlugText(r)
  {
    var kept := SlugLetters(lower(s));
    if |kept| <= 32 then kept else kept[..32]
  }

  predicate IsSlugLetter(c: char) {
    'a' <= c <= 'z' || '0' <= c <= '9' || c == '_' || c == '-'
  }

  predicate IsSlugText(s: string) {
    forall i | 0 <= i < |s| :: IsSlugLetter(s[i])
  }

  function SlugLetters(s: string): (r: string)
    ensures IsSlugText(r)
  {
    if s == "" then "" else (if IsSlugLetter(s[0]) then [s[0]] else "") + SlugLetters(s[1..])
  }

  lemma {:induction false} SlugLettersStay(s: string)
    requires IsSlugText(s)
    ensures SlugLetters(s) == s
  {
    if s != "" {
      SlugLettersStay(s[1..]);
      assert s == [s[0]] + s[1..];
    }
  }

  /** The letters of a slug are kept one by one, in order, and nothing else is. */
  lemma {:induction false} SlugLettersOneByOne(a: string, b: string)
    ensures SlugLetters(a + b) == SlugLetters(a) + SlugLetters(b)
    ensures forall c :: SlugLetters([c]) ==
              if 'a' <= c <= 'z' || '0' <= c <= '9' || c == '_' || c == '-' then [c] else ""
  {
    if a == "" {
      assert a + b == b;
    } else {
      SlugLettersOneByOne(a[1..], b);
      assert (a + b)[1..] == a[1..] + b;
    }
  }

  /** The first 32 of them. */
  lemma SlugIsTheStart(lower: Lower, s: string)
    ensures Slug(lower, s) <= SlugLetters(lower(s))
    ensures |Slug(lower, s)| < 32 ==> Slug(lower, s) == SlugLetters(lower(s))
  {}

  /** A slug is its own slug. */
  lemma SlugIsStable(lower: Lower, s: string)
    requires forall t :: IsSlugText(t) ==> lower(t) == t
    ensures Slug(lower, Slug(lower, s)) == Slug(lower, s)
  {
    SlugLettersStay(Slug(lower, s));
  }

  /** Either slug when it is usable, else a random name; never one that is taken. */
  predicate IsPicked(name: string, taken: set<string>, a: string, b: string) {
    name !in taken
    && if a != "" && a !in taken then name == a
       else b != "" && b !in taken ==> name == b
  }

  ghost predicate CoversKeys(ids: seq<Identity>, row: seq<Identity>) {
    forall k :: HasKey(row, k) ==> HasKey(ids, k)
  }

  class Store {
    const lower: Lower
    var users: map<string, User>
    var index: map<IdentityKey, string>
    var byPlatform: map<IdentityKey, User>
    var byUsername: map<string, User>

    ghost function Abs(): Tables
      reads this
    {
      Tables(users, index)
    }

    /** Both caches hold rows of the given table, and whoever is cached by platform is cached by name. */
    ghost predicate CachesAgree(rows: map<string, User>)
      reads this`byPlatform, this`byUsername
    {
      (forall n <- byUsername :: n in rows && byUsername[n] == rows[n])
      && forall k <- byPlatform ::
           byPlatform[k].username in byUsername && byPlatform[k] == byUsername[byPlatform[k].username]
           && HasKey(byPlatform[k].identities, k)
    }

    ghost predicate Valid()
      reads this
    {
      Partitioned(Abs()) && CachesAgree(users)
    }

    constructor (lower: Lower)
      ensures Valid() && users == map[] && index == map[] && this.lower == lower
    {
      this.lower := lower;
      users, index, byPlatform, byUsername := map[], map[], map[], map[];
    }

    // ----- Cache helpers -----

    /** Afterwards the user is in neither cache, provided that it names every identity of its row. */
    method Invalidate(u: User, ghost rows: map<string, User>)
      requires CachesAgree(rows)
      modifies this`byPlatform, this`byUsername
      ensures (u.username in rows ==> rows[u.username].username == u.username
                                      && CoversKeys(u.identities, rows[u.username].identities))
              ==> CachesAgree(rows - {u.username})
      ensures byUsername == old(byUsername) - {u.username}
      ensures forall k :: k in byPlatform <==> k in old(byPlatform) && !HasKey(u.identities, k)
      ensures forall k <- byPlatform :: byPlatform[k] == old(byPlatform)[k]
    {
      byUsername := byUsername - {u.username};
      ForgetIdentities(u.identities);
    }

    method ForgetIdentities(ids: seq<Identity>)
      modifies this`byPlatform
      ensures forall k :: k in byPlatform <==> k in old(byPlatform) && !HasKey(ids, k)
      ensures forall k <- byPlatform :: byPlatform[k] == old(byPlatform)[k]
    {
      for i := 0 to |ids|
        invariant forall k :: k in byPlatform <==> k in old(byPlatform) && !HasKey(ids[..i], k)
        invariant forall k <- byPlatform :: byPlatform[k] == old(byPlatform)[k]
      {
        byPlatform := byPlatform - {KeyOf(ids[i])};
        OneMoreKey(ids, i);
      }
      assert ids[..|ids|] == ids;
    }

    /** A user who is not cached by name is not cached by platform either. */
    method InvalidateByUsername(name: string, ghost rows: map<string, User>)
      requires CachesAgree(rows)
      modifies this`byPlatform, this`byUsername
      ensures CachesAgree(rows - {name})
    {
      if name in byUsername {
        var u := byUsername[name];
        byUsername := byUsername - {name};
        ForgetIdentities(u.identities);
      }
    }

    /** Caches that agree with some of the rows agree with all of them. */
    lemma FewerRowsAgree(fewer: map<string, User>, rows: map<string, User>)
      requires CachesAgree(fewer) && forall n <- fewer :: n in rows && rows[n] == fewer[n]
      ensures CachesAgree(rows)
    {}

    method PopulateCache(u: User, ghost rows: map<string, User>)
      requires CachesAgree(rows) && (u.username in byUsername ==> byUsername[u.username] == u)
      modifies this`byPlatform, this`byUsername
      ensures CachesAgree(rows[u.username := u])
    {
      byUsername := byUsername[u.username := u];
      for i := 0 to |u.identities|
        invariant byUsername == old(byUsername)[u.username := u]
        invariant forall k :: k in byPlatform <==> k in old(byPlatform) || HasKey(u.identities[..i], k)
        invariant forall k <- byPlatform ::
                    byPlatform[k] == if HasKey(u.identities[..i], k) then u else old(byPlatform)[k]
      {
        byPlatform := byPlatform[KeyOf(u.identities[i]) := u];
        OneMoreKey(u.identities, i);
      }
      assert u.identities[..|u.identities|] == u.identities;
    }

    method Remember(k: IdentityKey, u: User, ghost rows: map<string, User>)
      requires CachesAgree(rows) && u.username in rows && rows[u.username] == u && HasKey(u.identities, k)
      modifies this`byPlatform, this`byUsername
      ensures CachesAgree(rows)
    {
      byPlatform := byPlatform[k := u];
      byUsername := byUsername[u.username := u];
    }

    method LoadUser(name: string) returns (u: Option<User>)
      requires CachesAgree(users)
      modifies this`byUsername
      ensures CachesAgree(users) && (old(Valid()) ==> Valid())
      ensures u == if name in users then Some(users[name]) else None
      ensures byUsername == if name in users then old(byUsername)[name := users[name]] else old(byUsername)
    {
      if name !in users {
        return None;
      }
      u := Some(users[name]);
      byUsername := byUsername[name := users[name]];
    }

    // ----- Writes -----

    /** The caller's own copy is written to its row, and forgotten by both caches. */
    method UpdateUser(u: User)
      requires Valid()
      modifies this
      ensures Abs() == Update(old(Abs()), u)
      ensures Valid() <==> u.username !in old(users) || HasKeysOf(u.identities, old(users)[u.username].identities)
    {
      if u.username in users {
        UpdateKeepsPartitionIff(Abs(), u);
        users := users[u.username := u];
      }
      Invalidate(u, old(users));
    }

    /** The identity gets the names it was seen with; nothing is written when they are the same. */
    method MaybeUpdateIdentity(u: User, seen: Identity) returns (r: User)
      requires Valid() && u.username in users && users[u.username] == u
      modifies this
      ensures Valid() && r == u.(identities := Refresh(u.identities, seen))
      ensures Abs() == Update(old(Abs()), r)
    {
      hide Partitioned, CachesAgree, HasKey, NoRepeats;
      RowHasNoRepeats(Abs(), u.username);
      r := u.(identities := Refresh(u.identities, seen));
      for i := 0 to |u.identities|
        invariant Valid() && Abs() == old(Abs())
        invariant forall j | 0 <= j < i :: KeyOf(u.identities[j]) != KeyOf(seen)
      {
        if KeyOf(u.identities[i]) == KeyOf(seen) {
          RefreshAt(u.identities, seen, i);
          if u.identities[i] == seen {
            assert r == u && users == users[u.username := u];
          } else {
            UpdateUser(r);
          }
          return;
        }
      }
      RefreshNowhere(u.identities, seen);
      assert r == u && users == users[u.username := u];
    }

    /** The first usable slug, else the first random name that is not taken. */
    method PickUsername(username: string, displayName: string, draws: nat -> string) returns (name: string)
      requires exists i: nat :: draws(i) !in users
      ensures IsPicked(name, users.Keys, Slug(lower, username), Slug(lower, displayName))
      ensures name == Slug(lower, username) || name == Slug(lower, displayName)
              || exists n: nat :: name == draws(n) && forall m: nat | m < n :: draws(m) in users
    {
      name := Slug(lower, username);
      if name != "" && name !in users {
        return;
      }
      name := Slug(lower, displayName);
      if name != "" && name !in users {
        return;
      }
      ghost var last: nat :| draws(last) !in users;
      var i := 0;
      while draws(i) in users
        invariant i <= last && forall m: nat | m < i :: draws(m) in users
        decreases last - i
      {
        i := i + 1;
      }
      name := draws(i);
    }

    /** Both inserts of one transaction: the index refuses an identity it already has. */
    method InsertUser(u: User, seen: Identity) returns (ok: bool)
      requires Valid() && u.username !in users && u.identities == [seen]
      modifies this
      ensures Valid() && ok == (KeyOf(seen) !in old(index))
      ensures Abs() == if ok then Insert(old(Abs()), u, KeyOf(seen)) else old(Abs())
    {
      ok := KeyOf(seen) !in index;
      if ok {
        InsertKeepsPartition(Abs(), u, seen);
        users, index := users[u.username := u], index[KeyOf(seen) := u.username];
        PopulateCache(u, old(users));
      }
    }

    lemma CachedIsOwner(k: IdentityKey)
      requires Valid() && k in byPlatform
      ensures k in index && index[k] in users && byPlatform[k] == users[index[k]]
    {
      assert Owns(Abs(), byPlatform[k].username, k);
      assert IsIndexed(Abs(), byPlatform[k].username, k);
    }

    /** Not cached by platform, but in the index. */
    method ResolveFromTables(seen: Identity) returns (u: User)
      requires Valid() && KeyOf(seen) in index && KeyOf(seen) !in byPlatform
      modifies this
      ensures Valid() && Recognised(old(Abs()), Abs(), u, seen)
    {
      hide NoRepeats, HasKey, Partitioned, CachesAgree;
      var k := KeyOf(seen);
      RowIsRecognised(Abs(), seen);
      var loaded := LoadUser(index[k]);
      u := MaybeUpdateIdentity(loaded.value, seen);
      Remember(k, u, users);
    }

    /** The stored owner of a platform identity, created when there is none.  Never fails: an index
        entry always leads to a user, so the branch for a deleted user is dead. */
    method ResolveUser(seen: Identity, draws: nat -> string) returns (u: User)
      requires Valid() && exists i: nat :: draws(i) !in users
      modifies this
      ensures Valid() && IsIndexed(Abs(), u.username, KeyOf(seen)) && u.username in users && users[u.username] == u
      ensures KeyOf(seen) in old(index) ==> Recognised(old(Abs()), Abs(), u, seen)
      ensures KeyOf(seen) !in old(index) ==>
                IsPicked(u.username, old(users.Keys), Slug(lower, seen.username), Slug(lower, seen.displayName))
                && u == User(u.username, [seen], map[], map[])
                && Abs() == Insert(old(Abs()), u, KeyOf(seen))
    {
      hide NoRepeats, HasKey;
      var k := KeyOf(seen);
      if k in byPlatform {
        CachedIsOwner(k);
        RowIsRecognised(Abs(), seen);
        u := MaybeUpdateIdentity(byPlatform[k], seen);
        return;
      }
      if k in index {
        u := ResolveFromTables(seen);
        return;
      }
      var name := PickUsername(seen.username, seen.displayName, draws);
      u := User(name, [seen], map[], map[]);
      var _ := InsertUser(u, seen);
    }

    /** A user with exactly the given name, known on the platform under that name. */
    method CreateUser(username: string, platform: Platform) returns (r: Result<User, StoreError>)
      requires Valid()
      modifies this
      ensures Valid()
      ensures var seen := Identity(platform, username, username, username);
              r == (if username in old(users) then Err(UsernameConflict)
                    else if KeyOf(seen) in old(index) then Err(IntegrityFailed)
                    else Ok(User(username, [seen], map[], map[])))
              && Abs() == if r.Ok? then Insert(old(Abs()), r.value, KeyOf(seen)) else old(Abs())
    {
      if username in users {
        return Err(UsernameConflict);
      }
      var seen := Identity(platform, username, username, username);
      var u := User(username, [seen], map[], map[]);
      var ok := InsertUser(u, seen);
      r := if ok then Ok(u) else Err(IntegrityFailed);
    }

    method GetUser(username: string) returns (u: Option<User>)
      requires Valid()
      modifies this`byUsername
      ensures Valid() && u == if username in users then Some(users[username]) else None
    {
      if username in byUsername {
        return Some(byUsername[username]);
      }
      u := LoadUser(username);
    }

    method GetByPlatform(k: IdentityKey) returns (u: Option<User>)
      requires Valid()
      modifies this`byUsername
      ensures Valid()
      ensures u.Some? <==> k in index
      ensures u.Some? ==> index[k] in users && u.value == users[index[k]]
    {
      if k in byPlatform {
        CachedIsOwner(k);
        return Some(byPlatform[k]);
      }
      if k !in index {
        return None;
      }
      assert IsIndexed(Abs(), index[k], k) && Owns(Abs(), index[k], k);
      u := LoadUser(index[k]);
    }

    /** The three statements always run when both users exist; the store stays whole unless both are
        the same user with an identity, who is then deleted under its index entries. */
    method MergeUsers(primary: string, secondary: string) returns (r: Result<User, StoreError>)
      requires Valid()
      modifies this
      ensures Abs() == if primary in old(users) && secondary in old(users) then Merge(old(Abs()), primary, secondary)
                       else old(Abs())
      ensures primary !in old(users) ==> r == Err(UserNotFound(primary))
      ensures primary in old(users) && secondary !in old(users) ==> r == Err(UserNotFound(secondary))
      ensures primary in old(users) && secondary in old(users) ==>
                r == if primary == secondary then Err(AssertionFailed)
                     else Ok(Merge(old(Abs()), primary, secondary).users[primary])
      ensures primary != secondary || primary !in old(users) || old(users)[primary].identities == [] ==> Valid()
    {
      hide Partitioned, CachesAgree, CoversKeys, Joined, Repoint;
      var p := LoadUser(primary);
      var s := LoadUser(secondary);
      if p.None? {
        return Err(UserNotFound(primary));
      }
      if s.None? {
        return Err(UserNotFound(secondary));
      }
      MergeKeepsPartitionIff(Abs(), primary, secondary);
      MergedCovers(Abs(), primary, secondary);
      var merged := p.value.(identities := Joined(p.value.identities, s.value.identities));
      ghost var rows := users;
      index := Repoint(index, secondary, primary);
      users := users[primary := merged] - {secondary};
      InvalidateByUsername(secondary, rows);
      Invalidate(merged, rows - {secondary});
      assert rows - {secondary} - {primary} == users - {primary};
      FewerRowsAgree(users - {primary}, users);
      var loaded := LoadUser(primary);
      if loaded.None? {
        return Err(AssertionFailed);
      }
      PopulateCache(loaded.value, users);
      assert users[primary := users[primary]] == users;
      r := Ok(loaded.value);
    }

    method RenameUser(username: string, newName: string) returns (r: Result<User, StoreError>)
      requires Valid()
      modifies this
      ensures Valid()
      ensures Abs() == if newName in old(users) then old(Abs()) else Rename(old(Abs()), username, newName)
      ensures newName in old(users) ==> r == Err(UsernameConflict)
      ensures newName !in old(users) ==>
                r == if username in old(users) then Ok(old(users)[username].(username := newName))
                     else Err(AssertionFailed)
    {
      hide NoRepeats, HasKey;
      if newName in users {
        return Err(UsernameConflict);
      }
      RenameKeepsPartition(Abs(), username, newName);
      index := Repoint(index, username, newName);
      if username in users {
        users := (users - {username})[newName := users[username].(username := newName)];
      }
      InvalidateByUsername(username, old(users));
      FewerRowsAgree(old(users) - {username}, users);
      var loaded := LoadUser(newName);
      if loaded.None? {
        return Err(AssertionFailed);
      }
      PopulateCache(loaded.value, users);
      r := Ok(loaded.value);
    }
  }

  /** The owner the index names, with the identity as it was seen; every other row is as before. */
  predicate Recognised(before: Tables, after: Tables, u: User, seen: Identity) {
    u.username in before.users && IsIndexed(before, u.username, KeyOf(seen))
    && u == before.users[u.username].(identities := Refresh(before.users[u.username].identities, seen))
    && seen in u.identities
    && after == Update(before, u)
  }

  lemma MergedCovers(t: Tables, primary: string, secondary: string)
    requires Partitioned(t) && primary in t.users && secondary in t.users
    ensures t.users[primary].username == primary
    ensures CoversKeys(Joined(t.users[primary].identities, t.users[secondary].identities), t.users[primary].identities)
  {
    JoinedKeys(t.users[primary].identities, t.users[secondary].identities);
  }

  lemma RowIsRecognised(t: Tables, seen: Identity)
    requires Partitioned(t) && KeyOf(seen) in t.index
    ensures var name := t.index[KeyOf(seen)];
            name in t.users
            && t.users[name].username == name
            && seen in Refresh(t.users[name].identities, seen)
            && HasKey(Refresh(t.users[name].identities, seen), KeyOf(seen))
  {
    var name := t.index[KeyOf(seen)];
    assert IsIndexed(t, name, KeyOf(seen)) && Owns(t, name, KeyOf(seen));
    RefreshHasSeen(t.users[name].identities, seen);
  }

  lemma RowHasNoRepeats(t: Tables, name: string)
    requires Partitioned(t) && name in t.users
    ensures NoRepeats(t.users[name].identities)
  {}

  lemma {:induction false} RefreshNowhere(ids: seq<Identity>, seen: Identity)
    requires forall j | 0 <= j < |ids| :: KeyOf(ids[j]) != KeyOf(seen)
    ensures Refresh(ids, seen) == ids
  {
    if ids != [] {
      RefreshNowhere(ids[1..], seen);
    }
  }

  lemma {:induction false} RefreshAt(ids: seq<Identity>, seen: Identity, i: nat)
    requires NoRepeats(ids) && i < |ids| && KeyOf(ids[i]) == KeyOf(seen)
    requires forall j | 0 <= j < i :: KeyOf(ids[j]) != KeyOf(seen)
    ensures Refresh(ids, seen) == ids[i := seen] && HasKeysOf(Refresh(ids, seen), ids)
  {
    RefreshKeepsKeys(ids, seen);
    assert forall j | 0 <= j < |ids| :: Refresh(ids, seen)[j] == ids[i := seen][j];
  }

  lemma OneMoreKey(ids: seq<Identity>, i: nat)
    requires i < |ids|
    ensures forall k :: HasKey(ids[..i + 1], k) <==> HasKey(ids[..i], k) || k == KeyOf(ids[i])
  {}
}
