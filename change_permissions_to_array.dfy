/** The data migration that changed how a user's permissions are stored:
    `up` replaces a per-application hash by the Panopticon entry alone, and
    `down` wraps a stored value back into a hash under "Panopticon". The
    users collection is an array of documents rewritten in place; saving a
    document stamps it with the time `now`. */
module PermissionsMigration {

  /** A stored document value. */
  datatype Value = Nil | Str(s: string) | Arr(items: seq<Value>) | Hash(entries: map<string, Value>)

  /** One `panopticon_users` document: its permissions, its `updated_at`
      stamp, and every other field, which the migration never touches. */
  datatype User = User(permissions: Value, updatedAt: int, otherFields: map<string, Value>)

  const Application := "Panopticon"

  /** `hash[key]`: nil when the key is absent. */
  function Lookup(entries: map<string, Value>, key: string): (v: Value)
    ensures key in entries ==> v == entries[key]
    ensures key !in entries ==> v == Nil
  {
    if key in entries then entries[key] else Nil
  }

  /** `up` on one user: a hash becomes its Panopticon entry and the user is
      saved; any other value is left alone, unsaved. */
  function UpUser(u: User, now: int): (r: User)
    ensures u.permissions.Hash? ==> r == User(Lookup(u.permissions.entries, Application), now, u.otherFields)
    ensures !u.permissions.Hash? ==> r == u
  {
    if u.permissions.Hash? then u.(permissions := Lookup(u.permissions.entries, Application), updatedAt := now)
    else u
  }

  /** `down` on one user: a non-nil value is wrapped as {"Panopticon" => value}
      and the user is saved; nil is left alone, unsaved. */
  function DownUser(u: User, now: int): (r: User)
    ensures u.permissions != Nil ==> r == User(Hash(map[Application := u.permissions]), now, u.otherFields)
    ensures u.permissions == Nil ==> r == u
  {
    if u.permissions != Nil then u.(permissions := Hash(map[Application := u.permissions]), updatedAt := now)
    else u
  }

  /** `up` after `down` gives every user back the permissions they had;
      only the timestamp of a rewritten user differs. */
  lemma UpAfterDown(u: User, t1: int, t2: int)
    ensures UpUser(DownUser(u, t1), t2).permissions == u.permissions
    ensures UpUser(DownUser(u, t1), t2).otherFields == u.otherFields
    ensures u.permissions == Nil ==> UpUser(DownUser(u, t1), t2) == u
  {
    if u.permissions != Nil {
      assert Lookup(map[Application := u.permissions], Application) == u.permissions;
    }
  }

  /** `down` after `up` restores a hash only when it held the Panopticon
      entry alone, with a non-nil value; another application's entry is lost. */
  lemma DownAfterUp(u: User, t1: int, t2: int)
    requires u.permissions.Hash?
    ensures DownUser(UpUser(u, t1), t2).permissions == u.permissions <==>
      u.permissions.entries.Keys == {Application} && u.permissions.entries[Application] != Nil
  {
    var e := u.permissions.entries;
    var p := Lookup(e, Application);
    if p != Nil && DownUser(UpUser(u, t1), t2).permissions == u.permissions {
      assert e == map[Application := p];
    }
    if e.Keys == {Application} && e[Application] != Nil {
      assert e == map[Application := e[Application]];
    }
  }

  /** A user with permissions for Panopticon and another application comes
      back from `up` and `down` with the Panopticon entry only. */
  lemma DownAfterUpLosesOtherApplications(t1: int, t2: int)
    ensures var before := User(Hash(map["Panopticon" := Arr([Str("signin")]), "Publisher" := Arr([Str("signin")])]), 0, map[]);
      && DownUser(UpUser(before, t1), t2).permissions == Hash(map["Panopticon" := Arr([Str("signin")])])
      && DownUser(UpUser(before, t1), t2).permissions != before.permissions
  {
    var before := User(Hash(map["Panopticon" := Arr([Str("signin")]), "Publisher" := Arr([Str("signin")])]), 0, map[]);
    assert "Publisher" in before.permissions.entries;
    assert "Publisher" !in map["Panopticon" := Arr([Str("signin")])];
  }

  /** `up` over the whole collection, as a value. */
  function UpAll(users: seq<User>, now: int): (r: seq<User>)
    ensures |r| == |users|
    ensures forall i :: 0 <= i < |users| ==> r[i] == UpUser(users[i], now)
  {
    if users == [] then [] else UpAll(users[..|users| - 1], now) + [UpUser(users[|users| - 1], now)]
  }

  /** `down` over the whole collection, as a value. */
  function DownAll(users: seq<User>, now: int): (r: seq<User>)
    ensures |r| == |users|
    ensures forall i :: 0 <= i < |users| ==> r[i] == DownUser(users[i], now)
  {
    if users == [] then [] else DownAll(users[..|users| - 1], now) + [DownUser(users[|users| - 1], now)]
  }

  /** Migrating down then up leaves every user of the collection with the
      permissions and fields it started with. */
  lemma RollbackThenMigrate(users: seq<User>, t1: int, t2: int)
    ensures var after := UpAll(DownAll(users, t1), t2);
      && |after| == |users|
      && forall i :: 0 <= i < |users| ==>
           after[i].permissions == users[i].permissions && after[i].otherFields == users[i].otherFields
  {
    var after := UpAll(DownAll(users, t1), t2);
    forall i | 0 <= i < |users|
      ensures after[i].permissions == users[i].permissions && after[i].otherFields == users[i].otherFields
    {
      UpAfterDown(users[i], t1, t2);
    }
  }

  /** `self.up`: every user whose permissions are a hash is rewritten and
      saved, one at a time, in collection order. */
  method Up(users: array<User>, now: int)
    modifies users
    ensures users[..] == UpAll(old(users[..]), now)
  {
    var i := 0;
    while i < users.Length
      invariant 0 <= i <= users.Length
      invariant forall j :: 0 <= j < i ==> users[j] == UpUser(old(users[j]), now)
      invariant forall j :: i <= j < users.Length ==> users[j] == old(users[j])
    {
      var user := users[i];
      if user.permissions.Hash? {
        users[i] := user.(permissions := Lookup(user.permissions.entries, Application), updatedAt := now);
      }
      i := i + 1;
    }
  }

  /** `self.down`: every user whose permissions are not nil is rewritten and
      saved, one at a time, in collection order. */
  method Down(users: array<User>, now: int)
    modifies users
    ensures users[..] == DownAll(old(users[..]), now)
  {
    var i := 0;
    while i < users.Length
      invariant 0 <= i <= users.Length
      invariant forall j :: 0 <= j < i ==> users[j] == DownUser(old(users[j]), now)
      invariant forall j :: i <= j < users.Length ==> users[j] == old(users[j])
    {
      var user := users[i];
      if user.permissions != Nil {
        users[i] := user.(permissions := Hash(map[Application := user.permissions]), updatedAt := now);
      }
      i := i + 1;
    }
  }
}
