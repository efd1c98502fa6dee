// Role collections: the composites of a role and the role mappings of a group.
// Desired and current representations are compared by id, and the difference
// is applied in at most one add and one remove request per collection.

module RoleMappings {
  import opened Wrappers
  import opened Json
  import opened Calls

  // The collections of one object; client roles are addressed by the client's
  // server-side id.
  datatype Slot = Composites | GroupRealm | GroupClient(uuid: string)

  type Store = map<Slot, seq<Fields>>

  function At(store: Store, slot: Slot): (r: seq<Fields>)
  {
    if slot in store then store[slot] else []
  }

  function IdOf(rep: Fields): (r: Json)
  {
    if "id" in rep then rep["id"] else Null
  }

  function Ids(reps: seq<Fields>): (r: set<Json>)
  {
    set rep | rep in reps :: IdOf(rep)
  }

  // Only string ids take part in a diff.
  function StringIds(reps: seq<Fields>): (r: set<Json>)
  {
    set id | id in Ids(reps) && id.Str?
  }

  // The representations whose id is not dropped.
  function Keep(reps: seq<Fields>, drop: set<Json>): (r: seq<Fields>)
    ensures forall rep :: rep in r <==> rep in reps && IdOf(rep) !in drop
  {
    if reps == [] then []
    else
      var last := reps[|reps| - 1];
      assert reps == reps[..|reps| - 1] + [last];
      Keep(reps[..|reps| - 1], drop) + if IdOf(last) in drop then [] else [last]
  }

  lemma IdsOfKeep(reps: seq<Fields>, drop: set<Json>)
    ensures Ids(Keep(reps, drop)) == Ids(reps) - drop
  {
    forall id | id in Ids(reps) - drop
      ensures id in Ids(Keep(reps, drop))
    {
      var rep :| rep in reps && IdOf(rep) == id;
      assert rep in Keep(reps, drop);
    }
  }

  lemma IdsOfSum(a: seq<Fields>, b: seq<Fields>)
    ensures Ids(a + b) == Ids(a) + Ids(b)
  {
    forall id | id in Ids(a) + Ids(b)
      ensures id in Ids(a + b)
    {
      var rep :| (rep in a || rep in b) && IdOf(rep) == id;
      assert rep in a + b;
    }
  }

  // Stores differ at most in the given slots.
  ghost predicate OnlyIn(before: Store, after: Store, slots: set<Slot>)
  {
    forall s :: s !in slots ==> At(after, s) == At(before, s)
  }

  // Without a further write the store is the same.
  ghost predicate Counted(writes: nat, store: Store, writes': nat, store': Store)
  {
    writes <= writes' && (writes == writes' ==> store == store')
  }

  // ---------------------------------------------------------------- Server

  method HasId(reps: seq<Fields>, id: Json) returns (r: bool)
    ensures r <==> id in Ids(reps)
  {
    for i := 0 to |reps|
      invariant id !in Ids(reps[..i])
    {
      if IdOf(reps[i]) == id {
        assert reps[i] in reps;
        return true;
      }
      assert reps[..i + 1] == reps[..i] + [reps[i]];
    }
    assert reps[..|reps|] == reps;
    return false;
  }

  method AppendUniqueReps(current: seq<Fields>, add: seq<Fields>) returns (r: seq<Fields>)
    ensures r == current + Keep(add, Ids(current))
  {
    r := current;
    for i := 0 to |add|
      invariant r == current + Keep(add[..i], Ids(current))
    {
      assert add[..i + 1][..i] == add[..i];
      var found := HasId(current, IdOf(add[i]));
      if !found {
        r := r + [add[i]];
      }
    }
    assert add[..|add|] == add;
  }

  method RemoveReps(current: seq<Fields>, remove: seq<Fields>) returns (r: seq<Fields>)
    ensures r == Keep(current, Ids(remove))
  {
    r := [];
    for i := 0 to |current|
      invariant r == Keep(current[..i], Ids(remove))
    {
      assert current[..i + 1][..i] == current[..i];
      var drop := HasId(remove, IdOf(current[i]));
      if !drop {
        r := r + [current[i]];
      }
    }
    assert current[..|current|] == current;
  }

  // Roles and clients of the realm; clients have distinct ids.
  datatype Directory = Directory(realmRoles: map<string, Fields>, uuids: map<string, string>,
                                 clientRoles: map<string, map<string, Fields>>)

  predicate Distinct(dir: Directory)
  {
    forall a, b :: a in dir.uuids && b in dir.uuids && dir.uuids[a] == dir.uuids[b] ==> a == b
  }

  function RolesOf(dir: Directory, client: string): (r: map<string, Fields>)
    requires client in dir.uuids
  {
    if dir.uuids[client] in dir.clientRoles then dir.clientRoles[dir.uuids[client]] else map[]
  }

  // The string ids of the named roles.
  function Wanted(roles: map<string, Fields>, names: seq<string>): (r: set<Json>)
  {
    set n | n in names && n in roles && IdOf(roles[n]).Str? :: IdOf(roles[n])
  }

  // The role side of the server. Each call may fail, before or after it took
  // effect.
  class RoleServer {
    var store: Store
    var writes: nat
    var failures: nat

    constructor (store: Store)
      ensures this.store == store && writes == 0 && failures == 0
    {
      this.store, this.writes, this.failures := store, 0, 0;
    }

    method Take() returns (call: Call)
      modifies this`failures
      ensures if call.Ok? then failures == old(failures) else failures > old(failures)
    {
      call := *;
      if !call.Ok? {
        failures := failures + 1;
      }
    }

    method Post(slot: Slot, reps: seq<Fields>) returns (ok: bool)
      modifies this
      ensures OnlyIn(old(store), store, {slot}) && writes == old(writes) + 1
      ensures if ok then failures == old(failures) else failures > old(failures)
      ensures (store == old(store) && !ok) ||
              At(store, slot) == At(old(store), slot) + Keep(reps, Ids(At(old(store), slot)))
      ensures (store == old(store) && !ok) || Ids(At(store, slot)) == Ids(At(old(store), slot)) + Ids(reps)
    {
      var call := Take();
      writes := writes + 1;
      if call.Took() {
        var after := AppendUniqueReps(At(store, slot), reps);
        IdsOfKeep(reps, Ids(At(store, slot)));
        IdsOfSum(At(store, slot), Keep(reps, Ids(At(store, slot))));
        store := store[slot := after];
      }
      ok := call.Ok?;
    }

    method Remove(slot: Slot, reps: seq<Fields>) returns (ok: bool)
      modifies this
      ensures OnlyIn(old(store), store, {slot}) && writes == old(writes) + 1
      ensures if ok then failures == old(failures) else failures > old(failures)
      ensures (store == old(store) && !ok) || At(store, slot) == Keep(At(old(store), slot), Ids(reps))
      ensures (store == old(store) && !ok) || Ids(At(store, slot)) == Ids(At(old(store), slot)) - Ids(reps)
    {
      var call := Take();
      writes := writes + 1;
      if call.Took() {
        var after := RemoveReps(At(store, slot), reps);
        IdsOfKeep(At(store, slot), Ids(reps));
        store := store[slot := after];
      }
      ok := call.Ok?;
    }

    // Diffs by id and applies the difference. current is what was read, which
    // need not be what the server holds by now.
    method ApplyRoleDiff(slot: Slot, desired: seq<Fields>, current: seq<Fields>)
      returns (added: bool, removed: bool, ok: bool)
      modifies this
      ensures OnlyIn(old(store), store, {slot})
      ensures Ids(At(store, slot)) >= Ids(At(old(store), slot)) - (StringIds(current) - StringIds(desired))
      ensures Ids(At(store, slot)) <= Ids(At(old(store), slot)) + (StringIds(desired) - StringIds(current))
      ensures ok ==>
                && failures == old(failures)
                && added == removed == (StringIds(current) != StringIds(desired))
                && Ids(At(store, slot)) == Ids(At(old(store), slot))
                     + (StringIds(desired) - StringIds(current)) - (StringIds(current) - StringIds(desired))
                && (added <==> writes > old(writes))
      ensures StringIds(current) == StringIds(desired) ==> writes == old(writes)
      ensures Counted(old(writes), old(store), writes, store)
      ensures !ok ==> failures > old(failures) && !removed
    {
      var desiredIds := IndexById(desired);
      var currentIds := IndexById(current);
      var toAdd := Lacking(desiredIds, currentIds);
      var toRemove := Lacking(currentIds, desiredIds);
      if toAdd == [] && toRemove == [] {
        assert StringIds(desired) - StringIds(current) == {} == StringIds(current) - StringIds(desired);
        return false, false, true;
      }
      assert StringIds(desired) != StringIds(current) by {
        assert toAdd != [] ==> IdOf(toAdd[0]) in Ids(toAdd);
        assert toRemove != [] ==> IdOf(toRemove[0]) in Ids(toRemove);
      }
      hide *;
      added, removed, ok := SendDiff(slot, toAdd, toRemove);
    }

    method SendDiff(slot: Slot, toAdd: seq<Fields>, toRemove: seq<Fields>)
      returns (added: bool, removed: bool, ok: bool)
      modifies this
      ensures OnlyIn(old(store), store, {slot})
      ensures Ids(At(store, slot)) >= Ids(At(old(store), slot)) - Ids(toRemove)
      ensures Ids(At(store, slot)) <= Ids(At(old(store), slot)) + Ids(toAdd)
      ensures Counted(old(writes), old(store), writes, store)
      ensures ok && (toAdd != [] || toRemove != []) ==> writes > old(writes)
      ensures ok ==> failures == old(failures) && added && removed
      ensures ok ==> Ids(At(store, slot)) == Ids(At(old(store), slot)) + Ids(toAdd) - Ids(toRemove)
      ensures !ok ==> failures > old(failures) && !removed
    {
      ok := true;
      if toAdd != [] {
        ok := Post(slot, toAdd);
        if !ok {
          return false, false, false;
        }
      }
      hide Keep;
      if toRemove != [] {
        ok := Remove(slot, toRemove);
        if !ok {
          return true, false, false;
        }
      }
      return true, true, true;
    }

    method ResolveRoles(roles: map<string, Fields>, names: seq<string>) returns (r: Option<seq<Fields>>)
      modifies this`failures
      ensures r.Some? ==>
                && failures == old(failures)
                && StringIds(r.value) == Wanted(roles, names)
                && (forall n :: n in names ==> n in roles)
      ensures r.None? ==> failures > old(failures) || exists n :: n in names && n !in roles
    {
      var out: seq<Fields> := [];
      for i := 0 to |names|
        invariant failures == old(failures)
        invariant |out| == i
        invariant forall j :: 0 <= j < i ==> names[j] in roles && out[j] == roles[names[j]]
      {
        var call := Take();
        if !call.Ok? || names[i] !in roles {
          return None;
        }
        out := out + [roles[names[i]]];
      }
      ResolvedIds(roles, names, out);
      r := Some(out);
    }

    method ResolveClientRoles(dir: Directory, client: string, names: seq<string>) returns (r: Option<seq<Fields>>)
      modifies this`failures
      ensures r.Some? ==>
                && failures == old(failures)
                && client in dir.uuids
                && StringIds(r.value) == Wanted(RolesOf(dir, client), names)
                && (forall n :: n in names ==> n in RolesOf(dir, client))
      ensures r.None? ==> failures > old(failures) || Unresolvable(dir, client, names)
    {
      var call := Take();
      if !call.Ok? || client !in dir.uuids {
        return None;
      }
      r := ResolveRoles(RolesOf(dir, client), names);
    }
  }

  predicate Unresolvable(dir: Directory, client: string, names: seq<string>)
  {
    client !in dir.uuids || exists n :: n in names && n !in RolesOf(dir, client)
  }

  lemma ResolvedIds(roles: map<string, Fields>, names: seq<string>, reps: seq<Fields>)
    requires |reps| == |names|
    requires forall j :: 0 <= j < |names| ==> names[j] in roles && reps[j] == roles[names[j]]
    ensures StringIds(reps) == Wanted(roles, names)
  {
    forall id | id in Wanted(roles, names)
      ensures id in StringIds(reps)
    {
      var n :| n in names && n in roles && IdOf(roles[n]).Str? && IdOf(roles[n]) == id;
      var j :| 0 <= j < |names| && names[j] == n;
      assert reps[j] in reps;
    }
    forall id | id in StringIds(reps)
      ensures id in Wanted(roles, names)
    {
      var rep :| rep in reps && IdOf(rep) == id;
      var j :| 0 <= j < |reps| && reps[j] == rep;
      assert names[j] in names;
    }
  }

  // Representations by id; the last one wins.
  method IndexById(reps: seq<Fields>) returns (r: map<Json, Fields>)
    ensures r.Keys == StringIds(reps)
    ensures forall id :: id in r ==> IdOf(r[id]) == id
  {
    r := map[];
    for i := 0 to |reps|
      invariant r.Keys == StringIds(reps[..i])
      invariant forall id :: id in r ==> IdOf(r[id]) == id
    {
      IdsOfSum(reps[..i], [reps[i]]);
      assert reps[..i + 1] == reps[..i] + [reps[i]];
      if IdOf(reps[i]).Str? {
        r := r[IdOf(reps[i]) := reps[i]];
      }
    }
    assert reps[..|reps|] == reps;
  }

  // The representations of one index that the other lacks, in some order.
  method Lacking(a: map<Json, Fields>, b: map<Json, Fields>) returns (r: seq<Fields>)
    requires forall id :: id in a ==> IdOf(a[id]) == id
    ensures Ids(r) == a.Keys - b.Keys
  {
    r := [];
    var todo := a.Keys;
    while todo != {}
      invariant todo <= a.Keys
      invariant Ids(r) == a.Keys - todo - b.Keys
      decreases todo
    {
      var id :| id in todo;
      if id !in b {
        IdsOfSum(r, [a[id]]);
        r := r + [a[id]];
      }
      todo := todo - {id};
    }
  }
}
