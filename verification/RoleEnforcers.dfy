// The role driver's composites, and what any enforcement may do to a collection
// of roles.

module RoleEnforcers {
  import opened Wrappers
  import opened Json
  import opened RoleMappings

  // What a failed or successful enforcement may do to one collection: only
  // unwanted string ids go, only wanted ones come.
  ghost predicate Monotone(before: seq<Fields>, wanted: set<Json>, after: seq<Fields>)
  {
    && Ids(before) - (StringIds(before) - wanted) <= Ids(after)
    && Ids(after) <= Ids(before) + wanted
  }

  // A diff against what the collection holds makes it exact.
  lemma DiffExact(before: seq<Fields>, desired: seq<Fields>, after: seq<Fields>)
    requires Ids(after) ==
             Ids(before) + (StringIds(desired) - StringIds(before)) - (StringIds(before) - StringIds(desired))
    ensures StringIds(after) == StringIds(desired)
  {
  }

  // ------------------------------------------------------------ Composites

  datatype Members = Members(realmRoles: seq<string>, clientRoles: map<string, seq<string>>)
  datatype RoleSpec = RoleSpec(composite: Option<bool>, composites: Option<Members>)

  function ClientWanted(dir: Directory, roles: map<string, seq<string>>): (r: set<Json>)
  {
    set c, id | c in roles && c in dir.uuids && id in Wanted(RolesOf(dir, c), roles[c]) :: id
  }

  // A role that is not declared composite is to have no members.
  function CompositeIds(spec: RoleSpec, dir: Directory): (r: set<Json>)
  {
    if spec.composite == Some(true) && spec.composites.Some?
    then Wanted(dir.realmRoles, spec.composites.value.realmRoles) + ClientWanted(dir, spec.composites.value.clientRoles)
    else {}
  }

  predicate Unresolved(spec: RoleSpec, dir: Directory)
  {
    && spec.composite == Some(true) && spec.composites.Some?
    && (|| (exists n :: n in spec.composites.value.realmRoles && n !in dir.realmRoles)
        || (exists c :: c in spec.composites.value.clientRoles
              && Unresolvable(dir, c, spec.composites.value.clientRoles[c])))
  }

  lemma StringIdsOfSum(a: seq<Fields>, b: seq<Fields>)
    ensures StringIds(a + b) == StringIds(a) + StringIds(b)
  {
    IdsOfSum(a, b);
  }

  lemma ClientWantedStep(dir: Directory, done: map<string, seq<string>>, client: string, names: seq<string>)
    requires client !in done && client in dir.uuids
    ensures ClientWanted(dir, done[client := names]) == ClientWanted(dir, done) + Wanted(RolesOf(dir, client), names)
  {
    var more := done[client := names];
    forall id | id in ClientWanted(dir, done)
      ensures id in ClientWanted(dir, more)
    {
      var c :| c in done && c in dir.uuids && id in Wanted(RolesOf(dir, c), done[c]);
      assert c in more && more[c] == done[c];
    }
    forall id | id in Wanted(RolesOf(dir, client), names)
      ensures id in ClientWanted(dir, more)
    {
      assert client in more && more[client] == names;
    }
    forall id | id in ClientWanted(dir, more)
      ensures id in ClientWanted(dir, done) + Wanted(RolesOf(dir, client), names)
    {
      var c :| c in more && c in dir.uuids && id in Wanted(RolesOf(dir, c), more[c]);
      assert c != client ==> c in done && more[c] == done[c];
    }
  }

  method ResolveComposites(server: RoleServer, spec: RoleSpec, dir: Directory) returns (r: Option<seq<Fields>>)
    modifies server`failures
    ensures r.Some? ==>
              server.failures == old(server.failures) && StringIds(r.value) == CompositeIds(spec, dir)
                && !Unresolved(spec, dir)
    ensures r.None? ==> server.failures > old(server.failures) || Unresolved(spec, dir)
  {
    if spec.composite != Some(true) || spec.composites.None? {
      return Some([]);
    }
    var members := spec.composites.value;
    var realm := server.ResolveRoles(dir.realmRoles, members.realmRoles);
    if realm.None? {
      return None;
    }
    hide StringIds, Wanted;
    var out := realm.value;
    var todo := members.clientRoles.Keys;
    ghost var done: map<string, seq<string>> := map[];
    assert ClientWanted(dir, done) == {};
    hide ClientWanted;
    while todo != {}
      invariant todo <= members.clientRoles.Keys
      invariant done == map c | c in members.clientRoles && c !in todo :: members.clientRoles[c]
      invariant server.failures == old(server.failures)
      invariant forall c :: c in members.clientRoles && c !in todo ==> !Unresolvable(dir, c, members.clientRoles[c])
      invariant StringIds(out) == Wanted(dir.realmRoles, members.realmRoles) + ClientWanted(dir, done)
      decreases todo
    {
      var client :| client in todo;
      var roles := server.ResolveClientRoles(dir, client, members.clientRoles[client]);
      if roles.None? {
        return None;
      }
      StringIdsOfSum(out, roles.value);
      out := out + roles.value;
      todo := todo - {client};
      ClientWantedStep(dir, done, client, members.clientRoles[client]);
      done := done[client := members.clientRoles[client]];
    }
    assert done == members.clientRoles;
    r := Some(out);
  }

  // Makes the members of a role exactly the declared ones.
  method EnforceComposites(server: RoleServer, spec: RoleSpec, dir: Directory) returns (changed: bool, ok: bool)
    modifies server
    ensures OnlyIn(old(server.store), server.store, {Composites})
    ensures Monotone(At(old(server.store), Composites), CompositeIds(spec, dir), At(server.store, Composites))
    ensures ok ==>
              && server.failures == old(server.failures) && !Unresolved(spec, dir)
              && StringIds(At(server.store, Composites)) == CompositeIds(spec, dir)
              && (changed <==> At(server.store, Composites) != At(old(server.store), Composites))
              && (changed <==> server.writes > old(server.writes))
              && (changed <==> StringIds(At(old(server.store), Composites)) != CompositeIds(spec, dir))
    ensures StringIds(At(old(server.store), Composites)) == CompositeIds(spec, dir) ==>
            server.writes == old(server.writes)
    ensures Counted(old(server.writes), old(server.store), server.writes, server.store)
    ensures !ok ==> server.failures > old(server.failures) || Unresolved(spec, dir)
  {
    var call := server.Take();
    if !call.Ok? {
      return false, false;
    }
    var current := At(server.store, Composites);
    var desired := ResolveComposites(server, spec, dir);
    if desired.None? {
      return false, false;
    }
    var added, removed;
    added, removed, ok := server.ApplyRoleDiff(Composites, desired.value, current);
    if ok {
      DiffExact(current, desired.value, At(server.store, Composites));
    }
    changed := ok && added;
  }
}
