// What it means for the collections of a resource to be as desired, in terms of
// the scopes, roles and clients of the realm.

module GoalMeaning {
  import opened Wrappers
  import opened Json
  import opened Drivers
  import opened PostProcessing
  import SA = ScopeAssignments
  import RM = RoleMappings
  import RE = RoleEnforcers
  import GM = GroupMappings
  import IM = IdpMappers

  // ----------------------------------------------------------------- Scopes

  // The assigned scopes have exactly the listed names.
  ghost predicate NamedExactly(scopes: map<string, string>, ids: seq<string>, names: seq<string>)
  {
    forall n :: n in names <==> exists id :: id in ids && id in scopes && scopes[id] == n
  }

  lemma NamedIff(scopes: map<string, string>, ids: seq<string>, names: seq<string>)
    ensures SA.AsNamed(scopes, Some(names), ids) <==> NamedExactly(scopes, ids, names)
  {
    var have := SA.NamesOf(scopes, SA.Elements(ids));
    assert forall n :: n in have <==> exists id :: id in ids && id in scopes && scopes[id] == n;
    assert forall n :: n in SA.Elements(names) <==> n in names;
  }

  lemma ClientGoalIff(j: Job, side: Side)
    requires j.kind.Client?
    ensures Goal(j, side) <==>
            && (j.wish.client.defaults.Some? ==>
                 NamedExactly(j.around.scopes, side.defaults, j.wish.client.defaults.value))
            && (j.wish.client.optionals.Some? ==>
                 NamedExactly(j.around.scopes, side.optionals, j.wish.client.optionals.value))
  {
    if j.wish.client.defaults.Some? {
      NamedIff(j.around.scopes, side.defaults, j.wish.client.defaults.value);
    }
    if j.wish.client.optionals.Some? {
      NamedIff(j.around.scopes, side.optionals, j.wish.client.optionals.value);
    }
  }

  // ------------------------------------------------------------------ Roles

  predicate HasRole(reps: seq<Fields>, id: string)
  {
    exists r :: r in reps && "id" in r && r["id"] == Str(id)
  }

  // One of the named roles has this id.
  predicate Names(roles: map<string, Fields>, names: seq<string>, id: string)
  {
    exists n :: n in names && n in roles && "id" in roles[n] && roles[n]["id"] == Str(id)
  }

  // The same for the roles of a client.
  predicate NamesOfClient(dir: RM.Directory, client: string, names: seq<string>, id: string)
  {
    && client in dir.uuids && dir.uuids[client] in dir.clientRoles
    && Names(dir.clientRoles[dir.uuids[client]], names, id)
  }

  predicate ClientHas(dir: RM.Directory, client: string, name: string)
  {
    && client in dir.uuids && dir.uuids[client] in dir.clientRoles
    && name in dir.clientRoles[dir.uuids[client]]
  }

  lemma HeldIff(reps: seq<Fields>, id: Json)
    ensures id in RM.StringIds(reps) <==> id.Str? && HasRole(reps, id.s)
  {
    if id in RM.StringIds(reps) {
      var r :| r in reps && RM.IdOf(r) == id;
    }
    if id.Str? && HasRole(reps, id.s) {
      var r :| r in reps && "id" in r && r["id"] == Str(id.s);
      assert RM.IdOf(r) == id;
    }
  }

  lemma WantedIff(roles: map<string, Fields>, names: seq<string>, id: Json)
    ensures id in RM.Wanted(roles, names) <==> id.Str? && Names(roles, names, id.s)
  {
    if id.Str? && Names(roles, names, id.s) {
      var n :| n in names && n in roles && "id" in roles[n] && roles[n]["id"] == Str(id.s);
      assert RM.IdOf(roles[n]) == id;
    }
  }

  lemma ClientWantedIff(dir: RM.Directory, client: string, names: seq<string>, id: Json)
    requires client in dir.uuids
    ensures id in RM.Wanted(RM.RolesOf(dir, client), names) <==> id.Str? && NamesOfClient(dir, client, names, id.s)
  {
    WantedIff(RM.RolesOf(dir, client), names, id);
  }

  // The roles held are exactly those the named roles have as ids.
  lemma RolesIff(reps: seq<Fields>, roles: map<string, Fields>, names: seq<string>)
    ensures RM.StringIds(reps) == RM.Wanted(roles, names) <==> forall id :: HasRole(reps, id) <==>
            Names(roles, names, id)
  {
    forall id: Json
      ensures id in RM.StringIds(reps) <==> id.Str? && HasRole(reps, id.s)
      ensures id in RM.Wanted(roles, names) <==> id.Str? && Names(roles, names, id.s)
    {
      HeldIff(reps, id);
      WantedIff(roles, names, id);
    }
    hide RM.StringIds, RM.Wanted, HasRole, Names;
    if RM.StringIds(reps) == RM.Wanted(roles, names) {
      forall id
        ensures HasRole(reps, id) <==> Names(roles, names, id)
      {
        assert Str(id) in RM.StringIds(reps) <==> Str(id) in RM.Wanted(roles, names);
      }
    }
  }

  // A member the role declares: one of its realm roles, or a role of one of its
  // clients.
  predicate Declares(spec: RE.RoleSpec, dir: RM.Directory, id: string)
  {
    && spec.composite == Some(true) && spec.composites.Some?
    && (|| Names(dir.realmRoles, spec.composites.value.realmRoles, id)
        || exists c :: c in spec.composites.value.clientRoles
             && NamesOfClient(dir, c, spec.composites.value.clientRoles[c], id))
  }

  lemma DeclaredIff(spec: RE.RoleSpec, dir: RM.Directory, id: Json)
    ensures id in RE.CompositeIds(spec, dir) <==> id.Str? && Declares(spec, dir, id.s)
  {
    if spec.composite == Some(true) && spec.composites.Some? {
      var members := spec.composites.value;
      WantedIff(dir.realmRoles, members.realmRoles, id);
      forall c | c in members.clientRoles && c in dir.uuids
        ensures id in RM.Wanted(RM.RolesOf(dir, c), members.clientRoles[c]) <==>
                id.Str? && NamesOfClient(dir, c, members.clientRoles[c], id.s)
      {
        ClientWantedIff(dir, c, members.clientRoles[c], id);
      }
      hide RM.Wanted, Names;
      assert id in RE.ClientWanted(dir, members.clientRoles) <==>
             exists c :: c in members.clientRoles && c in dir.uuids
               && id in RM.Wanted(RM.RolesOf(dir, c), members.clientRoles[c]);
    }
  }

  // A role whose members are as desired has exactly the declared ones.
  lemma RoleGoalSays(j: Job, side: Side)
    requires j.kind.RealmRole? && Goal(j, side)
    ensures forall id :: HasRole(RM.At(side.roles, RM.Composites), id) <==> Declares(j.wish.role, j.around.dir, id)
    ensures j.wish.role.composite == Some(true) && j.wish.role.composites.Some? ==>
              var members := j.wish.role.composites.value;
              && (forall n :: n in members.realmRoles ==> n in j.around.dir.realmRoles)
              && (forall c, n :: c in members.clientRoles && n in members.clientRoles[c] ==>
                   ClientHas(j.around.dir, c, n))
  {
    var reps := RM.At(side.roles, RM.Composites);
    forall id
      ensures HasRole(reps, id) <==> Declares(j.wish.role, j.around.dir, id)
    {
      HeldIff(reps, Str(id));
      DeclaredIff(j.wish.role, j.around.dir, Str(id));
    }
    if j.wish.role.composite == Some(true) && j.wish.role.composites.Some? {
      var members := j.wish.role.composites.value;
      forall c, n | c in members.clientRoles && n in members.clientRoles[c]
        ensures ClientHas(j.around.dir, c, n)
      {
        assert !RM.Unresolvable(j.around.dir, c, members.clientRoles[c]);
      }
    }
  }

  // A group whose mappings are as desired: exactly the declared realm roles,
  // exactly the listed roles of every listed client, nothing for the others.
  lemma GroupGoalSays(j: Job, side: Side)
    requires j.kind.Group? && Goal(j, side)
    ensures j.wish.group.realmRoles.Some? ==>
              forall id :: HasRole(RM.At(side.roles, RM.GroupRealm), id) <==>
                           Names(j.around.dir.realmRoles, j.wish.group.realmRoles.value, id)
    ensures j.wish.group.clientRoles.Some? ==>
              var listed := j.wish.group.clientRoles.value;
              && (forall c :: c in listed ==>
                    && c in j.around.dir.uuids
                    && forall id :: HasRole(RM.At(side.roles, RM.GroupClient(j.around.dir.uuids[c])), id) <==>
                                    NamesOfClient(j.around.dir, c, listed[c], id))
              && (forall c :: c in j.around.dir.uuids && c !in listed ==>
                    RM.At(side.roles, RM.GroupClient(j.around.dir.uuids[c])) == [])
  {
    var dir := j.around.dir;
    if j.wish.group.realmRoles.Some? {
      RolesIff(RM.At(side.roles, RM.GroupRealm), dir.realmRoles, j.wish.group.realmRoles.value);
    }
    if j.wish.group.clientRoles.Some? {
      var listed := j.wish.group.clientRoles.value;
      forall c | c in listed
        ensures c in dir.uuids
        ensures forall id :: HasRole(RM.At(side.roles, RM.GroupClient(dir.uuids[c])), id) <==>
                NamesOfClient(dir, c, listed[c], id)
      {
        assert !RM.Unresolvable(dir, c, listed[c]);
        RolesIff(RM.At(side.roles, RM.GroupClient(dir.uuids[c])), RM.RolesOf(dir, c), listed[c]);
      }
    }
  }

  // An identity provider whose mappers are as desired has exactly the declared
  // ones, each as it was last declared.
  lemma MapperGoalSays(j: Job, side: Side)
    requires j.kind.IdentityProvider? && Goal(j, side)
    ensures forall i :: 0 <= i < |j.wish.mappers| && IM.IsLast(j.wish.mappers, i) ==>
              exists id :: id in side.mappers && IM.IsDeclared(side.mappers[id], j.wish.mappers[i])
    ensures forall id :: id in side.mappers ==>
              exists i :: 0 <= i < |j.wish.mappers| && IM.IsLast(j.wish.mappers, i)
                && IM.IsDeclared(side.mappers[id], j.wish.mappers[i])
  {
    hide IM.Desired, IM.Matches, IM.IsDeclared;
    IM.MatchesDeclared(side.mappers, j.wish.mappers, j.key);
  }
}
