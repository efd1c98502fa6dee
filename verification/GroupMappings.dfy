// The group driver's role mappings: realm roles, clients no longer listed, then
// the listed clients, all diffed against one document read at the start.

module GroupMappings {
  import opened Wrappers
  import opened Json
  import opened RoleMappings
  import opened RoleEnforcers

  // An absent part is not managed; an empty one clears.
  datatype GroupSpec = GroupSpec(realmRoles: Option<seq<string>>, clientRoles: Option<map<string, seq<string>>>)

  datatype Entry = Entry(client: string, mappings: seq<Fields>)
  datatype Document = Document(realm: seq<Fields>, clients: map<string, Entry>)
  datatype Held = Held(uuid: string, mappings: seq<Fields>)

  // The mapping document: clients are keyed by their server-side id, and only
  // those with mappings appear.
  function Report(store: Store, dir: Directory): (r: Document)
    requires Distinct(dir)
  {
    Document(At(store, GroupRealm),
             map c | c in dir.uuids && At(store, GroupClient(dir.uuids[c])) != [] ::
               dir.uuids[c] := Entry(c, At(store, GroupClient(dir.uuids[c]))))
  }

  function HeldBy(store: Store, dir: Directory): (r: map<string, Held>)
  {
    map c | c in dir.uuids && At(store, GroupClient(dir.uuids[c])) != [] ::
      Held(dir.uuids[c], At(store, GroupClient(dir.uuids[c])))
  }

  // The document and the index describe each other.
  ghost predicate Indexed(document: Document, held: map<string, Held>)
  {
    && (forall u :: u in document.clients ==>
          && document.clients[u].client in held
          && held[document.clients[u].client] == Held(u, document.clients[u].mappings))
    && (forall c :: c in held ==> held[c].uuid in document.clients && document.clients[held[c].uuid].client == c)
  }

  lemma ReportIndexed(store: Store, dir: Directory)
    requires Distinct(dir)
    ensures Indexed(Report(store, dir), HeldBy(store, dir))
  {
    var document, held := Report(store, dir), HeldBy(store, dir);
    forall c | c in held
      ensures held[c].uuid in document.clients && document.clients[held[c].uuid].client == c
    {
      assert dir.uuids[c] in document.clients;
    }
  }

  // Re-keys the document by client name; of two entries with one name, either
  // may win.
  method IndexByClient(document: Document) returns (r: map<string, Held>)
    ensures forall u :: u in document.clients ==> document.clients[u].client in r
    ensures forall c :: c in r ==>
              r[c].uuid in document.clients && document.clients[r[c].uuid] == Entry(c, r[c].mappings)
  {
    r := map[];
    var todo := document.clients.Keys;
    while todo != {}
      invariant todo <= document.clients.Keys
      invariant forall u :: u in document.clients && u !in todo ==> document.clients[u].client in r
      invariant forall c :: c in r ==>
                  r[c].uuid in document.clients && document.clients[r[c].uuid] == Entry(c, r[c].mappings)
      decreases todo
    {
      var uuid :| uuid in todo;
      var entry := document.clients[uuid];
      r := r[entry.client := Held(uuid, entry.mappings)];
      todo := todo - {uuid};
    }
  }

  // With distinct clients the index is determined.
  lemma IndexDetermined(document: Document, r: map<string, Held>, held: map<string, Held>)
    requires Indexed(document, held)
    requires forall u :: u in document.clients ==> document.clients[u].client in r
    requires forall c :: c in r ==>
               r[c].uuid in document.clients && document.clients[r[c].uuid] == Entry(c, r[c].mappings)
    ensures r == held
  {
    assert forall c :: c in r ==> c in held && r[c] == held[c];
  }

  // --------------------------------------------------------------- Clients

  ghost predicate Holds(held: map<string, Held>, store: Store)
  {
    && (forall c :: c in held ==> held[c].mappings != [] && At(store, GroupClient(held[c].uuid)) == held[c].mappings)
    && (forall a, b :: a in held && b in held && held[a].uuid == held[b].uuid ==> a == b)
  }

  function SlotsOf(held: map<string, Held>, clients: set<string>): (r: set<Slot>)
  {
    set c | c in held && c in clients :: GroupClient(held[c].uuid)
  }

  lemma {:induction false} KeepNone(reps: seq<Fields>, drop: set<Json>)
    requires forall rep :: rep in reps ==> IdOf(rep) in drop
    ensures Keep(reps, drop) == []
  {
    if reps != [] {
      KeepNone(reps[..|reps| - 1], drop);
    }
  }

  method ClearSlot(server: RoleServer, slot: Slot, mappings: seq<Fields>) returns (ok: bool)
    requires At(server.store, slot) == mappings
    modifies server
    ensures server.writes == old(server.writes) + 1
    ensures OnlyIn(old(server.store), server.store, {slot})
    ensures At(server.store, slot) == [] || (!ok && At(server.store, slot) == mappings)
    ensures if ok then server.failures == old(server.failures) else server.failures > old(server.failures)
  {
    KeepNone(mappings, Ids(mappings));
    ok := server.Remove(slot, mappings);
  }

  // The slots of some clients were emptied, and nothing else changed.
  ghost predicate Cleared(before: Store, after: Store, held: map<string, Held>, gone: set<string>)
  {
    && OnlyIn(before, after, SlotsOf(held, gone))
    && forall c :: c in held && c in gone ==> At(after, GroupClient(held[c].uuid)) == []
  }

  lemma ClearedStep(before: Store, middle: Store, after: Store, held: map<string, Held>, gone: set<string>,
                    client: string)
    requires Holds(held, before) && Cleared(before, middle, held, gone) && client in held && client !in gone
    requires OnlyIn(middle, after, {GroupClient(held[client].uuid)})
    requires At(after, GroupClient(held[client].uuid)) == []
    ensures Cleared(before, after, held, gone + {client})
  {
  }

  lemma ClearedSame(before: Store, middle: Store, after: Store, held: map<string, Held>, gone: set<string>, slot: Slot)
    requires Cleared(before, middle, held, gone)
    requires OnlyIn(middle, after, {slot}) && At(after, slot) == At(middle, slot)
    ensures Cleared(before, after, held, gone)
  {
    assert forall s :: At(after, s) == At(middle, s);
  }

  lemma StillHeld(before: Store, middle: Store, held: map<string, Held>, gone: set<string>, client: string)
    requires Holds(held, before) && Cleared(before, middle, held, gone) && client in held && client !in gone
    ensures held[client].mappings != []
    ensures At(middle, GroupClient(held[client].uuid)) == held[client].mappings
  {
    assert GroupClient(held[client].uuid) !in SlotsOf(held, gone);
  }

  // Clients that are not listed lose all their mappings, whatever their order;
  // a failure stops with some of them still untouched.
  method ClearUnlisted(server: RoleServer, held: map<string, Held>, listed: set<string>)
    returns (changed: bool, ok: bool)
    requires Holds(held, server.store)
    modifies server
    ensures ok ==>
              && server.failures == old(server.failures)
              && Cleared(old(server.store), server.store, held, held.Keys - listed)
              && (changed <==> held.Keys - listed != {})
              && (changed <==> server.writes > old(server.writes))
    ensures held.Keys <= listed ==> server.writes == old(server.writes)
    ensures Counted(old(server.writes), old(server.store), server.writes, server.store)
    ensures !ok ==>
              && server.failures > old(server.failures)
              && exists gone :: gone <= held.Keys - listed && Cleared(old(server.store), server.store, held, gone)
  {
    hide *;
    changed := false;
    var todo := held.Keys;
    ghost var start, gone: set<string> := server.store, {};
    ClearedNone(start, held);
    while todo != {}
      invariant todo <= held.Keys
      invariant gone == held.Keys - todo - listed
      invariant Cleared(start, server.store, held, gone)
      invariant server.failures == old(server.failures)
      invariant changed <==> gone != {}
      invariant changed <==> server.writes > old(server.writes)
      invariant old(server.writes) <= server.writes && (server.writes == old(server.writes) ==> server.store == start)
      decreases todo
    {
      var client :| client in todo;
      todo := todo - {client};
      if client !in listed {
        ghost var middle := server.store;
        StillHeld(start, middle, held, gone, client);
        ok := ClearSlot(server, GroupClient(held[client].uuid), held[client].mappings);
        if At(server.store, GroupClient(held[client].uuid)) == [] {
          ClearedStep(start, middle, server.store, held, gone, client);
          gone := gone + {client};
        } else {
          ClearedSame(start, middle, server.store, held, gone, GroupClient(held[client].uuid));
        }
        if !ok {
          assert gone <= held.Keys - listed;
          CountedMore(old(server.writes), start, server.writes, server.store);
          return changed, false;
        }
        changed := true;
      }
    }
    assert gone == held.Keys - listed;
    CountedMore(old(server.writes), start, server.writes, server.store);
    ok := true;
  }

  lemma ClearedNone(start: Store, held: map<string, Held>)
    ensures Cleared(start, start, held, {})
  {
  }

  lemma CountedMore(writes: nat, store: Store, writes': nat, store': Store)
    requires writes <= writes' && (writes == writes' ==> store == store')
    ensures Counted(writes, store, writes', store')
  {
  }

  function SlotFor(dir: Directory, client: string): (r: Slot)
    requires client in dir.uuids
  {
    GroupClient(dir.uuids[client])
  }

  function ClientSlots(dir: Directory, clients: set<string>): (r: set<Slot>)
  {
    set c | c in clients && c in dir.uuids :: SlotFor(dir, c)
  }

  // Some clients have exactly their listed roles, and nothing else changed.
  ghost predicate Listed(before: Store, after: Store, dir: Directory, roles: map<string, seq<string>>,
                         done: set<string>)
  {
    && OnlyIn(before, after, ClientSlots(dir, done))
    && forall c :: c in done && c in roles ==>
         c in dir.uuids && StringIds(At(after, SlotFor(dir, c))) == Wanted(RolesOf(dir, c), roles[c])
  }

  ghost predicate Same(before: Store, after: Store)
  {
    forall s :: At(after, s) == At(before, s)
  }

  // Wherever the calls stop: listed clients only moved towards their roles.
  ghost predicate Towards(before: Store, after: Store, dir: Directory, roles: map<string, seq<string>>)
  {
    && OnlyIn(before, after, ClientSlots(dir, roles.Keys))
    && forall c :: c in roles && c in dir.uuids ==>
         Monotone(At(before, SlotFor(dir, c)), Wanted(RolesOf(dir, c), roles[c]), At(after, SlotFor(dir, c)))
  }

  lemma ListedStep(before: Store, middle: Store, after: Store, dir: Directory, roles: map<string, seq<string>>,
                   done: set<string>, client: string)
    requires Distinct(dir) && Listed(before, middle, dir, roles, done)
    requires client in roles && client in dir.uuids && client !in done
    requires OnlyIn(middle, after, {SlotFor(dir, client)})
    requires StringIds(At(after, SlotFor(dir, client))) == Wanted(RolesOf(dir, client), roles[client])
    ensures Listed(before, after, dir, roles, done + {client})
    ensures Same(before, after) <==>
            Same(before, middle) && At(after, SlotFor(dir, client)) == At(middle, SlotFor(dir, client))
  {
    hide StringIds, Wanted;
    forall c | c in done && c in roles
      ensures c in dir.uuids && StringIds(At(after, SlotFor(dir, c))) == Wanted(RolesOf(dir, c), roles[c])
    {
      assert SlotFor(dir, c) != SlotFor(dir, client);
    }
    NotYet(before, middle, dir, roles, done, client);
    if !Same(before, middle) {
      var s :| At(middle, s) != At(before, s);
      assert At(after, s) == At(middle, s);
    }
  }

  lemma TowardsStep(before: Store, middle: Store, after: Store, dir: Directory, roles: map<string, seq<string>>,
                    client: string)
    requires Distinct(dir) && Towards(before, middle, dir, roles) && client in roles && client in dir.uuids
    requires OnlyIn(middle, after, {SlotFor(dir, client)})
    requires Monotone(At(before, SlotFor(dir, client)), Wanted(RolesOf(dir, client), roles[client]),
             At(after, SlotFor(dir, client)))
    ensures Towards(before, after, dir, roles)
  {
    hide Monotone, Wanted;
    forall c | c in roles && c in dir.uuids
      ensures Monotone(At(before, SlotFor(dir, c)), Wanted(RolesOf(dir, c), roles[c]), At(after, SlotFor(dir, c)))
    {
      assert c != client ==> SlotFor(dir, c) != SlotFor(dir, client);
    }
  }

  lemma NotYet(before: Store, middle: Store, dir: Directory, roles: map<string, seq<string>>, done: set<string>,
               client: string)
    requires Distinct(dir) && Listed(before, middle, dir, roles, done)
    requires client in dir.uuids && client !in done
    ensures At(middle, SlotFor(dir, client)) == At(before, SlotFor(dir, client))
  {
    assert SlotFor(dir, client) !in ClientSlots(dir, done);
  }

  // One listed client: resolve its roles and its id, then apply the difference.
  method EnforceClient(server: RoleServer, dir: Directory, client: string, names: seq<string>, current: seq<Fields>)
    returns (changed: bool, ok: bool)
    requires client in dir.uuids ==> At(server.store, SlotFor(dir, client)) == current
    modifies server
    ensures client !in dir.uuids ==> !ok && server.store == old(server.store) && server.writes == old(server.writes)
    ensures client in dir.uuids ==>
              && OnlyIn(old(server.store), server.store, {SlotFor(dir, client)})
              && Monotone(current, Wanted(RolesOf(dir, client), names), At(server.store, SlotFor(dir, client)))
    ensures ok ==>
              && server.failures == old(server.failures)
              && !Unresolvable(dir, client, names)
              && StringIds(At(server.store, SlotFor(dir, client))) == Wanted(RolesOf(dir, client), names)
              && (changed <==> At(server.store, SlotFor(dir, client)) != current)
              && (changed <==> server.writes > old(server.writes))
    ensures client in dir.uuids && StringIds(current) == Wanted(RolesOf(dir, client), names) ==>
            server.writes == old(server.writes)
    ensures Counted(old(server.writes), old(server.store), server.writes, server.store)
    ensures !ok ==> server.failures > old(server.failures) || Unresolvable(dir, client, names)
  {
    changed := false;
    var desired := server.ResolveClientRoles(dir, client, names);
    if desired.None? {
      return false, false;
    }
    var call := server.Take();
    if !call.Ok? {
      return false, false;
    }
    var added, removed;
    added, removed, ok := server.ApplyRoleDiff(GroupClient(dir.uuids[client]), desired.value, current);
    if ok {
      DiffExact(current, desired.value, At(server.store, SlotFor(dir, client)));
    }
    changed := ok && (added || removed);
  }

  // Every listed client that exists already has exactly its roles.
  predicate AsListed(store: Store, roles: map<string, seq<string>>, dir: Directory)
  {
    forall c :: c in roles && c in dir.uuids ==>
      StringIds(At(store, SlotFor(dir, c))) == Wanted(RolesOf(dir, c), roles[c])
  }

  lemma ListedAlready(store: Store, roles: map<string, seq<string>>, dir: Directory, client: string)
    requires client in roles && client in dir.uuids
    ensures AsListed(store, roles, dir) ==>
            StringIds(At(store, SlotFor(dir, client))) == Wanted(RolesOf(dir, client), roles[client])
  {
  }

  method EnforceListed(server: RoleServer, dir: Directory, roles: map<string, seq<string>>, held: map<string, Held>)
    returns (changed: bool, ok: bool)
    requires Distinct(dir)
    requires forall c :: c in roles && c in dir.uuids ==>
               At(server.store, SlotFor(dir, c)) == if c in held then held[c].mappings else []
    modifies server
    ensures Towards(old(server.store), server.store, dir, roles)
    ensures ok ==>
              && server.failures == old(server.failures)
              && (forall c :: c in roles ==> !Unresolvable(dir, c, roles[c]))
              && Listed(old(server.store), server.store, dir, roles, roles.Keys)
              && (changed <==> !Same(old(server.store), server.store))
              && (changed <==> server.writes > old(server.writes))
    ensures AsListed(old(server.store), roles, dir) ==> server.writes == old(server.writes)
    ensures Counted(old(server.writes), old(server.store), server.writes, server.store)
    ensures !ok ==> server.failures > old(server.failures) || exists c :: c in roles && Unresolvable(dir, c, roles[c])
  {
    hide *;
    changed := false;
    var todo := roles.Keys;
    ghost var start, done: set<string> := server.store, {};
    GoingStart(start, dir, roles, server.writes);
    while todo != {}
      invariant todo <= roles.Keys
      invariant done == roles.Keys - todo
      invariant Going(start, server.store, dir, roles, done, changed, old(server.writes), server.writes)
      invariant server.failures == old(server.failures)
      decreases todo
    {
      var client :| client in todo;
      todo := todo - {client};
      var wrote;
      ghost var middle, writes := server.store, server.writes;
      StillToDo(start, middle, dir, roles, done, changed, old(server.writes), writes, client);
      wrote, ok := EnforceClient(server, dir, client, roles[client],
        if client in held then held[client].mappings else []);
      if !ok {
        GoingStops(start, middle, server.store, dir, roles, done, changed, old(server.writes), writes, server.writes,
          client);
        return changed, false;
      }
      GoingStep(start, middle, server.store, dir, roles, done, changed, old(server.writes), writes, server.writes,
        client, wrote);
      done := done + {client};
      changed := changed || wrote;
    }
    assert done == roles.Keys;
    GoingDone(start, server.store, dir, roles, changed, old(server.writes), server.writes);
    ok := true;
  }

  // The state of the loop over the listed clients.
  ghost predicate Going(start: Store, now: Store, dir: Directory, roles: map<string, seq<string>>, done: set<string>,
                        changed: bool, before: nat, writes: nat)
  {
    && Distinct(dir) && Towards(start, now, dir, roles) && Listed(start, now, dir, roles, done)
    && (forall c :: c in done && c in roles ==> !Unresolvable(dir, c, roles[c]))
    && (changed <==> !Same(start, now)) && (changed <==> writes > before)
    && (AsListed(start, roles, dir) ==> writes == before)
    && Counted(before, start, writes, now)
  }

  lemma GoingStart(start: Store, dir: Directory, roles: map<string, seq<string>>, writes: nat)
    requires Distinct(dir)
    ensures Going(start, start, dir, roles, {}, false, writes, writes)
  {
  }

  lemma StillToDo(start: Store, now: Store, dir: Directory, roles: map<string, seq<string>>, done: set<string>,
                  changed: bool, before: nat, writes: nat, client: string)
    requires Going(start, now, dir, roles, done, changed, before, writes) && client in roles && client !in done
    ensures client in dir.uuids ==> At(now, SlotFor(dir, client)) == At(start, SlotFor(dir, client))
  {
    hide Towards, Listed, Same;
    if client in dir.uuids {
      NotYet(start, now, dir, roles, done, client);
    }
  }

  // One more client handled.
  lemma GoingStep(start: Store, middle: Store, after: Store, dir: Directory, roles: map<string, seq<string>>,
                  done: set<string>,
                  changed: bool, before: nat, writes: nat, writes': nat, client: string, wrote: bool)
    requires Going(start, middle, dir, roles, done, changed, before, writes) && client in roles && client !in done
    requires !Unresolvable(dir, client, roles[client]) && OnlyIn(middle, after, {SlotFor(dir, client)})
    requires var slot, wanted := SlotFor(dir, client), Wanted(RolesOf(dir, client), roles[client]);
             && Monotone(At(start, slot), wanted, At(after, slot)) && StringIds(At(after, slot)) == wanted
             && (wrote <==> At(after, slot) != At(start, slot)) && (wrote <==> writes' > writes)
             && (StringIds(At(start, slot)) == wanted ==> writes' == writes)
    requires Counted(writes, middle, writes', after)
    ensures Going(start, after, dir, roles, done + {client}, changed || wrote, before, writes')
  {
    StillToDo(start, middle, dir, roles, done, changed, before, writes, client);
    hide Monotone, StringIds, Wanted, Same, Listed, Towards, At, OnlyIn;
    ListedAlready(start, roles, dir, client);
    TowardsStep(start, middle, after, dir, roles, client);
    ListedStep(start, middle, after, dir, roles, done, client);
  }

  // A client that could not be handled.
  lemma GoingStops(start: Store, middle: Store, after: Store, dir: Directory, roles: map<string, seq<string>>,
                   done: set<string>,
                   changed: bool, before: nat, writes: nat, writes': nat, client: string)
    requires Going(start, middle, dir, roles, done, changed, before, writes) && client in roles && client !in done
    requires client !in dir.uuids ==> after == middle && writes' == writes
    requires client in dir.uuids ==>
               var slot, wanted := SlotFor(dir, client), Wanted(RolesOf(dir, client), roles[client]);
               && OnlyIn(middle, after, {slot}) && Monotone(At(start, slot), wanted, At(after, slot))
               && (StringIds(At(start, slot)) == wanted ==> writes' == writes)
    requires Counted(writes, middle, writes', after)
    ensures Towards(start, after, dir, roles) && Counted(before, start, writes', after)
    ensures AsListed(start, roles, dir) ==> writes' == before
  {
    hide Monotone, StringIds, Wanted, Same, Listed, Towards, At, OnlyIn;
    if client in dir.uuids {
      ListedAlready(start, roles, dir, client);
      TowardsStep(start, middle, after, dir, roles, client);
    }
  }

  lemma GoingDone(start: Store, now: Store, dir: Directory, roles: map<string, seq<string>>, changed: bool,
                  before: nat, writes: nat)
    requires Going(start, now, dir, roles, roles.Keys, changed, before, writes)
    ensures Towards(start, now, dir, roles) && Listed(start, now, dir, roles, roles.Keys)
            && Counted(before, start, writes, now)
    ensures forall c :: c in roles ==> !Unresolvable(dir, c, roles[c])
    ensures (changed <==> !Same(start, now)) && (changed <==> writes > before)
    ensures AsListed(start, roles, dir) ==> writes == before
  {
  }

  // ------------------------------------------------------------- The driver

  ghost predicate ClientsExact(after: Store, roles: map<string, seq<string>>, dir: Directory)
  {
    && (forall c :: c in roles ==>
         c in dir.uuids && StringIds(At(after, SlotFor(dir, c))) == Wanted(RolesOf(dir, c), roles[c]))
    && (forall c :: c in dir.uuids && c !in roles ==> At(after, SlotFor(dir, c)) == [])
  }

  ghost predicate ClientsPartial(before: Store, after: Store, roles: map<string, seq<string>>, dir: Directory)
  {
    && (forall c :: c in roles && c in dir.uuids ==>
          Monotone(At(before, SlotFor(dir, c)), Wanted(RolesOf(dir, c), roles[c]), At(after, SlotFor(dir, c))))
    && (forall c :: c in dir.uuids && c !in roles ==>
          At(after, SlotFor(dir, c)) == [] || At(after, SlotFor(dir, c)) == At(before, SlotFor(dir, c)))
  }

  // The collections the spec manages.
  function Managed(spec: GroupSpec, dir: Directory): (r: set<Slot>)
  {
    (if spec.realmRoles.Some? then {GroupRealm} else {}) +
    (if spec.clientRoles.Some? then ClientSlots(dir, dir.uuids.Keys) else {})
  }

  // What success leaves: declared realm roles and listed clients have exactly
  // their roles, unlisted clients none, and the rest is as before.
  ghost predicate Exact(before: Store, after: Store, spec: GroupSpec, dir: Directory)
  {
    && OnlyIn(before, after, Managed(spec, dir))
    && (spec.realmRoles.Some? ==> StringIds(At(after, GroupRealm)) == Wanted(dir.realmRoles, spec.realmRoles.value))
    && (spec.clientRoles.Some? ==> ClientsExact(after, spec.clientRoles.value, dir))
  }

  // What any outcome leaves: declared parts only moved towards their roles,
  // unlisted clients kept all their mappings or none.
  ghost predicate Partial(before: Store, after: Store, spec: GroupSpec, dir: Directory)
  {
    && OnlyIn(before, after, Managed(spec, dir))
    && (spec.realmRoles.Some? ==>
          Monotone(At(before, GroupRealm), Wanted(dir.realmRoles, spec.realmRoles.value), At(after, GroupRealm)))
    && (spec.clientRoles.Some? ==> ClientsPartial(before, after, spec.clientRoles.value, dir))
  }

  // What clearing leaves of the clients.
  ghost predicate Pruned(before: Store, after: Store, roles: map<string, seq<string>>, dir: Directory, all: bool)
  {
    && OnlyIn(before, after, ClientSlots(dir, dir.uuids.Keys - roles.Keys))
    && (forall c :: c in dir.uuids && c !in roles ==>
          At(after, SlotFor(dir, c)) == [] || (!all && At(after, SlotFor(dir, c)) == At(before, SlotFor(dir, c))))
  }

  lemma PrunedBy(before: Store, after: Store, dir: Directory, gone: set<string>, roles: map<string, seq<string>>)
    requires Distinct(dir) && gone <= HeldBy(before, dir).Keys - roles.Keys
    requires Cleared(before, after, HeldBy(before, dir), gone)
    ensures Pruned(before, after, roles, dir, gone == HeldBy(before, dir).Keys - roles.Keys)
    ensures Same(before, after) <==> gone == {}
  {
    var held := HeldBy(before, dir);
    assert forall c :: c in held ==> SlotFor(dir, c) == GroupClient(held[c].uuid);
    forall s | s !in ClientSlots(dir, dir.uuids.Keys - roles.Keys)
      ensures At(after, s) == At(before, s)
    {
      assert s !in SlotsOf(held, gone);
    }
    forall c | c in dir.uuids && c !in roles
      ensures At(after, SlotFor(dir, c)) == [] || At(after, SlotFor(dir, c)) == At(before, SlotFor(dir, c))
      ensures gone == held.Keys - roles.Keys ==> At(after, SlotFor(dir, c)) == []
    {
      if c !in gone {
        assert SlotFor(dir, c) !in SlotsOf(held, gone);
      }
    }
    if gone != {} {
      var c :| c in gone;
      assert At(after, SlotFor(dir, c)) != At(before, SlotFor(dir, c));
    }
  }

  lemma KeptSlot(before: Store, after: Store, roles: map<string, seq<string>>, dir: Directory, all: bool,
                 client: string)
    requires Distinct(dir) && Pruned(before, after, roles, dir, all) && client in dir.uuids && client in roles
    ensures At(after, SlotFor(dir, client)) == At(before, SlotFor(dir, client))
  {
    assert SlotFor(dir, client) !in ClientSlots(dir, dir.uuids.Keys - roles.Keys);
  }

  lemma PrunedPartial(before: Store, after: Store, roles: map<string, seq<string>>, dir: Directory, all: bool)
    requires Distinct(dir) && Pruned(before, after, roles, dir, all)
    ensures OnlyIn(before, after, ClientSlots(dir, dir.uuids.Keys))
    ensures ClientsPartial(before, after, roles, dir)
  {
    assert ClientSlots(dir, dir.uuids.Keys - roles.Keys) <= ClientSlots(dir, dir.uuids.Keys);
    forall c | c in dir.uuids && c in roles
      ensures At(after, SlotFor(dir, c)) == At(before, SlotFor(dir, c))
    {
      KeptSlot(before, after, roles, dir, all, c);
    }
  }

  lemma ThenTowards(before: Store, middle: Store, after: Store, roles: map<string, seq<string>>, dir: Directory)
    requires Distinct(dir) && Pruned(before, middle, roles, dir, true) && Towards(middle, after, dir, roles)
    ensures OnlyIn(before, after, ClientSlots(dir, dir.uuids.Keys))
    ensures ClientsPartial(before, after, roles, dir)
    ensures forall c :: c in dir.uuids && c !in roles ==> At(after, SlotFor(dir, c)) == []
    ensures Same(before, after) <==> Same(before, middle) && Same(middle, after)
  {
    hide Monotone, Wanted;
    assert ClientSlots(dir, dir.uuids.Keys - roles.Keys) + ClientSlots(dir, roles.Keys) <= ClientSlots(dir,
      dir.uuids.Keys);
    forall c | c in dir.uuids && c in roles
      ensures At(middle, SlotFor(dir, c)) == At(before, SlotFor(dir, c))
    {
      KeptSlot(before, middle, roles, dir, true, c);
    }
    forall c | c in dir.uuids && c !in roles
      ensures At(after, SlotFor(dir, c)) == []
    {
      assert SlotFor(dir, c) !in ClientSlots(dir, roles.Keys);
    }
    forall s
      ensures At(middle, s) == At(before, s) || At(after, s) == At(middle, s)
    {
      if s in ClientSlots(dir, roles.Keys) {
        var c :| c in roles && c in dir.uuids && s == SlotFor(dir, c);
      }
    }
  }

  lemma ThenExact(before: Store, middle: Store, after: Store, roles: map<string, seq<string>>, dir: Directory)
    requires Distinct(dir) && Pruned(before, middle, roles, dir, true) && Towards(middle, after, dir, roles)
    requires Listed(middle, after, dir, roles, roles.Keys)
    ensures ClientsExact(after, roles, dir)
  {
    ThenTowards(before, middle, after, roles, dir);
  }

  predicate Unmappable(spec: GroupSpec, dir: Directory)
  {
    || (spec.realmRoles.Some? && exists n :: n in spec.realmRoles.value && n !in dir.realmRoles)
    || (spec.clientRoles.Some? &&
        exists c :: c in spec.clientRoles.value && Unresolvable(dir, c, spec.clientRoles.value[c]))
  }

  method EnforceRealm(server: RoleServer, dir: Directory, names: Option<seq<string>>, current: seq<Fields>)
    returns (changed: bool, ok: bool)
    requires At(server.store, GroupRealm) == current
    modifies server
    ensures OnlyIn(old(server.store), server.store, {GroupRealm})
    ensures names.None? ==> ok && At(server.store, GroupRealm) == current
    ensures names.Some? ==> Monotone(current, Wanted(dir.realmRoles, names.value), At(server.store, GroupRealm))
    ensures ok ==>
              && server.failures == old(server.failures)
              && (names.Some? ==> StringIds(At(server.store, GroupRealm)) == Wanted(dir.realmRoles, names.value))
              && (names.Some? ==> forall n :: n in names.value ==> n in dir.realmRoles)
              && (changed <==> At(server.store, GroupRealm) != current)
              && (changed <==> server.writes > old(server.writes))
    ensures names.None? || StringIds(current) == Wanted(dir.realmRoles, names.value) ==>
            server.writes == old(server.writes)
    ensures Counted(old(server.writes), old(server.store), server.writes, server.store)
    ensures !ok ==> server.failures > old(server.failures) || exists n :: n in names.value && n !in dir.realmRoles
  {
    if names.None? {
      return false, true;
    }
    var desired := server.ResolveRoles(dir.realmRoles, names.value);
    if desired.None? {
      return false, false;
    }
    var added, removed;
    added, removed, ok := server.ApplyRoleDiff(GroupRealm, desired.value, current);
    if ok {
      DiffExact(current, desired.value, At(server.store, GroupRealm));
    }
    changed := ok && (added || removed);
  }

  // No client that is not listed has mappings.
  predicate Emptied(store: Store, roles: map<string, seq<string>>, dir: Directory)
  {
    forall c :: c in dir.uuids && c !in roles ==> At(store, SlotFor(dir, c)) == []
  }

  // Nothing to do: declared parts are as the spec wants them.
  predicate AsWanted(store: Store, spec: GroupSpec, dir: Directory)
  {
    && (spec.realmRoles.Some? ==> StringIds(At(store, GroupRealm)) == Wanted(dir.realmRoles, spec.realmRoles.value))
    && (spec.clientRoles.Some? ==>
         AsListed(store, spec.clientRoles.value, dir) && Emptied(store, spec.clientRoles.value, dir))
  }

  // The client part, against the clients' mappings read at the start.
  method EnforceClients(server: RoleServer, dir: Directory, roles: map<string, seq<string>>, held: map<string, Held>)
    returns (changed: bool, ok: bool)
    requires Distinct(dir) && held == HeldBy(server.store, dir)
    modifies server
    ensures OnlyIn(old(server.store), server.store, ClientSlots(dir, dir.uuids.Keys))
    ensures ClientsPartial(old(server.store), server.store, roles, dir)
    ensures ok ==>
              && server.failures == old(server.failures)
              && (forall c :: c in roles ==> !Unresolvable(dir, c, roles[c]))
              && ClientsExact(server.store, roles, dir)
              && (changed <==> !Same(old(server.store), server.store))
              && (changed <==> server.writes > old(server.writes))
    ensures AsListed(old(server.store), roles, dir) && Emptied(old(server.store), roles, dir) ==>
            server.writes == old(server.writes)
    ensures Counted(old(server.writes), old(server.store), server.writes, server.store)
    ensures !ok ==> server.failures > old(server.failures) || exists c :: c in roles && Unresolvable(dir, c, roles[c])
  {
    ghost var start := server.store;
    changed, ok := PruneClients(server, dir, roles, held);
    ghost var middle := server.store;
    hide Monotone, Wanted, StringIds, OnlyIn, Unresolvable, Same;
    PrunedPartial(start, middle, roles, dir, ok);
    if !ok {
      return;
    }
    forall c | c in dir.uuids && c in roles
      ensures At(middle, SlotFor(dir, c)) == if c in held then held[c].mappings else []
    {
      KeptSlot(start, middle, roles, dir, true, c);
    }
    var wrote;
    wrote, ok := EnforceListed(server, dir, roles, held);
    hide *;
    ThenTowards(start, middle, server.store, roles, dir);
    if ok {
      ThenExact(start, middle, server.store, roles, dir);
    }
    changed := changed || wrote;
  }

  method PruneClients(server: RoleServer, dir: Directory, roles: map<string, seq<string>>, held: map<string, Held>)
    returns (changed: bool, ok: bool)
    requires Distinct(dir) && held == HeldBy(server.store, dir)
    modifies server
    ensures Pruned(old(server.store), server.store, roles, dir, ok)
    ensures ok ==>
              && server.failures == old(server.failures)
              && (changed <==> !Same(old(server.store), server.store))
              && (changed <==> server.writes > old(server.writes))
    ensures Emptied(old(server.store), roles, dir) ==> server.writes == old(server.writes)
    ensures Counted(old(server.writes), old(server.store), server.writes, server.store)
    ensures !ok ==> server.failures > old(server.failures)
  {
    ghost var start := server.store;
    assert Emptied(start, roles, dir) ==> held.Keys <= roles.Keys by {
      assert forall c :: c in held ==> At(start, SlotFor(dir, c)) != [];
    }
    changed, ok := ClearUnlisted(server, held, roles.Keys);
    ghost var gone :|
      && gone <= held.Keys - roles.Keys && Cleared(start, server.store, held, gone)
      && (ok ==> gone == held.Keys - roles.Keys);
    PrunedBy(start, server.store, dir, gone, roles);
  }

  lemma SameHolders(before: Store, after: Store, dir: Directory)
    requires OnlyIn(before, after, {GroupRealm})
    ensures HeldBy(after, dir) == HeldBy(before, dir)
  {
  }

  lemma RealmOnly(before: Store, after: Store, spec: GroupSpec, dir: Directory)
    requires OnlyIn(before, after, {GroupRealm})
    ensures spec.clientRoles.Some? ==> ClientsPartial(before, after, spec.clientRoles.value, dir)
    ensures Same(before, after) <==> At(after, GroupRealm) == At(before, GroupRealm)
  {
    assert forall c :: c in dir.uuids ==> At(after, SlotFor(dir, c)) == At(before, SlotFor(dir, c));
  }

  // The realm step and the client steps touch different collections.
  lemma BothParts(before: Store, middle: Store, after: Store, spec: GroupSpec, dir: Directory)
    requires Distinct(dir) && spec.clientRoles.Some?
    requires OnlyIn(before, middle, {GroupRealm}) && OnlyIn(middle, after, ClientSlots(dir, dir.uuids.Keys))
    requires spec.realmRoles.None? ==> At(middle, GroupRealm) == At(before, GroupRealm)
    requires spec.realmRoles.Some? ==>
               Monotone(At(before, GroupRealm), Wanted(dir.realmRoles, spec.realmRoles.value), At(middle, GroupRealm))
    requires ClientsPartial(middle, after, spec.clientRoles.value, dir)
    ensures Partial(before, after, spec, dir)
    ensures At(after, GroupRealm) == At(middle, GroupRealm)
    ensures OnlyIn(before, after, Managed(spec, dir))
    ensures Same(before, after) <==> At(middle, GroupRealm) == At(before, GroupRealm) && Same(middle, after)
  {
    hide Monotone, Wanted;
    assert GroupRealm !in ClientSlots(dir, dir.uuids.Keys);
    assert forall c :: c in dir.uuids ==> At(middle, SlotFor(dir, c)) == At(before, SlotFor(dir, c));
  }

  // The group driver.
  method PostApply(server: RoleServer, id: string, spec: GroupSpec, dir: Directory) returns (changed: bool, ok: bool)
    requires Distinct(dir)
    modifies server
    ensures Partial(old(server.store), server.store, spec, dir)
    ensures ok ==>
              && server.failures == old(server.failures)
              && Exact(old(server.store), server.store, spec, dir) && !Unmappable(spec, dir)
              && (changed <==> !Same(old(server.store), server.store))
              && (changed <==> server.writes > old(server.writes))
    ensures AsWanted(old(server.store), spec, dir) ==> server.writes == old(server.writes)
    ensures Counted(old(server.writes), old(server.store), server.writes, server.store)
    ensures id == "" ==> !ok && server.writes == old(server.writes)
    ensures !ok ==> id == "" || server.failures > old(server.failures) || Unmappable(spec, dir)
  {
    if id == "" {
      return false, false;
    }
    var call := server.Take();
    if !call.Ok? {
      return false, false;
    }
    ghost var start := server.store;
    var document := Report(server.store, dir);
    changed, ok := EnforceRealm(server, dir, spec.realmRoles, document.realm);
    ghost var middle := server.store;
    hide Monotone, Wanted, StringIds;
    if !ok || spec.clientRoles.None? {
      assert OnlyIn(start, middle, Managed(spec, dir));
      RealmOnly(start, middle, spec, dir);
      return;
    }
    ReportIndexed(start, dir);
    var held := IndexByClient(document);
    IndexDetermined(document, held, HeldBy(start, dir));
    SameHolders(start, middle, dir);
    var wrote;
    wrote, ok := EnforceClients(server, dir, spec.clientRoles.value, held);
    BothParts(start, middle, server.store, spec, dir);
    changed := changed || wrote;
  }
}
