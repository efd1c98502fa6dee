// Identity provider mappers: compared by name, written one by one.

module IdpMappers {
  import opened Wrappers
  import opened Json
  import opened Calls

  const ALIAS := "identityProviderAlias"

  datatype Mapper = Mapper(name: string, kind: Option<string>, config: map<string, string>)

  type Mappers = map<string, Fields>

  // What a mapper looks like as JSON; empty parts are omitted.
  predicate Writes(r: Fields, m: Mapper, alias: string)
  {
    && "name" in r && r["name"] == Str(m.name)
    && "identityProviderAlias" in r && r["identityProviderAlias"] == Str(alias)
    && ("identityProviderMapper" in r <==> m.kind.Some?)
    && (m.kind.Some? ==> r["identityProviderMapper"] == Str(m.kind.value))
    && ("config" in r <==> m.config != map[])
    && ("config" in r ==> IsConfig(r["config"], m.config))
    && forall k :: k in r ==> k in {"name", "identityProviderAlias", "identityProviderMapper", "config"}
  }

  predicate IsConfig(v: Json, config: map<string, string>)
  {
    v.Obj? && v.fields.Keys == config.Keys && forall k :: k in config ==> v.fields[k] == Str(config[k])
  }

  // The request body of a mapper.
  function Body(m: Mapper, alias: string): (r: Fields)
    ensures Named(r, m.name)
  {
    assert |"id"| == 2 && |"name"| == 4 && |"config"| == 6 && |"identityProviderMapper"| == 22 && |ALIAS| == 21;
    (if m.kind.Some? then map["identityProviderMapper" := Str(m.kind.value)] else map[])
    + (if m.config != map[] then map["config" := Obj(map k | k in m.config :: Str(m.config[k]))] else map[])
    + map[ALIAS := Str(alias)]
    + map["name" := Str(m.name)]
  }

  lemma BodyWrites(m: Mapper, alias: string)
    ensures Writes(Body(m, alias), m, alias)
  {
    assert |"name"| == 4 && |"config"| == 6 && |"identityProviderMapper"| == 22 && |ALIAS| == 21;
    assert ALIAS == "identityProviderAlias";
  }

  function NameOf(rep: Fields): (r: Option<string>)
  {
    if "name" in rep && rep["name"].Str? then Some(rep["name"].s) else None
  }

  // A body for the given name, which leaves the id to the server.
  predicate Named(body: Fields, name: string)
  {
    NameOf(body) == Some(name) && "id" !in body
  }

  // The current mapper has every desired key but the alias.
  predicate Agrees(current: Fields, body: Fields)
  {
    forall k :: k in body && k != ALIAS ==> k in current && current[k] == body[k]
  }

  method MappersDiffer(current: Fields, body: Fields) returns (r: bool)
    ensures r <==> !Agrees(current, body)
  {
    var todo := body.Keys;
    while todo != {}
      invariant todo <= body.Keys
      invariant forall k :: k in body && k !in todo && k != ALIAS ==> k in current && current[k] == body[k]
      decreases todo
    {
      var k :| k in todo;
      todo := todo - {k};
      if k != ALIAS && (k !in current || current[k] != body[k]) {
        return true;
      }
    }
    return false;
  }

  // The ids a listing gives names; the last entry wins.
  function Picked(mappers: Mappers, listing: seq<string>): (r: map<string, string>)
    requires forall id :: id in listing ==> id in mappers
    ensures forall n :: n in r ==> r[n] in mappers && NameOf(mappers[r[n]]) == Some(n)
    ensures forall id :: id in listing && NameOf(mappers[id]).Some? ==> NameOf(mappers[id]).value in r
  {
    if listing == [] then map[]
    else
      var last := listing[|listing| - 1];
      assert listing == listing[..|listing| - 1] + [last];
      var rest := Picked(mappers, listing[..|listing| - 1]);
      if NameOf(mappers[last]).Some? then rest[NameOf(mappers[last]).value := last] else rest
  }

  // The bodies by name; the last declaration wins.
  function Desired(list: seq<Mapper>, alias: string): (r: map<string, Fields>)
  {
    if list == [] then map[]
    else Desired(list[..|list| - 1], alias)[list[|list| - 1].name := Body(list[|list| - 1], alias)]
  }

  predicate WellNamed(desired: map<string, Fields>)
  {
    forall n :: n in desired ==> Named(desired[n], n)
  }

  lemma {:induction false} DesiredNames(list: seq<Mapper>, alias: string)
    ensures Desired(list, alias).Keys == (set m | m in list :: m.name)
  {
    hide Body, NameOf;
    if list != [] {
      assert list == list[..|list| - 1] + [list[|list| - 1]];
      DesiredNames(list[..|list| - 1], alias);
    }
  }

  lemma {:induction false} DesiredWellNamed(list: seq<Mapper>, alias: string)
    ensures WellNamed(Desired(list, alias))
  {
    hide Body, Named;
    if list != [] {
      DesiredWellNamed(list[..|list| - 1], alias);
    }
  }

  method IndexDesired(list: seq<Mapper>, alias: string) returns (r: map<string, Fields>)
    ensures r == Desired(list, alias)
  {
    r := map[];
    hide Body;
    for i := 0 to |list|
      invariant r == Desired(list[..i], alias)
    {
      assert list[..i + 1][..i] == list[..i];
      r := r[list[i].name := Body(list[i], alias)];
    }
    assert list[..|list|] == list;
  }

  // The server's mappers. Each call may fail, before or after it took effect.
  class MapperServer {
    var mappers: Mappers
    var writes: nat
    var failures: nat

    constructor (mappers: Mappers)
      ensures this.mappers == mappers && writes == 0 && failures == 0
    {
      this.mappers, this.writes, this.failures := mappers, 0, 0;
    }

    method Take() returns (call: Call)
      modifies this`failures
      ensures if call.Ok? then failures == old(failures) else failures > old(failures)
    {
      call := *;
      if !call.Ok? {
        failures := failures + 1;
      }
    }

    method Update(id: string, body: Fields) returns (ok: bool)
      requires id in mappers
      modifies this
      ensures writes == old(writes) + 1
      ensures if ok then failures == old(failures) else failures > old(failures)
      ensures mappers == old(mappers)[id := old(mappers)[id] + body] || (!ok && mappers == old(mappers))
    {
      var call := Take();
      writes := writes + 1;
      if call.Took() {
        mappers := mappers[id := mappers[id] + body];
      }
      ok := call.Ok?;
    }

    method Create(body: Fields) returns (ok: bool)
      modifies this
      ensures writes == old(writes) + 1
      ensures if ok then failures == old(failures) else failures > old(failures)
      ensures Inserted(old(mappers), mappers, body) || (!ok && mappers == old(mappers))
    {
      var call := Take();
      writes := writes + 1;
      if call.Took() {
        var id := FreshId(mappers.Keys);
        mappers := mappers[id := body + map["id" := Str(id)]];
      }
      ok := call.Ok?;
    }

    method Delete(id: string) returns (ok: bool)
      modifies this
      ensures writes == old(writes) + 1
      ensures if ok then failures == old(failures) else failures > old(failures)
      ensures mappers == old(mappers) - {id} || (!ok && mappers == old(mappers))
    {
      var call := Take();
      writes := writes + 1;
      if call.Took() {
        mappers := mappers - {id};
      }
      ok := call.Ok?;
    }
  }

  ghost predicate Inserted(before: Mappers, after: Mappers, body: Fields)
  {
    exists id :: id !in before && after == before[id := body + map["id" := Str(id)]]
  }

  method FreshId(ids: set<string>) returns (r: string)
    ensures r !in ids
  {
    var todo, n: nat := ids, 0;
    while todo != {}
      invariant todo <= ids
      invariant forall id :: id in ids && id !in todo ==> |id| < n
      decreases todo
    {
      var id :| id in todo;
      todo := todo - {id};
      if n <= |id| {
        n := |id| + 1;
      }
    }
    r := seq(n, _ => 'x');
  }

  // ------------------------------------------------------------ Enforcement

  ghost predicate Picks(before: Mappers, pick: map<string, string>)
  {
    forall n :: n in pick ==> pick[n] in before && NameOf(before[pick[n]]) == Some(n)
  }

  // The wanted name, among those in done, that resolves to the listed mapper.
  function Claim(before: Mappers, pick: map<string, string>, desired: map<string, Fields>, done: set<string>,
                 id: string): (r: Option<string>)
    requires id in before
  {
    var n := NameOf(before[id]);
    if n.Some? && n.value in pick && pick[n.value] == id && n.value in done && n.value in desired then n else None
  }

  // What a listed mapper has become: the one a wanted name resolves to agrees
  // with its body, as it was or written over; any other is as it was.
  predicate Became(rep: Fields, claim: Option<string>, desired: map<string, Fields>, now: Fields)
  {
    if claim.Some? && claim.value in desired
    then Agrees(now, desired[claim.value]) && (now == rep || now == rep + desired[claim.value])
    else now == rep
  }

  ghost predicate OldOnes(before: Mappers, now: Mappers, pick: map<string, string>, desired: map<string, Fields>,
                          done: set<string>)
  {
    forall id :: id in before ==>
      id in now && Became(before[id], Claim(before, pick, desired, done, id), desired, now[id])
  }

  predicate IsNew(rep: Fields, pick: map<string, string>, desired: map<string, Fields>, n: string)
  {
    NameOf(rep) == Some(n) && n in desired && n !in pick && Agrees(rep, desired[n])
  }

  // Every other mapper was made for a wanted name that no listed one has.
  ghost predicate NewOnes(before: Mappers, now: Mappers, pick: map<string, string>, desired: map<string, Fields>,
                          done: set<string>)
  {
    && (forall id :: id in now && id !in before ==> exists n :: n in done && IsNew(now[id], pick, desired, n))
    && (forall n :: n in done && n in desired && n !in pick ==>
          exists id :: id in now && id !in before && IsNew(now[id], pick, desired, n))
    && (forall a, b :: a in now && a !in before && b in now && b !in before && NameOf(now[a]) == NameOf(now[b]) ==>
         a == b)
  }

  ghost predicate Handled(before: Mappers, now: Mappers, pick: map<string, string>, desired: map<string, Fields>,
                          done: set<string>)
  {
    OldOnes(before, now, pick, desired, done) && NewOnes(before, now, pick, desired, done)
  }

  lemma ClaimStep(before: Mappers, pick: map<string, string>, desired: map<string, Fields>, done: set<string>,
                  n: string, id: string)
    requires Picks(before, pick) && n in desired && n !in done && id in before
    ensures Claim(before, pick, desired, done + {n}, id) ==
            if n in pick && pick[n] == id then Some(n) else Claim(before, pick, desired, done, id)
    ensures n in pick && pick[n] == id ==> Claim(before, pick, desired, done, id).None?
  {
  }

  // One more name: the mapper it resolves to now agrees, the others are kept.
  lemma OldStep(before: Mappers, now: Mappers, after: Mappers, pick: map<string, string>, desired: map<string, Fields>,
                done: set<string>, n: string)
    requires Picks(before, pick) && n in desired && n !in done && OldOnes(before, now, pick, desired, done)
    requires forall id :: id in before && !(n in pick && pick[n] == id) ==> id in after && after[id] == now[id]
    requires n in pick ==> pick[n] in after && Became(before[pick[n]], Some(n), desired, after[pick[n]])
    ensures OldOnes(before, after, pick, desired, done + {n})
  {
    hide Became, Claim, Picks;
    forall id | id in before
      ensures id in after && Became(before[id], Claim(before, pick, desired, done + {n}, id), desired, after[id])
    {
      ClaimStep(before, pick, desired, done, n, id);
    }
  }

  lemma OneEach(before: Mappers, now: Mappers, after: Mappers, pick: map<string, string>, desired: map<string, Fields>,
                done: set<string>, n: string)
    requires NewOnes(before, now, pick, desired, done) && n !in done
    requires forall id :: id in now && id !in before ==> id in after && after[id] == now[id]
    requires forall id :: id in after && id !in before && id !in now ==> IsNew(after[id], pick, desired, n)
    requires forall a, b :: a in after && a !in now && a !in before && b in after && b !in now && b !in before ==>
             a == b
    ensures forall a, b ::
              a in after && a !in before && b in after && b !in before && NameOf(after[a]) == NameOf(after[b]) ==>
                a == b
  {
    hide NameOf, Agrees;
    assert forall id :: id in now && id !in before ==> NameOf(after[id]) != Some(n);
  }

  lemma NewStep(before: Mappers, now: Mappers, after: Mappers, pick: map<string, string>, desired: map<string, Fields>,
                done: set<string>, n: string)
    requires NewOnes(before, now, pick, desired, done) && n !in done
    requires forall id :: id in now && id !in before ==> id in after && after[id] == now[id]
    requires forall id :: id in after && id !in before && id !in now ==> IsNew(after[id], pick, desired, n)
    requires forall a, b :: a in after && a !in now && a !in before && b in after && b !in now && b !in before ==>
             a == b
    requires n !in pick ==> exists id :: id in after && id !in before && IsNew(after[id], pick, desired, n)
    ensures NewOnes(before, after, pick, desired, done + {n})
  {
    hide NameOf, Agrees;
    OneEach(before, now, after, pick, desired, done, n);
    hide IsNew;
    forall id | id in after && id !in before
      ensures exists m :: m in done + {n} && IsNew(after[id], pick, desired, m)
    {
      if id in now {
        var m :| m in done && IsNew(now[id], pick, desired, m);
        assert m in done + {n} && IsNew(after[id], pick, desired, m);
      } else {
        assert n in done + {n} && IsNew(after[id], pick, desired, n);
      }
    }
    forall m | m in done + {n} && m in desired && m !in pick
      ensures exists id :: id in after && id !in before && IsNew(after[id], pick, desired, m)
    {
      if m != n {
        var id :| id in now && id !in before && IsNew(now[id], pick, desired, m);
        assert id in after && id !in before && IsNew(after[id], pick, desired, m);
      }
    }
  }

  lemma UpdateStep(before: Mappers, now: Mappers, after: Mappers, pick: map<string, string>,
                   desired: map<string, Fields>,
                   done: set<string>, n: string)
    requires Picks(before, pick) && Handled(before, now, pick, desired, done)
    requires n in desired && n !in done && n in pick && pick[n] in now
    requires (after == now && Agrees(before[pick[n]], desired[n])) || after == now[pick[n] := now[pick[n]] + desired[n]]
    ensures Handled(before, after, pick, desired, done + {n})
  {
    hide Became, Agrees, IsNew, OldOnes, NewOnes, NameOf, Claim;
    StillListed(before, now, pick, desired, done, n);
    UpdatedBecame(before[pick[n]], desired, n, after[pick[n]]);
    OldStep(before, now, after, pick, desired, done, n);
    NewStep(before, now, after, pick, desired, done, n);
  }

  lemma UpdatedBecame(rep: Fields, desired: map<string, Fields>, n: string, now: Fields)
    requires n in desired && ((now == rep && Agrees(rep, desired[n])) || now == rep + desired[n])
    ensures Became(rep, Some(n), desired, now)
  {
  }

  lemma StillListed(before: Mappers, now: Mappers, pick: map<string, string>, desired: map<string, Fields>,
                    done: set<string>, n: string)
    requires Picks(before, pick) && OldOnes(before, now, pick, desired, done) && n in desired && n !in done && n in pick
    ensures pick[n] in now && now[pick[n]] == before[pick[n]]
    ensures forall id :: id in before ==> id in now
  {
    ClaimStep(before, pick, desired, done, n, pick[n]);
  }

  lemma CreateStep(before: Mappers, now: Mappers, after: Mappers, pick: map<string, string>,
                   desired: map<string, Fields>,
                   done: set<string>, n: string)
    requires Picks(before, pick) && Handled(before, now, pick, desired, done) && WellNamed(desired)
    requires n in desired && n !in done && n !in pick && Inserted(now, after, desired[n])
    ensures Handled(before, after, pick, desired, done + {n})
  {
    InsertedIsNew(now, after, pick, desired, n);
    ListedStay(before, now, pick, desired, done);
    var id :| id in after && id !in now && IsNew(after[id], pick, desired, n);
    OldStep(before, now, after, pick, desired, done, n);
    NewStep(before, now, after, pick, desired, done, n);
  }

  lemma ListedStay(before: Mappers, now: Mappers, pick: map<string, string>, desired: map<string, Fields>,
                   done: set<string>)
    requires Handled(before, now, pick, desired, done)
    ensures OldOnes(before, now, pick, desired, done) && NewOnes(before, now, pick, desired, done)
    ensures forall id :: id in before ==> id in now
  {
  }

  lemma InsertedIsNew(now: Mappers, after: Mappers, pick: map<string, string>, desired: map<string, Fields>, n: string)
    requires WellNamed(desired) && n in desired && n !in pick && Inserted(now, after, desired[n])
    ensures forall id :: id in now ==> id in after && after[id] == now[id]
    ensures forall id :: id in after && id !in now ==> IsNew(after[id], pick, desired, n)
    ensures exists id :: id in after && id !in now && IsNew(after[id], pick, desired, n)
    ensures forall a, b :: a in after && a !in now && b in after && b !in now ==> a == b
  {
    var added :| added !in now && after == now[added := desired[n] + map["id" := Str(added)]];
    NewMapper(desired[n], n, added);
    hide Named, NameOf, Agrees;
    assert added in after && IsNew(after[added], pick, desired, n);
  }

  lemma NewMapper(body: Fields, n: string, id: string)
    requires Named(body, n)
    ensures NameOf(body + map["id" := Str(id)]) == Some(n)
    ensures Agrees(body + map["id" := Str(id)], body)
  {
    assert |"id"| == 2 && |"name"| == 4;
  }

  // ---------------------------------------------------------------- Driver

  // The listed mappers that no wanted name claims.
  function Unwanted(pick: map<string, string>, desired: map<string, Fields>, names: set<string>): (r: set<string>)
  {
    set n | n in pick && n in names && n !in desired :: pick[n]
  }

  // The wanted names in done were handled, then the unwanted mappers named in
  // gone removed.
  ghost predicate Reached(before: Mappers, after: Mappers, pick: map<string, string>, desired: map<string, Fields>,
                          done: set<string>, gone: set<string>)
  {
    exists middle :: Handled(before, middle, pick, desired, done) && after == middle - Unwanted(pick, desired, gone)
  }

  // A wanted name still needs a write.
  predicate Lacks(before: Mappers, pick: map<string, string>, desired: map<string, Fields>, n: string)
    requires n in desired
  {
    n !in pick || (pick[n] in before && !Agrees(before[pick[n]], desired[n]))
  }

  // The representations found under the picked names.
  ghost predicate Read(before: Mappers, pick: map<string, string>, reps: map<string, Fields>)
  {
    reps.Keys == pick.Keys && forall n :: n in pick ==> pick[n] in before && reps[n] == before[pick[n]]
  }

  lemma HandledNone(before: Mappers, pick: map<string, string>, desired: map<string, Fields>)
    ensures Handled(before, before, pick, desired, {})
    ensures !AnyLacks(before, pick, desired, {})
  {
  }

  predicate AnyLacks(before: Mappers, pick: map<string, string>, desired: map<string, Fields>, names: set<string>)
    requires names <= desired.Keys
  {
    exists n :: n in names && Lacks(before, pick, desired, n)
  }

  lemma AnyLacksStep(before: Mappers, pick: map<string, string>, desired: map<string, Fields>, names: set<string>,
                     n: string)
    requires names <= desired.Keys && n in desired
    ensures AnyLacks(before, pick, desired, names + {n}) <==>
            AnyLacks(before, pick, desired, names) || Lacks(before, pick, desired, n)
    ensures Lacks(before, pick, desired, n) ==> AnyLacks(before, pick, desired, desired.Keys)
  {
    hide Lacks;
    if AnyLacks(before, pick, desired, names) {
      var m :| m in names && Lacks(before, pick, desired, m);
      assert m in names + {n};
    }
  }

  method EnforceName(server: MapperServer, body: Fields, n: string, ghost before: Mappers, pick: map<string, string>,
                     reps: map<string, Fields>, ghost desired: map<string, Fields>, ghost done: set<string>)
    returns (changed: bool, ok: bool)
    requires Picks(before, pick) && WellNamed(desired) && Handled(before, server.mappers, pick, desired, done)
    requires n in desired && n !in done && desired[n] == body
    requires Read(before, pick, reps)
    modifies server
    ensures Handled(before, server.mappers, pick, desired, done + {n}) || (!ok && server.mappers == old(server.mappers))
    ensures ok ==> server.failures == old(server.failures) && (changed <==> Lacks(before, pick, desired, n))
    ensures ok ==> (changed <==> server.writes > old(server.writes))
    ensures !Lacks(before, pick, desired, n) ==> ok && server.writes == old(server.writes)
    ensures server.writes >= old(server.writes)
    ensures server.writes == old(server.writes) ==> server.mappers == old(server.mappers)
    ensures !ok ==> server.failures > old(server.failures)
  {
    ghost var now := server.mappers;
    if n in pick {
      StillListed(before, now, pick, desired, done, n);
      var differ := MappersDiffer(reps[n], body);
      hide Agrees, NameOf, OldOnes, NewOnes;
      changed, ok := false, true;
      if differ {
        ok := server.Update(pick[n], body);
        changed := true;
      }
      if ok || server.mappers != now {
        UpdateStep(before, now, server.mappers, pick, desired, done, n);
      }
      return;
    }
    hide Agrees, NameOf, OldOnes, NewOnes;
    ok := server.Create(body);
    if ok || server.mappers != now {
      CreateStep(before, now, server.mappers, pick, desired, done, n);
    }
    changed := true;
  }

  method EnforceWanted(server: MapperServer, pick: map<string, string>, reps: map<string, Fields>,
                       desired: map<string, Fields>)
    returns (changed: bool, ok: bool, ghost done: set<string>)
    requires Picks(server.mappers, pick) && WellNamed(desired)
    requires Read(server.mappers, pick, reps)
    modifies server
    ensures done <= desired.Keys && Handled(old(server.mappers), server.mappers, pick, desired, done)
    ensures ok ==>
              && server.failures == old(server.failures) && done == desired.Keys
              && (changed <==> AnyLacks(old(server.mappers), pick, desired, desired.Keys))
              && (changed <==> server.writes > old(server.writes))
    ensures !AnyLacks(old(server.mappers), pick, desired, desired.Keys) ==> ok && server.writes == old(server.writes)
    ensures server.writes >= old(server.writes)
    ensures server.writes == old(server.writes) ==> server.mappers == old(server.mappers)
    ensures !ok ==> server.failures > old(server.failures)
  {
    hide *;
    changed, done := false, {};
    var todo := desired.Keys;
    ghost var before := server.mappers;
    HandledNone(before, pick, desired);
    while todo != {}
      invariant todo <= desired.Keys
      invariant done == desired.Keys - todo
      invariant Handled(before, server.mappers, pick, desired, done)
      invariant server.failures == old(server.failures)
      invariant changed <==> AnyLacks(before, pick, desired, done)
      invariant changed <==> server.writes > old(server.writes)
      invariant server.writes >= old(server.writes)
      invariant server.writes == old(server.writes) ==> server.mappers == old(server.mappers)
      decreases todo
    {
      var n :| n in todo;
      todo := todo - {n};
      AnyLacksStep(before, pick, desired, done, n);
      var wrote;
      ghost var now := server.mappers;
      wrote, ok := EnforceName(server, desired[n], n, before, pick, reps, desired, done);
      if ok || server.mappers != now {
        done := done + {n};
      }
      if !ok {
        return;
      }
      changed := changed || wrote;
    }
    ok := true;
  }

  method RemoveUnwanted(server: MapperServer, pick: map<string, string>, desired: map<string, Fields>)
    returns (changed: bool, ok: bool, ghost gone: set<string>)
    modifies server
    ensures gone <= pick.Keys && server.mappers == old(server.mappers) - Unwanted(pick, desired, gone)
    ensures ok ==>
              && server.failures == old(server.failures) && gone == pick.Keys
              && (changed <==> pick.Keys - desired.Keys != {})
              && (changed <==> server.writes > old(server.writes))
    ensures pick.Keys <= desired.Keys ==> ok && server.writes == old(server.writes)
    ensures server.writes >= old(server.writes)
    ensures server.writes == old(server.writes) ==> server.mappers == old(server.mappers)
    ensures !ok ==> server.failures > old(server.failures)
  {
    changed, gone := false, {};
    var todo := pick.Keys;
    while todo != {}
      invariant todo <= pick.Keys
      invariant gone == pick.Keys - todo
      invariant server.mappers == old(server.mappers) - Unwanted(pick, desired, gone)
      invariant server.failures == old(server.failures)
      invariant changed <==> gone - desired.Keys != {}
      invariant changed <==> server.writes > old(server.writes)
      invariant server.writes >= old(server.writes)
      invariant server.writes == old(server.writes) ==> server.mappers == old(server.mappers)
      decreases todo
    {
      var n :| n in todo;
      todo := todo - {n};
      UnwantedStep(pick, desired, gone, n);
      if n !in desired {
        ghost var now := server.mappers;
        ok := server.Delete(pick[n]);
        if ok || server.mappers != now {
          gone := gone + {n};
        }
        if !ok {
          return;
        }
        changed := true;
      } else {
        gone := gone + {n};
      }
    }
    ok := true;
  }

  lemma UnwantedStep(pick: map<string, string>, desired: map<string, Fields>, names: set<string>, n: string)
    requires n in pick
    ensures Unwanted(pick, desired, names + {n}) ==
            Unwanted(pick, desired, names) + if n in desired then {} else {pick[n]}
  {
    forall id | id in Unwanted(pick, desired, names) + if n in desired then {} else {pick[n]}
      ensures id in Unwanted(pick, desired, names + {n})
    {
      var m :| m in pick && m !in desired && (m in names || m == n) && pick[m] == id;
    }
  }

  // The names and representations of a listing; the last entry wins.
  method IndexListing(mappers: Mappers, listing: seq<string>)
    returns (pick: map<string, string>, reps: map<string, Fields>)
    requires forall id :: id in listing ==> id in mappers
    ensures pick == Picked(mappers, listing)
    ensures Read(mappers, pick, reps)
  {
    pick, reps := map[], map[];
    for i := 0 to |listing|
      invariant pick == Picked(mappers, listing[..i])
      invariant Read(mappers, pick, reps)
    {
      var rep := mappers[listing[i]];
      assert listing[..i + 1][..i] == listing[..i];
      if NameOf(rep).Some? {
        pick, reps := pick[NameOf(rep).value := listing[i]], reps[NameOf(rep).value := rep];
      }
    }
    assert listing[..|listing|] == listing;
  }

  ghost predicate Lists(listing: seq<string>, mappers: Mappers)
  {
    forall id :: id in listing <==> id in mappers
  }

  // The identity provider driver. done and gone are the names handled and the
  // listed names gone through when the calls stop.
  method PostApply(server: MapperServer, list: seq<Mapper>, alias: string, listing: seq<string>)
    returns (changed: bool, ok: bool, ghost done: set<string>, ghost gone: set<string>)
    requires Lists(listing, server.mappers)
    modifies server
    ensures Reached(old(server.mappers), server.mappers, Picked(old(server.mappers), listing), Desired(list, alias),
            done, gone)
    ensures ok ==>
              && server.failures == old(server.failures)
              && done == Desired(list, alias).Keys && gone == Picked(old(server.mappers), listing).Keys
              && (changed <==> server.writes > old(server.writes))
              && (changed <==> !Quiet(old(server.mappers), Picked(old(server.mappers), listing), Desired(list, alias)))
    ensures Quiet(old(server.mappers), Picked(old(server.mappers), listing), Desired(list, alias)) ==>
              server.writes == old(server.writes)
    ensures server.writes >= old(server.writes)
    ensures server.writes == old(server.writes) ==> server.mappers == old(server.mappers)
    ensures !ok ==> server.failures > old(server.failures)
  {
    hide Picked, Desired, Handled, Reached, Quiet, Agrees, NameOf;
    var call := server.Take();
    if !call.Ok? {
      NothingReached(server.mappers, Picked(server.mappers, listing), Desired(list, alias));
      return false, false, {}, {};
    }
    var pick, reps := IndexListing(server.mappers, listing);
    var desired := IndexDesired(list, alias);
    DesiredWellNamed(list, alias);
    changed, ok, done, gone := EnforceAll(server, pick, reps, desired);
  }

  method EnforceAll(server: MapperServer, pick: map<string, string>, reps: map<string, Fields>,
                    desired: map<string, Fields>)
    returns (changed: bool, ok: bool, ghost done: set<string>, ghost gone: set<string>)
    requires Picks(server.mappers, pick) && WellNamed(desired) && Read(server.mappers, pick, reps)
    modifies server
    ensures Reached(old(server.mappers), server.mappers, pick, desired, done, gone)
    ensures ok ==>
              && server.failures == old(server.failures)
              && done == desired.Keys && gone == pick.Keys
              && (changed <==> server.writes > old(server.writes))
              && (changed <==> !Quiet(old(server.mappers), pick, desired))
    ensures Quiet(old(server.mappers), pick, desired) ==> server.writes == old(server.writes)
    ensures server.writes >= old(server.writes)
    ensures server.writes == old(server.writes) ==> server.mappers == old(server.mappers)
    ensures !ok ==> server.failures > old(server.failures)
  {
    hide Handled, Reached, Picks, WellNamed, Read, AnyLacks, Unwanted;
    ghost var before := server.mappers;
    changed, ok, done := EnforceWanted(server, pick, reps, desired);
    ghost var middle := server.mappers;
    gone := {};
    ReachedBy(before, middle, pick, desired, done, {});
    if !ok {
      UnwantedNone(middle, pick, desired);
      return;
    }
    var wrote;
    wrote, ok, gone := RemoveUnwanted(server, pick, desired);
    ReachedBy(before, middle, pick, desired, done, gone);
    assert forall n :: n in pick && n !in desired ==> n in pick.Keys - desired.Keys;
    changed := changed || wrote;
  }

  // Nothing to write: no wanted name lacks anything and no other is listed.
  predicate Quiet(before: Mappers, pick: map<string, string>, desired: map<string, Fields>)
  {
    !AnyLacks(before, pick, desired, desired.Keys) && pick.Keys <= desired.Keys
  }

  lemma ReachedBy(before: Mappers, middle: Mappers, pick: map<string, string>, desired: map<string, Fields>,
                  done: set<string>, gone: set<string>)
    requires Handled(before, middle, pick, desired, done)
    ensures Reached(before, middle - Unwanted(pick, desired, gone), pick, desired, done, gone)
  {
  }

  lemma UnwantedNone(middle: Mappers, pick: map<string, string>, desired: map<string, Fields>)
    ensures middle - Unwanted(pick, desired, {}) == middle
  {
    assert Unwanted(pick, desired, {}) == {};
  }

  lemma NothingReached(before: Mappers, pick: map<string, string>, desired: map<string, Fields>)
    ensures Reached(before, before, pick, desired, {}, {})
  {
    HandledNone(before, pick, desired);
    UnwantedNone(before, pick, desired);
  }

  // ------------------------------------------------------------------ Laws

  // Exactly the desired names, each agreeing on every desired key.
  ghost predicate Matches(mappers: Mappers, desired: map<string, Fields>)
  {
    && (forall id :: id in mappers ==> Fits(mappers[id], desired))
    && (forall n :: n in desired ==> exists id :: id in mappers && NameOf(mappers[id]) == Some(n))
  }

  predicate Fits(rep: Fields, desired: map<string, Fields>)
  {
    NameOf(rep).Some? && NameOf(rep).value in desired && Agrees(rep, desired[NameOf(rep).value])
  }

  predicate IsPicked(mappers: Mappers, pick: map<string, string>, id: string)
    requires id in mappers
  {
    NameOf(mappers[id]).Some? && NameOf(mappers[id]).value in pick && pick[NameOf(mappers[id]).value] == id
  }

  // What is left of a listed mapper after success.
  lemma AfterSuccess(before: Mappers, after: Mappers, pick: map<string, string>, desired: map<string, Fields>,
                     id: string)
    requires Picks(before, pick) && WellNamed(desired) && id in before
    requires Reached(before, after, pick, desired, desired.Keys, pick.Keys)
    ensures !IsPicked(before, pick, id) ==> id in after && after[id] == before[id]
    ensures IsPicked(before, pick, id) && NameOf(before[id]).value !in desired ==> id !in after
    ensures IsPicked(before, pick, id) && NameOf(before[id]).value in desired ==>
              id in after && NameOf(after[id]) == NameOf(before[id]) && Fits(after[id], desired)
  {
    hide Reached, NameOf, WellNamed, OldOnes, NewOnes, Agrees;
    var middle := Before(before, after, pick, desired, desired.Keys, pick.Keys);
    KeepsName(before, middle, pick, desired, desired.Keys, id);
    HandledOne(before, middle, pick, desired, desired.Keys, id);
  }

  lemma HandledOne(before: Mappers, now: Mappers, pick: map<string, string>, desired: map<string, Fields>,
                   done: set<string>, id: string)
    requires OldOnes(before, now, pick, desired, done) && id in before
    ensures id in now && Became(before[id], Claim(before, pick, desired, done, id), desired, now[id])
  {
  }

  lemma RenamedSame(rep: Fields, body: Fields, n: string)
    requires NameOf(rep) == Some(n) && Named(body, n)
    ensures NameOf(rep + body) == Some(n)
  {
  }

  // What success adds.
  lemma AddedBySuccess(before: Mappers, after: Mappers, pick: map<string, string>, desired: map<string, Fields>)
    requires Picks(before, pick) && Reached(before, after, pick, desired, desired.Keys, pick.Keys)
    ensures forall id :: id in after && id !in before ==> Fits(after[id], desired)
    ensures forall n :: n in desired && n !in pick ==>
            exists id :: id in after && id !in before && NameOf(after[id]) == Some(n)
  {
    var middle :| Handled(before, middle, pick, desired, desired.Keys)
      && after == middle - Unwanted(pick, desired, pick.Keys);
    forall n | n in desired && n !in pick
      ensures exists id :: id in after && id !in before && NameOf(after[id]) == Some(n)
    {
      var id :| id in middle && id !in before && IsNew(middle[id], pick, desired, n);
      assert id in after;
    }
  }

  // Every listed mapper that its name does not resolve to is a desired one.
  ghost predicate OthersFit(before: Mappers, pick: map<string, string>, desired: map<string, Fields>)
  {
    forall id :: id in before && !IsPicked(before, pick, id) ==> Fits(before[id], desired)
  }

  // That is exactly when success leaves the desired mappers.
  lemma ExactIff(before: Mappers, after: Mappers, pick: map<string, string>, desired: map<string, Fields>)
    requires Picks(before, pick) && WellNamed(desired)
    requires Reached(before, after, pick, desired, desired.Keys, pick.Keys)
    ensures Matches(after, desired) <==> OthersFit(before, pick, desired)
  {
    hide Reached, Fits, WellNamed, NameOf;
    forall id | id in before
      ensures !IsPicked(before, pick, id) ==> id in after && after[id] == before[id]
      ensures IsPicked(before, pick, id) && id in after ==> Fits(after[id], desired)
    {
      AfterSuccess(before, after, pick, desired, id);
    }
    AddedBySuccess(before, after, pick, desired);
    forall n | n in desired
      ensures exists id :: id in after && NameOf(after[id]) == Some(n)
    {
      if n in pick {
        AfterSuccess(before, after, pick, desired, pick[n]);
        assert pick[n] in after;
      } else {
        var id :| id in after && id !in before && NameOf(after[id]) == Some(n);
      }
    }
  }

  ghost predicate UniqueNames(mappers: Mappers)
  {
    && (forall id :: id in mappers ==> NameOf(mappers[id]).Some?)
    && (forall a, b :: a in mappers && b in mappers && NameOf(mappers[a]) == NameOf(mappers[b]) ==> a == b)
  }

  // With unique names, success is exact whatever the order of the listing.
  lemma UniqueNamesExact(before: Mappers, after: Mappers, listing: seq<string>, list: seq<Mapper>, alias: string)
    requires Lists(listing, before) && UniqueNames(before)
    requires Reached(before, after, Picked(before, listing), Desired(list, alias), Desired(list, alias).Keys,
             Picked(before, listing).Keys)
    ensures Matches(after, Desired(list, alias))
    ensures forall i :: 0 <= i < |list| && IsLast(list, i) ==>
            exists id :: id in after && IsDeclared(after[id], list[i])
    ensures forall id :: id in after ==>
            exists i :: 0 <= i < |list| && IsLast(list, i) && IsDeclared(after[id], list[i])
  {
    hide Reached, Desired, WellNamed;
    DesiredWellNamed(list, alias);
    AllPicked(before, listing);
    ExactIff(before, after, Picked(before, listing), Desired(list, alias));
    hide Matches, IsDeclared;
    MatchesDeclared(after, list, alias);
  }

  lemma KeepsName(before: Mappers, now: Mappers, pick: map<string, string>, desired: map<string, Fields>,
                  done: set<string>, id: string)
    requires WellNamed(desired) && OldOnes(before, now, pick, desired, done) && id in before
    ensures id in now && NameOf(now[id]) == NameOf(before[id])
  {
    var claim := Claim(before, pick, desired, done, id);
    assert Became(before[id], claim, desired, now[id]);
    if claim.Some? {
      RenamedSame(before[id], desired[claim.value], claim.value);
    }
  }

  lemma UniqueTogether(before: Mappers, now: Mappers, pick: map<string, string>)
    requires UniqueNames(before)
    requires forall id :: id in before ==>
             NameOf(before[id]).value in pick && id in now && NameOf(now[id]) == NameOf(before[id])
    requires forall id :: id in now && id !in before ==> NameOf(now[id]).Some? && NameOf(now[id]).value !in pick
    requires forall a, b ::
               a in now && a !in before && b in now && b !in before && NameOf(now[a]) == NameOf(now[b]) ==> a == b
    ensures UniqueNames(now)
  {
    hide NameOf;
  }

  // Names stay unique, so the next pass is exact again.
  lemma NamesStayUnique(before: Mappers, after: Mappers, listing: seq<string>, desired: map<string, Fields>,
                        done: set<string>, gone: set<string>)
    requires Lists(listing, before) && UniqueNames(before) && WellNamed(desired)
    requires Reached(before, after, Picked(before, listing), desired, done, gone)
    ensures UniqueNames(after)
  {
    var pick := Picked(before, listing);
    hide *;
    AllPicked(before, listing);
    var middle := Before(before, after, pick, desired, done, gone);
    MadeOnes(before, middle, pick, desired, done);
    forall id | id in before
      ensures id in middle && NameOf(middle[id]) == NameOf(before[id])
    {
      KeepsName(before, middle, pick, desired, done, id);
    }
    UniqueTogether(before, middle, pick);
    UniqueAmong(middle, after);
  }

  lemma Before(before: Mappers, after: Mappers, pick: map<string, string>, desired: map<string, Fields>,
               done: set<string>, gone: set<string>) returns (middle: Mappers)
    requires Reached(before, after, pick, desired, done, gone)
    ensures OldOnes(before, middle, pick, desired, done) && NewOnes(before, middle, pick, desired, done)
    ensures after == middle - Unwanted(pick, desired, gone)
    ensures forall id :: id in after ==> id in middle && after[id] == middle[id]
  {
    middle :| Handled(before, middle, pick, desired, done) && after == middle - Unwanted(pick, desired, gone);
  }

  lemma AllPicked(before: Mappers, listing: seq<string>)
    requires Lists(listing, before) && UniqueNames(before)
    ensures forall id :: id in before ==>
            NameOf(before[id]).Some? && NameOf(before[id]).value in Picked(before, listing)
    ensures forall id :: id in before ==> IsPicked(before, Picked(before, listing), id)
  {
  }

  lemma MadeOnes(before: Mappers, now: Mappers, pick: map<string, string>, desired: map<string, Fields>,
                 done: set<string>)
    requires NewOnes(before, now, pick, desired, done)
    ensures forall id :: id in now && id !in before ==>
              && NameOf(now[id]).Some? && NameOf(now[id]).value in desired && NameOf(now[id]).value !in pick
              && Agrees(now[id], desired[NameOf(now[id]).value])
    ensures forall a, b ::
              a in now && a !in before && b in now && b !in before && NameOf(now[a]) == NameOf(now[b]) ==> a == b
  {
    hide NameOf, Agrees;
  }

  lemma UniqueAmong(mappers: Mappers, some: Mappers)
    requires UniqueNames(mappers) && forall id :: id in some ==> id in mappers && some[id] == mappers[id]
    ensures UniqueNames(some)
  {
    hide NameOf;
  }

  // A further pass over exactly the desired mappers has nothing to write.
  lemma MatchesIsQuiet(mappers: Mappers, listing: seq<string>, desired: map<string, Fields>)
    requires Lists(listing, mappers) && Matches(mappers, desired)
    ensures Quiet(mappers, Picked(mappers, listing), desired)
  {
    var pick := Picked(mappers, listing);
    forall n | n in pick
      ensures n in desired
    {
      assert Fits(mappers[pick[n]], desired);
    }
    forall n | n in desired
      ensures !Lacks(mappers, pick, desired, n)
    {
      var id :| id in mappers && NameOf(mappers[id]) == Some(n);
      assert n in pick;
      assert Fits(mappers[pick[n]], desired);
    }
  }

  // What a success must have left for a later listing to find nothing to do:
  // no mapper it did not pick has an unwanted name, nor is any of them, without
  // agreeing, the one its name resolves to then.
  ghost predicate Undoubled(before: Mappers, pick: map<string, string>, desired: map<string, Fields>,
                            later: map<string, string>)
  {
    forall id :: id in before && !IsPicked(before, pick, id) && NameOf(before[id]).Some? ==>
      var n := NameOf(before[id]).value;
      n in desired && (n in later && later[n] == id ==> Agrees(before[id], desired[n]))
  }

  lemma LaterQuietIff(before: Mappers, after: Mappers, pick: map<string, string>, desired: map<string, Fields>,
                      listing: seq<string>)
    requires Picks(before, pick) && WellNamed(desired) && Lists(listing, after)
    requires Reached(before, after, pick, desired, desired.Keys, pick.Keys)
    ensures Quiet(after, Picked(after, listing), desired) <==> Undoubled(before, pick, desired, Picked(after, listing))
  {
    var later := Picked(after, listing);
    LaterPicks(after, listing);
    hide *;
    if Quiet(after, later, desired) {
      QuietUndoubled(before, after, pick, desired, later);
    }
    if Undoubled(before, pick, desired, later) {
      UndoubledQuiet(before, after, pick, desired, later);
    }
  }

  // The later names are exactly those that some mapper has.
  ghost predicate Resolves(after: Mappers, later: map<string, string>)
  {
    Picks(after, later) && forall id :: id in after && NameOf(after[id]).Some? ==> NameOf(after[id]).value in later
  }

  lemma QuietUndoubled(before: Mappers, after: Mappers, pick: map<string, string>, desired: map<string, Fields>,
                       later: map<string, string>)
    requires Picks(before, pick) && WellNamed(desired) && Resolves(after, later)
    requires Reached(before, after, pick, desired, desired.Keys, pick.Keys)
    requires Quiet(after, later, desired)
    ensures Undoubled(before, pick, desired, later)
  {
    hide Reached, WellNamed, NameOf, Agrees, Fits, Picks;
    forall id | id in before && !IsPicked(before, pick, id) && NameOf(before[id]).Some?
      ensures var n := NameOf(before[id]).value;
              n in desired && (n in later && later[n] == id ==> Agrees(before[id], desired[n]))
    {
      AfterSuccess(before, after, pick, desired, id);
      assert NameOf(before[id]).value in later;
      assert !Lacks(after, later, desired, NameOf(before[id]).value);
    }
  }

  lemma UndoubledQuiet(before: Mappers, after: Mappers, pick: map<string, string>, desired: map<string, Fields>,
                       later: map<string, string>)
    requires Picks(before, pick) && WellNamed(desired) && Resolves(after, later)
    requires Reached(before, after, pick, desired, desired.Keys, pick.Keys)
    requires Undoubled(before, pick, desired, later)
    ensures Quiet(after, later, desired)
  {
    hide Reached, WellNamed, NameOf, Agrees;
    AddedBySuccess(before, after, pick, desired);
    forall n | n in later
      ensures n in desired && Agrees(after[later[n]], desired[n])
    {
      if later[n] in before {
        AfterSuccess(before, after, pick, desired, later[n]);
      }
    }
    forall n | n in desired
      ensures n in later
    {
      if n in pick {
        AfterSuccess(before, after, pick, desired, pick[n]);
      }
    }
  }

  lemma LaterPicks(after: Mappers, listing: seq<string>)
    requires Lists(listing, after)
    ensures Resolves(after, Picked(after, listing))
  {
  }

  // Wherever the calls stop, a listed mapper with a wanted name is still there
  // under that name, and every other one was listed or has a wanted name.
  lemma NothingWantedIsLost(before: Mappers, after: Mappers, pick: map<string, string>, desired: map<string, Fields>,
                            done: set<string>, gone: set<string>)
    requires Picks(before, pick) && WellNamed(desired) && Reached(before, after, pick, desired, done, gone)
    ensures forall id :: id in before && NameOf(before[id]).Some? && NameOf(before[id]).value in desired ==>
              id in after && NameOf(after[id]) == NameOf(before[id])
    ensures forall id :: id in after && id !in before ==> Fits(after[id], desired)
  {
    hide Reached, NameOf, WellNamed, OldOnes, NewOnes, Agrees;
    var middle := Before(before, after, pick, desired, done, gone);
    MadeOnes(before, middle, pick, desired, done);
    forall id | id in before && NameOf(before[id]).Some? && NameOf(before[id]).value in desired
      ensures id in after && NameOf(after[id]) == NameOf(before[id])
    {
      KeepsName(before, middle, pick, desired, done, id);
    }
  }

  // Two mappers of one name, none wanted: a pass removes one of them.
  lemma DuplicateNameStays()
    ensures var rep: Fields := map["name" := Str("x")];
            var before: Mappers := map["a" := rep, "b" := rep];
            && Lists(["a", "b"], before) && Picked(before, ["a", "b"]) == map["x" := "b"]
            && Reached(before, map["a" := rep], map["x" := "b"], map[], {}, {"x"})
            && !Matches(map["a" := rep], map[]) && !OthersFit(before, map["x" := "b"], map[])
  {
    var rep: Fields := map["name" := Str("x")];
    var before: Mappers := map["a" := rep, "b" := rep];
    var pick: map<string, string> := map["x" := "b"];
    assert ["a", "b"][..1] == ["a"] && ["a"][..0] == [];
    assert Picked(before, ["a"]) == map["x" := "a"];
    HandledNone(before, pick, map[]);
    assert Unwanted(pick, map[], {"x"}) == {"b"};
    assert before - {"b"} == map["a" := rep];
    assert Reached(before, map["a" := rep], pick, map[], {}, {"x"});
    assert "a" in map["a" := rep] && !Fits(rep, map[]);
    assert !IsPicked(before, pick, "a");
  }

  // ------------------------------------------------------- Declared mappers

  // The mapper on the server is the declared one: its name, its type if one is
  // given, and exactly its configuration if it has one.
  predicate IsDeclared(rep: Fields, m: Mapper)
  {
    && "name" in rep && rep["name"] == Str(m.name)
    && (m.kind.Some? ==> "identityProviderMapper" in rep && rep["identityProviderMapper"] == Str(m.kind.value))
    && (m.config != map[] ==> "config" in rep && IsConfig(rep["config"], m.config))
  }

  // The last declaration of its name.
  predicate IsLast(list: seq<Mapper>, i: nat)
    requires i < |list|
  {
    forall j :: i < j < |list| ==> list[j].name != list[i].name
  }

  lemma {:induction false} DesiredLast(list: seq<Mapper>, alias: string, i: nat)
    requires i < |list| && IsLast(list, i)
    ensures list[i].name in Desired(list, alias) && Desired(list, alias)[list[i].name] == Body(list[i], alias)
  {
    hide Body;
    if i < |list| - 1 {
      DesiredLast(list[..|list| - 1], alias, i);
    }
  }

  // Every desired name has a last declaration.
  lemma {:induction false} LastDeclared(list: seq<Mapper>, alias: string, n: string) returns (i: nat)
    requires n in Desired(list, alias)
    ensures i < |list| && IsLast(list, i) && list[i].name == n
  {
    hide Body;
    if list[|list| - 1].name == n {
      i := |list| - 1;
    } else {
      i := LastDeclared(list[..|list| - 1], alias, n);
    }
  }

  lemma AgreesWithDeclared(rep: Fields, m: Mapper, alias: string)
    requires Agrees(rep, Body(m, alias))
    ensures IsDeclared(rep, m)
  {
    var body := Body(m, alias);
    BodyWrites(m, alias);
    assert |"name"| == 4 && |"config"| == 6 && |"identityProviderMapper"| == 22 && |ALIAS| == 21;
    hide Body, Named;
    assert "name" in body;
    assert m.kind.Some? ==> "identityProviderMapper" in body;
    assert m.config != map[] ==> "config" in body;
  }

  // Mappers that match the desired ones are the declared ones, each as it was
  // last declared.
  lemma MatchesDeclared(mappers: Mappers, list: seq<Mapper>, alias: string)
    requires Matches(mappers, Desired(list, alias))
    ensures forall i :: 0 <= i < |list| && IsLast(list, i) ==>
            exists id :: id in mappers && IsDeclared(mappers[id], list[i])
    ensures forall id :: id in mappers ==>
            exists i :: 0 <= i < |list| && IsLast(list, i) && IsDeclared(mappers[id], list[i])
  {
    hide Body, Desired;
    forall i | 0 <= i < |list| && IsLast(list, i)
      ensures exists id :: id in mappers && IsDeclared(mappers[id], list[i])
    {
      DesiredLast(list, alias, i);
      var id :| id in mappers && NameOf(mappers[id]) == Some(list[i].name);
      assert Fits(mappers[id], Desired(list, alias));
      AgreesWithDeclared(mappers[id], list[i], alias);
    }
    forall id | id in mappers
      ensures exists i :: 0 <= i < |list| && IsLast(list, i) && IsDeclared(mappers[id], list[i])
    {
      assert Fits(mappers[id], Desired(list, alias));
      var i := LastDeclared(list, alias, NameOf(mappers[id]).value);
      DesiredLast(list, alias, i);
      AgreesWithDeclared(mappers[id], list[i], alias);
    }
  }
}
