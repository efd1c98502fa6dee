// Client scope assignments: the default or optional scopes of a client are
// made to match the desired names, one call at a time.

module ScopeAssignments {
  import opened Wrappers
  import opened Calls

  datatype Scope = Scope(id: string, name: string)

  datatype Result = Settled(changed: bool) | CallFailed | NoSuchScope(name: string)

  // What a realm listing contains, whatever its order.
  ghost predicate Lists(listing: seq<Scope>, names: map<string, string>)
  {
    forall s: Scope :: s in listing <==> s.id in names && names[s.id] == s.name
  }

  // The id a listing gives a name; the last entry wins.
  function Resolve(listing: seq<Scope>, name: string): (r: Option<string>)
    ensures r.Some? ==> Scope(r.value, name) in listing
    ensures r.None? ==> forall s :: s in listing ==> s.name != name
  {
    if listing == [] then None
    else
      var last := listing[|listing| - 1];
      if last.name == name then Some(last.id)
      else
        assert listing == listing[..|listing| - 1] + [last];
        Resolve(listing[..|listing| - 1], name)
  }

  ghost predicate Indexes(byName: map<string, string>, listing: seq<Scope>)
  {
    forall n :: Resolve(listing, n) == if n in byName then Some(byName[n]) else None
  }

  function Elements(s: seq<string>): (r: set<string>)
  {
    set x | x in s
  }

  function NamesOf(names: map<string, string>, ids: set<string>): (r: set<string>)
  {
    set id | id in ids && id in names :: names[id]
  }

  function Resolved(listing: seq<Scope>, wanted: set<string>): (r: set<string>)
    ensures forall n :: n in wanted && Resolve(listing, n).Some? ==> Resolve(listing, n).value in r
    ensures forall id :: id in r ==> exists n :: n in wanted && Resolve(listing, n) == Some(id)
  {
    set n | n in wanted && Resolve(listing, n).Some? :: Resolve(listing, n).value
  }

  // The ids a successful enforcement leaves.
  function Target(names: map<string, string>, listing: seq<Scope>, ids: set<string>,
                  desired: set<string>): (r: set<string>)
  {
    var current := NamesOf(names, ids);
    ids + Resolved(listing, desired - current) - Resolved(listing, current - desired)
  }

  // What success means: every missing name was resolved, and the ids are the
  // target.
  ghost predicate Achieved(names: map<string, string>, listing: seq<Scope>, before: set<string>,
                           desired: set<string>, after: set<string>)
  {
    && after == Target(names, listing, before, desired)
    && forall n :: n in desired - NamesOf(names, before) ==> Resolve(listing, n).Some?
  }

  // Nothing wanted was dropped and nothing unwanted was added.
  predicate Monotone(names: map<string, string>, desired: set<string>, before: set<string>, after: set<string>)
  {
    && (forall id :: id in before && (id in names ==> names[id] in desired) ==> id in after)
    && (forall id :: id in after && id !in before ==> id in names && names[id] in desired)
  }

  // The server's list of assigned scopes. Each call may fail, before or after
  // it took effect.
  class Assignments {
    const names: map<string, string>
    var scopes: seq<string>
    var writes: nat
    var failures: nat

    constructor (names: map<string, string>, scopes: seq<string>)
      ensures this.names == names && this.scopes == scopes && writes == 0 && failures == 0
    {
      this.names, this.scopes, this.writes, this.failures := names, scopes, 0, 0;
    }

    method Take() returns (call: Call)
      modifies this`failures
      ensures if call.Ok? then failures == old(failures) else failures > old(failures)
    {
      call := *;
      if !call.Ok? {
        failures := failures + 1;
      }
    }

    method Assign(id: string) returns (ok: bool)
      requires id in names
      modifies this
      ensures writes == old(writes) + 1
      ensures ok ==> Elements(scopes) == Elements(old(scopes)) + {id} && failures == old(failures)
      ensures !ok ==> failures > old(failures)
      ensures scopes == old(scopes) || Elements(scopes) == Elements(old(scopes)) + {id}
    {
      var call := Take();
      writes := writes + 1;
      if call.Took() {
        scopes := AppendUnique(scopes, id);
      }
      ok := call.Ok?;
    }

    method Unassign(id: string) returns (ok: bool)
      modifies this
      ensures writes == old(writes) + 1
      ensures ok ==> Elements(scopes) == Elements(old(scopes)) - {id} && failures == old(failures)
      ensures !ok ==> failures > old(failures)
      ensures scopes == old(scopes) || Elements(scopes) == Elements(old(scopes)) - {id}
    {
      var call := Take();
      writes := writes + 1;
      if call.Took() {
        scopes := RemoveValue(scopes, id);
      }
      ok := call.Ok?;
    }

    // The names of the assigned scopes that exist.
    method Report() returns (current: seq<string>)
      ensures Elements(current) == NamesOf(names, Elements(scopes))
    {
      current := [];
      for i := 0 to |scopes|
        invariant Elements(current) == NamesOf(names, Elements(scopes[..i]))
      {
        assert Elements(scopes[..i + 1]) == Elements(scopes[..i]) + {scopes[i]};
        if scopes[i] in names {
          assert Elements(current + [names[scopes[i]]]) == Elements(current) + {names[scopes[i]]};
          current := current + [names[scopes[i]]];
        }
      }
      assert scopes[..|scopes|] == scopes;
    }

    // Makes the assigned scopes match the desired names.
    method Enforce(desired: seq<string>, listing: seq<Scope>) returns (r: Result)
      requires Lists(listing, names)
      modifies this
      ensures Monotone(names, Elements(desired), Elements(old(scopes)), Elements(scopes))
      ensures r.Settled? ==>
                && failures == old(failures)
                && Achieved(names, listing, Elements(old(scopes)), Elements(desired), Elements(scopes))
                && r.changed == (NamesOf(names, Elements(old(scopes))) != Elements(desired))
                && (r.changed <==> writes > old(writes))
      ensures NamesOf(names, Elements(old(scopes))) == Elements(desired) ==>
              scopes == old(scopes) && writes == old(writes)
      ensures writes == old(writes) ==> scopes == old(scopes)
      ensures writes >= old(writes)
      ensures r.CallFailed? ==> failures > old(failures)
      ensures r.NoSuchScope? ==> r.name in Elements(desired) && Resolve(listing, r.name).None?
    {
      var call := Take();
      if !call.Ok? {
        return CallFailed;
      }
      var current := Report();
      var desiredSet := ToSet(desired);
      var currentNames := ToSet(current);
      var toAdd := Difference(desiredSet, currentNames);
      var toRemove := Difference(currentNames, desiredSet);
      if toAdd == [] && toRemove == [] {
        assert desiredSet - currentNames == {} && currentNames - desiredSet == {};
        return Settled(false);
      }
      assert toAdd != [] ==> toAdd[0] in Elements(toAdd);
      assert toRemove != [] ==> toRemove[0] in Elements(toRemove);
      call := Take();
      if !call.Ok? {
        return CallFailed;
      }
      var idsByName := IndexByName(listing);
      r := Apply(toAdd, toRemove, listing, idsByName, desiredSet);
    }

    method Apply(toAdd: seq<string>, toRemove: seq<string>, ghost listing: seq<Scope>,
                 idsByName: map<string, string>, ghost desired: set<string>) returns (r: Result)
      requires Lists(listing, names) && Indexes(idsByName, listing)
      requires Elements(toAdd) == desired - NamesOf(names, Elements(scopes))
      requires Elements(toRemove) == NamesOf(names, Elements(scopes)) - desired
      modifies this
      ensures Monotone(names, desired, Elements(old(scopes)), Elements(scopes))
      ensures writes >= old(writes) && (writes == old(writes) ==> scopes == old(scopes))
      ensures r.Settled? && (toAdd != [] || toRemove != []) ==> writes > old(writes)
      ensures r.Settled? ==>
                && r.changed && failures == old(failures)
                && Elements(scopes) == Target(names, listing, Elements(old(scopes)), desired)
                && (forall n :: n in Elements(toAdd) ==> Resolve(listing, n).Some?)
      ensures r.CallFailed? ==> failures > old(failures)
      ensures r.NoSuchScope? ==> r.name in desired && Resolve(listing, r.name).None?
    {
      assert forall n :: n in Elements(toRemove) ==> exists id :: Scope(id, n) in listing by {
        forall n | n in Elements(toRemove)
          ensures exists id :: Scope(id, n) in listing
        {
          var id :| id in Elements(scopes) && id in names && names[id] == n;
          assert Scope(id, n) in listing;
        }
      }
      r := AddAll(toAdd, listing, idsByName, desired);
      if r.Settled? {
        r := RemoveAll(toRemove, listing, idsByName, desired);
      }
    }

    method AddAll(toAdd: seq<string>, ghost listing: seq<Scope>, idsByName: map<string, string>,
                  ghost desired: set<string>) returns (r: Result)
      requires Lists(listing, names) && Indexes(idsByName, listing)
      requires Elements(toAdd) <= desired
      modifies this
      ensures Elements(old(scopes)) <= Elements(scopes)
      ensures Monotone(names, desired, Elements(old(scopes)), Elements(scopes))
      ensures writes >= old(writes) && (writes == old(writes) ==> scopes == old(scopes))
      ensures r.Settled? ==>
                && r.changed && failures == old(failures) && writes == old(writes) + |toAdd|
                && Elements(scopes) == Elements(old(scopes)) + Resolved(listing, Elements(toAdd))
                && (forall n :: n in Elements(toAdd) ==> Resolve(listing, n).Some?)
      ensures r.CallFailed? ==> failures > old(failures)
      ensures r.NoSuchScope? ==> r.name in desired && Resolve(listing, r.name).None?
    {
      for i := 0 to |toAdd|
        invariant failures == old(failures) && writes == old(writes) + i
        invariant i == 0 ==> scopes == old(scopes)
        invariant Elements(scopes) == Elements(old(scopes)) + Resolved(listing, Elements(toAdd[..i]))
        invariant Monotone(names, desired, Elements(old(scopes)), Elements(scopes))
        invariant forall n :: n in Elements(toAdd[..i]) ==> Resolve(listing, n).Some?
      {
        assert Elements(toAdd[..i + 1]) == Elements(toAdd[..i]) + {toAdd[i]};
        assert toAdd[i] in Elements(toAdd);
        if toAdd[i] !in idsByName {
          return NoSuchScope(toAdd[i]);
        }
        var ok := Assign(idsByName[toAdd[i]]);
        if !ok {
          return CallFailed;
        }
      }
      assert toAdd[..|toAdd|] == toAdd;
      r := Settled(true);
    }

    method RemoveAll(toRemove: seq<string>, ghost listing: seq<Scope>, idsByName: map<string, string>,
                     ghost desired: set<string>) returns (r: Result)
      requires Lists(listing, names) && Indexes(idsByName, listing)
      requires Elements(toRemove) !! desired
      modifies this
      ensures Elements(scopes) <= Elements(old(scopes))
      ensures Monotone(names, desired, Elements(old(scopes)), Elements(scopes))
      ensures writes >= old(writes) && (writes == old(writes) ==> scopes == old(scopes))
      ensures r.Settled? && (forall n :: n in Elements(toRemove) ==> Resolve(listing, n).Some?) ==>
              writes == old(writes) + |toRemove|
      ensures r.Settled? ==>
                && r.changed && failures == old(failures)
                && Elements(scopes) == Elements(old(scopes)) - Resolved(listing, Elements(toRemove))
      ensures r.CallFailed? ==> failures > old(failures)
      ensures !r.NoSuchScope?
    {
      for i := 0 to |toRemove|
        invariant failures == old(failures)
        invariant writes >= old(writes) && (writes == old(writes) ==> scopes == old(scopes))
        invariant (forall n :: n in Elements(toRemove) ==> Resolve(listing, n).Some?) ==> writes == old(writes) + i
        invariant Elements(scopes) == Elements(old(scopes)) - Resolved(listing, Elements(toRemove[..i]))
        invariant Monotone(names, desired, Elements(old(scopes)), Elements(scopes))
      {
        assert Elements(toRemove[..i + 1]) == Elements(toRemove[..i]) + {toRemove[i]};
        assert toRemove[i] in Elements(toRemove);
        if toRemove[i] in idsByName {
          var ok := Unassign(idsByName[toRemove[i]]);
          if !ok {
            return CallFailed;
          }
        }
      }
      assert toRemove[..|toRemove|] == toRemove;
      r := Settled(true);
    }
  }

  method AppendUnique(list: seq<string>, value: string) returns (r: seq<string>)
    ensures r == if value in list then list else list + [value]
  {
    for i := 0 to |list|
      invariant value !in list[..i]
    {
      if list[i] == value {
        return list;
      }
    }
    assert list[..|list|] == list;
    r := list + [value];
  }

  // The list without a value, the rest in order.
  function Dropped(list: seq<string>, value: string): (r: seq<string>)
    ensures forall x :: x in r <==> x in list && x != value
  {
    if list == [] then []
    else
      var last := list[|list| - 1];
      assert list == list[..|list| - 1] + [last];
      Dropped(list[..|list| - 1], value) + if last == value then [] else [last]
  }

  method RemoveValue(list: seq<string>, value: string) returns (r: seq<string>)
    ensures r == Dropped(list, value)
  {
    r := [];
    for i := 0 to |list|
      invariant r == Dropped(list[..i], value)
    {
      assert list[..i + 1][..i] == list[..i];
      if list[i] != value {
        r := r + [list[i]];
      }
    }
    assert list[..|list|] == list;
  }

  method ToSet(list: seq<string>) returns (r: set<string>)
    ensures r == Elements(list)
  {
    r := {};
    for i := 0 to |list|
      invariant r == Elements(list[..i])
    {
      r := r + {list[i]};
      assert Elements(list[..i + 1]) == Elements(list[..i]) + {list[i]};
    }
    assert list[..|list|] == list;
  }

  // The members of one set that the other lacks, in some order.
  method Difference(a: set<string>, b: set<string>) returns (r: seq<string>)
    ensures Elements(r) == a - b
  {
    r := [];
    var todo := a;
    while todo != {}
      invariant todo <= a
      invariant Elements(r) == a - todo - b
      decreases todo
    {
      var name :| name in todo;
      if name !in b {
        assert Elements(r + [name]) == Elements(r) + {name};
        r := r + [name];
      }
      todo := todo - {name};
    }
  }

  method IndexByName(listing: seq<Scope>) returns (r: map<string, string>)
    ensures Indexes(r, listing)
  {
    r := map[];
    for i := 0 to |listing|
      invariant Indexes(r, listing[..i])
    {
      r := r[listing[i].name := listing[i].id];
      assert listing[..i + 1][..i] == listing[..i];
    }
    assert listing[..|listing|] == listing;
  }

  // What a client asks for; an absent list is not managed.
  datatype ClientSpec = ClientSpec(defaults: Option<seq<string>>, optionals: Option<seq<string>>)

  // The names of a declared list are already the desired ones.
  predicate AsNamed(names: map<string, string>, desired: Option<seq<string>>, ids: seq<string>)
  {
    desired.Some? ==> NamesOf(names, Elements(ids)) == Elements(desired.value)
  }

  // A declared list reached its target; an undeclared one was left alone.
  ghost predicate Enforced(names: map<string, string>, listing: seq<Scope>, desired: Option<seq<string>>,
                           before: seq<string>, after: seq<string>)
  {
    if desired.None? then after == before
    else Achieved(names, listing, Elements(before), Elements(desired.value), Elements(after))
  }

  ghost predicate Kept(names: map<string, string>, desired: Option<seq<string>>, before: seq<string>,
                       after: seq<string>)
  {
    if desired.None? then after == before
    else Monotone(names, Elements(desired.value), Elements(before), Elements(after))
  }

  method EnforceDeclared(store: Assignments, desired: Option<seq<string>>, listing: seq<Scope>) returns (r: Result)
    requires Lists(listing, store.names)
    modifies store
    ensures Kept(store.names, desired, old(store.scopes), store.scopes)
    ensures r.Settled? ==>
              && store.failures == old(store.failures)
              && Enforced(store.names, listing, desired, old(store.scopes), store.scopes)
              && (r.changed <==> !AsNamed(store.names, desired, old(store.scopes)))
              && (r.changed <==> store.writes > old(store.writes))
    ensures AsNamed(store.names, desired, old(store.scopes)) ==> store.writes == old(store.writes)
    ensures store.writes >= old(store.writes)
            && (store.writes == old(store.writes) ==> store.scopes == old(store.scopes))
    ensures r.CallFailed? ==> store.failures > old(store.failures)
    ensures r.NoSuchScope? ==> desired.Some? && r.name in desired.value && Resolve(listing, r.name).None?
  {
    if desired.None? {
      return Settled(false);
    }
    r := store.Enforce(desired.value, listing);
  }

  // The client driver: default scopes first, then the optional ones.
  method PostApply(id: string, spec: ClientSpec, defaults: Assignments, optionals: Assignments, listing: seq<Scope>)
    returns (changed: bool, ok: bool)
    requires defaults != optionals && Lists(listing, defaults.names) && Lists(listing, optionals.names)
    modifies defaults, optionals
    ensures Kept(defaults.names, spec.defaults, old(defaults.scopes), defaults.scopes)
    ensures Kept(optionals.names, spec.optionals, old(optionals.scopes), optionals.scopes)
    ensures var calm := AsNamed(defaults.names, spec.defaults, old(defaults.scopes))
            && AsNamed(optionals.names, spec.optionals, old(optionals.scopes));
            var wrote := defaults.writes > old(defaults.writes) || optionals.writes > old(optionals.writes);
            && (calm ==> !wrote)
            && (!wrote ==> defaults.scopes == old(defaults.scopes) && optionals.scopes == old(optionals.scopes))
            && (ok ==> (changed <==> !calm) && (changed <==> wrote))
    ensures id == "" ==> !ok && defaults.writes == old(defaults.writes) && optionals.writes == old(optionals.writes)
    ensures ok ==>
              && Enforced(defaults.names, listing, spec.defaults, old(defaults.scopes), defaults.scopes)
              && Enforced(optionals.names, listing, spec.optionals, old(optionals.scopes), optionals.scopes)
    ensures !ok ==>
              || id == ""
              || defaults.failures > old(defaults.failures) || optionals.failures > old(optionals.failures)
              || (exists n :: Asks(spec, n) && Resolve(listing, n).None?)
  {
    if id == "" {
      return false, false;
    }
    var first := EnforceDeclared(defaults, spec.defaults, listing);
    if !first.Settled? {
      assert first.NoSuchScope? ==> Asks(spec, first.name);
      return false, false;
    }
    var second := EnforceDeclared(optionals, spec.optionals, listing);
    if !second.Settled? {
      assert second.NoSuchScope? ==> Asks(spec, second.name);
      return first.changed, false;
    }
    return first.changed || second.changed, true;
  }

  predicate Asks(spec: ClientSpec, name: string)
  {
    || (spec.defaults.Some? && name in spec.defaults.value)
    || (spec.optionals.Some? && name in spec.optionals.value)
  }

  // ------------------------------------------------------------- Exactness

  // Every assigned scope that is not wanted is the one its name resolves to.
  ghost predicate Resolvable(names: map<string, string>, listing: seq<Scope>, ids: set<string>, desired: set<string>)
  {
    forall id :: id in ids && id in names && names[id] !in desired ==> Resolve(listing, names[id]) == Some(id)
  }

  // That is exactly when success leaves the desired names.
  lemma ExactIff(names: map<string, string>, listing: seq<Scope>, ids: set<string>, desired: set<string>)
    requires Lists(listing, names)
    requires forall n :: n in desired - NamesOf(names, ids) ==> Resolve(listing, n).Some?
    ensures NamesOf(names, Target(names, listing, ids, desired)) == desired <==>
            Resolvable(names, listing, ids, desired)
  {
    var current := NamesOf(names, ids);
    var target := Target(names, listing, ids, desired);
    var after := NamesOf(names, target);
    forall n | n in desired
      ensures n in after
    {
      if n in current {
        var id :| id in ids && id in names && names[id] == n;
        assert id in target;
      } else {
        assert Resolve(listing, n).value in target;
      }
    }
    forall id | id in ids && id in names && names[id] !in desired
      ensures id in target <==> Resolve(listing, names[id]) != Some(id)
    {
    }
    if forall id :: id in ids && id in names && names[id] !in desired ==> Resolve(listing, names[id]) == Some(id) {
      forall n | n in after
        ensures n in desired
      {
        var id :| id in target && id in names && names[id] == n;
      }
    } else {
      var id :| id in ids && id in names && names[id] !in desired && Resolve(listing, names[id]) != Some(id);
      assert names[id] in after;
    }
  }

  predicate UniqueNames(names: map<string, string>)
  {
    forall a, b :: a in names && b in names && names[a] == names[b] ==> a == b
  }

  // With unique scope names, success is exact.
  lemma UniqueNamesExact(names: map<string, string>, listing: seq<Scope>, ids: set<string>, desired: set<string>)
    requires Lists(listing, names) && UniqueNames(names)
    requires forall n :: n in desired - NamesOf(names, ids) ==> Resolve(listing, n).Some?
    ensures NamesOf(names, Target(names, listing, ids, desired)) == desired
  {
    ExactIff(names, listing, ids, desired);
    forall id | id in ids && id in names && names[id] !in desired
      ensures Resolve(listing, names[id]) == Some(id)
    {
      assert Scope(id, names[id]) in listing;
    }
  }

  // Two assigned scopes of one name, none wanted: the removal takes one, and a
  // further pass asks for the same removal again without effect.
  lemma DuplicateNameStays()
    ensures var names, listing := map["a" := "x", "b" := "x"], [Scope("a", "x"), Scope("b", "x")];
            && Lists(listing, names) && !Resolvable(names, listing, {"a", "b"}, {})
            && Achieved(names, listing, {"a", "b"}, {}, {"a"}) && NamesOf(names, {"a"}) == {"x"}
            && Achieved(names, listing, {"a"}, {}, {"a"})
  {
    var names, listing := map["a" := "x", "b" := "x"], [Scope("a", "x"), Scope("b", "x")];
    assert Resolve(listing, "x") == Some("b");
    assert Resolved(listing, {"x"}) == {"b"} && Resolved(listing, {}) == {};
    assert "a" in {"a"} && names["a"] == "x";
    assert NamesOf(names, {"a", "b"}) == {"x"} && NamesOf(names, {"a"}) == {"x"};
    assert {} - {"x"} == {} && {"x"} - {} == {"x"};
    assert Target(names, listing, {"a", "b"}, {}) == {"a"};
    assert Target(names, listing, {"a"}, {}) == {"a"};
  }
}
