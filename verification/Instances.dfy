// Worlds in which the conditions of the laws fail, built from a custom resource
// and a server.

module Instances {
  import opened Wrappers
  import opened Json
  import opened Calls
  import opened LastApplied
  import opened PayloadLaws
  import opened Drivers
  import opened PostProcessing
  import opened Engine
  import opened EngineLaws
  import opened PassLaws
  import opened Runs
  import opened Conditions
  import opened Findings
  import SA = ScopeAssignments
  import RM = RoleMappings
  import RE = RoleEnforcers
  import GM = GroupMappings

  const NOTHING_WISHED := Wish(SA.ClientSpec(None, None), RE.RoleSpec(None, None), GM.GroupSpec(None, None), [])

  function Around(scopes: map<string, string>, roles: map<string, Fields>): (r: Surroundings)
  {
    Surroundings(scopes, RM.Directory(roles, map[], map[]))
  }

  // A pass in which every call succeeds.
  function AllWell(around: Surroundings, scopes: seq<SA.Scope>, post: Post): (r: Env)
  {
    Env(true, Ok, true, NotReferenced, None, Ok, None, true, around, Listing(scopes, []), post, Ok, true, true)
  }

  function Declared(kind: Kind, fields: Fields, wish: Wish): (r: Object)
  {
    Object(kind, Spec("k", CreateOnly, Delete, fields, wish), false, false, false, false, Unset, Absent, Absent)
  }

  // ------------------------------------------------------------ Lost resets

  // Every resource whose create pass stopped at recording the spec: if the spec
  // then drops a field before the next pass, that pass reports success and the
  // field stays.
  lemma UnrecordedRemovalIsLost(w: World, e1: Env, spec: Spec, e2: Env, k: string)
    requires Undisturbed(e1) && CreatedBy(w, e1) && Reconcile(w, e1).0.obj.annotation.Unset?
    requires CarriesMarker(w.obj.kind) && !w.obj.spec.adoption.FailIfExists?
    requires spec == w.obj.spec.(fields := spec.fields) && k !in spec.fields
    requires k !in OwnKeys(w.obj.kind) && k != "id" && k in Payload(w.obj, e1.secret).value
    requires !IsReset(Payload(w.obj, e1.secret).value, k)
    requires var edited := Next(Reconcile(w, e1).0, EditSpec(spec));
             Clean(e2) && Reaches(edited, e2) && Payload(edited.obj, e2.secret).Some?
    ensures var edited := Next(Reconcile(w, e1).0, EditSpec(spec));
            var (w', out) := Reconcile(edited, e2);
            && out == Done && w'.obj.synced == Holds && Recorded(w'.obj)
            && w.obj.spec.key in w'.server && !IsReset(w'.server[w.obj.spec.key].rep, k)
  {
    CreatedFacts(w, e1);
    CreatedIsMarked(w, e1);
    var edited := Next(Reconcile(w, e1).0, EditSpec(spec));
    hide Reconcile, IsManaged, HasId, UpdatePayload, Effective, Strip;
    CleanVerdict(edited, e2);
    PassApplied(edited, e2);
    DoneResetsIff(edited, e2, k);
  }

  // A create pass that stops at recording the spec.
  lemma StopsUnrecorded(w: World, e: Env)
    requires Undisturbed(e) && Reaches(w, e) && w.obj.spec.key !in w.server && Payload(w.obj, e.secret).Some?
    requires e.write.Ok? && e.refetch && e.annotate.NotDone? && w.obj.annotation.Unset? && !HasCollections(w.obj.kind)
    ensures CreatedBy(w, e) && Reconcile(w, e).0.obj.annotation.Unset?
    ensures SameLife(w.obj, Reconcile(w, e).0.obj)
  {
    PipelinesAgree(w.obj.kind, e.secret, Effective(Strip(w.obj.kind, w.obj.spec.fields), w.obj.annotation).value);
    hide CreatePayload, UpdatePayload, Effective, Strip, Assigned;
  }

  lemma RunFour(w: World, a: Step, b: Step, c: Step, d: Step)
    ensures Run(w, [a, b, c, d]) == Next(Next(Next(Next(w, a), b), c), d)
  {
    hide Next;
    RunFirst(w, a, [b, c, d]);
    RunFirst(Next(w, a), b, [c, d]);
    RunFirst(Next(Next(w, a), b), c, [d]);
    RunFirst(Next(Next(Next(w, a), b), c), d, []);
    assert [a] + [b, c, d] == [a, b, c, d] && [b] + [c, d] == [b, c, d] && [c] + [d] == [c, d] && [d] + [] == [d];
  }

  lemma RunFirst(w: World, step: Step, rest: seq<Step>)
    ensures Run(w, [step] + rest) == Run(Next(w, step), rest)
  {
    hide Next;
    assert ([step] + rest)[1..] == rest;
  }

  // The payload of a client scope keeps its description.
  lemma DescriptionSent(o: Object)
    requires o.kind.ClientScope? && o.annotation.Unset?
    ensures Payload(o, NotReferenced).Some?
    ensures "description" in o.spec.fields ==>
              "description" in Payload(o, NotReferenced).value
                && Payload(o, NotReferenced).value["description"] == o.spec.fields["description"]
  {
    assert "description" !in OperatorFields(ClientScope) by {
      assert "description"[0] == 'd' && "keycloakRef"[0] == 'k';
      assert |"description"| == 11 && |"adoptionPolicy"| == 14 && |"deletionPolicy"| == 14 && |"realm"| == 5;
    }
    hide OperatorFields;
    PipelineFrame(o.kind, NotReferenced, Strip(o.kind, o.spec.fields));
  }

  // Such a run from a fresh client scope.
  lemma LostReset()
    ensures var fields: Fields := map["name" := Str("k"), "description" := Str("d")];
            var start := World(Declared(ClientScope, fields, NOTHING_WISHED), map[], []);
            var well := AllWell(Around(map[], map[]), [], Post(true, NO_SIDE, false));
            var spec := start.obj.spec.(fields := map["name" := Str("k")]);
            var end := Run(start, [Pass(well), Pass(well.(annotate := NotDone)), EditSpec(spec), Pass(well)]);
            && Fresh(start) && end.obj.synced == Holds && Recorded(end.obj)
            && "k" in end.server && !IsReset(end.server["k"].rep, "description")
  {
    var fields: Fields := map["name" := Str("k"), "description" := Str("d")];
    var start := World(Declared(ClientScope, fields, NOTHING_WISHED), map[], []);
    var well := AllWell(Around(map[], map[]), [], Post(true, NO_SIDE, false));
    var stopped := well.(annotate := NotDone);
    var spec := start.obj.spec.(fields := map["name" := Str("k")]);
    var w1 := start.(obj := start.obj.(finalizer := true));
    assert Next(start, Pass(well)) == w1;
    DescriptionSent(w1.obj);
    assert "description"[0] == 'd' && "name"[0] == 'n' && "attributes"[0] == 'a' && "id"[0] == 'i';
    assert Str("d") != Str("") && Str("d") != Str(MASKED) by { assert |"d"| == 1 && |""| == 0 && |MASKED| > 1; }
    hide UpdatePayload, Strip, Recorded, HandleCreate, HandleExisting;
    StopsUnrecorded(w1, stopped);
    hide Reconcile;
    var w3 := Next(Next(w1, Pass(stopped)), EditSpec(spec));
    DescriptionSent(w3.obj);
    UnrecordedRemovalIsLost(w1, stopped, spec, well, "description");
    RunFour(start, Pass(well), Pass(stopped), EditSpec(spec), Pass(well));
  }

  // -------------------------------------------------------- Ambiguous names

  // A live, recorded resource without fields of its own.
  function Managed(kind: Kind, wish: Wish, fields: Fields): (r: Object)
  {
    Declared(kind, fields, wish).(finalizer := true, annotation := Snapshot(map[]))
  }

  // Its representation: the payload and the id the server assigned.
  function Rep(kind: Kind): (r: Fields)
  {
    Stamp(kind, map[]) + Assigned(kind, "k")
  }

  lemma ManagedFacts(o: Object)
    requires CarriesMarker(o.kind) && Strip(o.kind, o.spec.fields) == map[] && o.annotation == Snapshot(map[])
    ensures Recorded(o) && Payload(o, NotReferenced) == Some(Stamp(o.kind, map[]))
    ensures "id" !in Stamp(o.kind, map[]) && !Differs(Rep(o.kind), Stamp(o.kind, map[])) && HasId(Rep(o.kind))
    ensures forall k :: k in Stamp(o.kind, map[]) ==> !Stamp(o.kind, map[])[k].Null?
  {
    assert Resets(map[], map[]) == map[];
    assert map[] + Resets(map[], map[]) == map[];
    assert |"id"| == 2 && |"attributes"| == 10 && |"id-" + "k"| == 4;
    MadeAgrees(o.kind, "k", Stamp(o.kind, map[]));
  }

  const TWINS: map<string, string> := map["a" := "x", "b" := "x"]
  const TWIN_LISTING := [SA.Scope("a", "x"), SA.Scope("b", "x")]
  const NO_DEFAULTS := NOTHING_WISHED.(client := SA.ClientSpec(Some([]), None))

  function Holding(ids: seq<string>): (r: Side)
  {
    NO_SIDE.(defaults := ids)
  }

  function TwinWorld(): (r: World)
  {
    World(Managed(Client, NO_DEFAULTS, map[]), map["k" := Remote(Rep(Client), Holding(["a", "b"]))], [])
  }

  function TwinPass(): (r: Env)
  {
    AllWell(Around(TWINS, map[]), TWIN_LISTING, Post(true, Holding(["a"]), true))
  }

  lemma TwinsFair(w: World, e: Env, ids: seq<string>)
    requires w.obj.kind == Client && w.obj.spec.wish == NO_DEFAULTS && w.obj.spec.key in w.server
    requires SideAt(w) == Holding(ids) && (ids == ["a", "b"] || ids == ["a"])
    requires e == TwinPass()
    ensures Fair(w, e) && !Still(JobOf(w.obj, e.around), e.listing, SideAt(w))
    ensures ids == ["a", "b"] ==> !Faithful(JobOf(w.obj, e.around), e.listing, SideAt(w))
  {
    SA.DuplicateNameStays();
    assert SA.Elements(["a", "b"]) == {"a", "b"} && SA.Elements(["a"]) == {"a"} && SA.Elements([]) == {};
    assert SA.NamesOf(TWINS, {"a", "b"}) == {"x"} by { assert "a" in {"a", "b"}; }
    assert SA.NamesOf(TWINS, {"a"}) == {"x"};
    hide SA.Achieved, SA.Resolvable, SA.Lists, SA.Resolve, SA.NamesOf;
    assert SA.Monotone(TWINS, {}, {"a", "b"}, {"a"}) && SA.Monotone(TWINS, {}, {"a"}, {"a"});
  }

  // Two default scopes of one name, none wanted: the pass reports Synced with a
  // scope still assigned, and every further pass sends a request again.
  lemma TwinScopesNeverSettle()
    ensures var w, e := TwinWorld(), TwinPass();
            var w1 := Reconcile(w, e).0;
            && Reconcile(w, e).1.Done? && w1.obj.synced == Holds && Fair(w, e) && Fair(w1, e)
            && !Settled(w1, e.around) && !Quiet(w1, Reconcile(w1, e).0)
  {
    var w, e := TwinWorld(), TwinPass();
    var w1 := Reconcile(w, e).0;
    ManagedFacts(w.obj);
    TwinsFair(w, e, ["a", "b"]);
    hide Stamp, Assigned, HasId, IsManaged, Differs, UpdatePayload, Faithful, Still, Possible, Goal;
    CleanVerdict(w, e);
    SyncedIsTruthful(w, e);
    PassApplied(w, e);
    PassAnnotated(w, e);
    hide Reconcile;
    TwinsFair(w1, e, ["a"]);
    StillNextIff(w, e, e);
    FixpointIff(w, e, e);
  }

  // ------------------------------------------------------- Removed members

  const MEMBER: Fields := map["id" := Str("r")]
  const ONE_MEMBER := NOTHING_WISHED.(role := RE.RoleSpec(Some(true), Some(RE.Members(["x"], map[]))))
  const NO_MEMBERS := NOTHING_WISHED.(role := RE.RoleSpec(Some(true), None))
  const ONE_HELD: RM.Store := map[RM.Composites := [MEMBER]]
  const NONE_HELD: RM.Store := map[RM.Composites := []]

  function RoleAround(): (r: Surroundings)
  {
    Around(map[], map["x" := MEMBER])
  }

  function RoleWorld(): (r: World)
  {
    World(Managed(RealmRole, ONE_MEMBER, map["composites" := Obj(map["realmRoles" := Arr([Str("x")])])]),
          map["k" := Remote(Rep(RealmRole), NO_SIDE.(roles := ONE_HELD))], [])
  }

  lemma MembersWanted()
    ensures RM.StringIds([MEMBER]) == {Str("r")} && RM.StringIds([]) == {}
    ensures RE.CompositeIds(ONE_MEMBER.role, RoleAround().dir) == {Str("r")}
            && !RE.Unresolved(ONE_MEMBER.role, RoleAround().dir)
    ensures RE.CompositeIds(NO_MEMBERS.role, RoleAround().dir) == {}
            && !RE.Unresolved(NO_MEMBERS.role, RoleAround().dir)
    ensures RE.Monotone([MEMBER], {}, [])
  {
    assert MEMBER in [MEMBER] && RM.IdOf(MEMBER) == Str("r");
    assert RM.Ids([MEMBER]) == {Str("r")} && RM.Ids([]) == {};
    assert "x" in ["x"] && RoleAround().dir.realmRoles["x"] == MEMBER;
    assert RM.Wanted(RoleAround().dir.realmRoles, ["x"]) == {Str("r")};
    assert RE.ClientWanted(RoleAround().dir, map[]) == {};
  }

  function RoleEdit(): (r: Spec)
  {
    RoleWorld().obj.spec.(fields := map[], wish := NO_MEMBERS)
  }

  function RolePass(): (r: Env)
  {
    AllWell(RoleAround(), [], Post(true, NO_SIDE.(roles := NONE_HELD), true))
  }

  function RoleEdited(): (r: World)
  {
    RoleWorld().(obj := RoleWorld().obj.(spec := RoleEdit()))
  }

  lemma RoleStripped()
    ensures Strip(RealmRole, RoleWorld().obj.spec.fields) == map[] && Strip(RealmRole, map[]) == map[]
    ensures GoesUnnoticed(RoleWorld(), NotReferenced, NotReferenced, RoleEdit())
  {
    assert "composites" in OperatorFields(RealmRole);
  }

  lemma RoleConverged()
    ensures Converged(RoleWorld(), NotReferenced, RoleAround()) && HasId(RoleWorld().server["k"].rep)
  {
    var w := RoleWorld();
    RoleStripped();
    ManagedFacts(w.obj);
    MembersWanted();
    hide Stamp, Assigned, HasId, Differs, UpdatePayload, OperatorFields, Strip, RM.StringIds, RE.CompositeIds,
      RE.Unresolved;
    assert RM.At(ONE_HELD, RM.Composites) == [MEMBER];
  }

  lemma RoleFair()
    ensures Fair(RoleEdited(), RolePass())
    ensures !Still(JobOf(RoleEdited().obj, RoleAround()), RolePass().listing, SideAt(RoleEdited()))
  {
    MembersWanted();
    hide Stamp, Assigned, RM.StringIds, RE.CompositeIds, RE.Unresolved, RE.Monotone;
    assert RM.At(ONE_HELD, RM.Composites) == [MEMBER] && RM.At(NONE_HELD, RM.Composites) == [];
    assert RM.OnlyIn(ONE_HELD, NONE_HELD, {RM.Composites});
  }

  // A converged role with one member: dropping the declaration of its members
  // changes nothing in the payload, and yet the next pass is not silent.
  lemma MembersRemovalIsSent()
    ensures var w, e := RoleWorld(), RolePass();
            var (w', out) := Reconcile(RoleEdited(), e);
            && Converged(w, NotReferenced, e.around) && Fair(RoleEdited(), e)
            && GoesUnnoticed(w, NotReferenced, NotReferenced, RoleEdit())
            && out == Done && !(w'.server == w.server && w'.log == w.log)
  {
    RoleStripped();
    RoleConverged();
    RoleFair();
    hide Stamp, Assigned, HasId, Reconcile, Converged, Fair, Still, GoesUnnoticed, SideAt;
    ObjectRemovalForgottenIff(RoleWorld(), NotReferenced, RolePass(), RoleEdit());
  }
}
