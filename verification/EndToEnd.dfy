// What a user can count on, from the spec to the server, without mention of the
// payload in between.

module EndToEnd {
  import opened Wrappers
  import opened Json
  import opened LastApplied
  import opened PayloadLaws
  import opened Drivers
  import opened PostProcessing
  import opened Engine
  import opened EngineLaws
  import opened PassLaws
  import opened Runs
  import opened Conditions
  import opened PayloadMeaning
  import opened NestedOwnership

  // ------------------------------------------------------ Spec to server

  lemma SelfShows(rep: Fields, k: string)
    requires k in rep && rep[k] != Null
    ensures Shows(rep, k, rep[k])
  {
    MatchesItself(rep[k]);
    AgreementShows(rep, k, rep[k]);
  }

  lemma PayloadReachesServer(w: World, e: Env, k: string)
    requires Undisturbed(e) && Reconcile(w, e).1.Done? && k != "id"
    ensures Payload(w.obj, e.secret).Some? && w.obj.spec.key in Reconcile(w, e).0.server
    ensures var p := Payload(w.obj, e.secret).value;
            k in p && p[k] != Null ==> Shows(Reconcile(w, e).0.server[w.obj.spec.key].rep, k, p[k])
  {
    PassApplied(w, e);
    hide Reconcile, Payload, Posted, Shows, Differs;
    var p, key := Payload(w.obj, e.secret).value, w.obj.spec.key;
    var rep' := Reconcile(w, e).0.server[key].rep;
    if k in p && p[k] != Null {
      if k in rep' && rep'[k] == p[k] {
        SelfShows(rep', k);
      } else {
        NoDifferenceShows(rep', p);
      }
    }
  }

  // The names of spec fields that are bookkeeping for some kind.
  const BOOKKEEPING := {
    "keycloakRef", "adoptionPolicy", "deletionPolicy", "realm", "smtpServerSecretRef", "secretRef", "secretOutput",
    "composites", "configSecretRef", "mappers"
  }

  // The fields the operator itself writes into.
  const WRITTEN_INTO := {"attributes", "smtpServer", "config", "secret"}

  lemma NotBookkeeping(kind: Kind, k: string)
    requires k !in BOOKKEEPING || (k == "realm" && kind.Realm?)
    ensures k !in OperatorFields(kind)
  {
    assert |"realm"| == 5 && |"keycloakRef"| == 11 && |"adoptionPolicy"| == 14 && |"deletionPolicy"| == 14;
    assert |"smtpServerSecretRef"| == 19;
  }

  // Every field of the spec that is not bookkeeping and not null is shown by the
  // server after a successful pass.
  lemma SpecReachesServer(w: World, e: Env, k: string)
    requires Undisturbed(e) && Reconcile(w, e).1.Done?
    requires k in w.obj.spec.fields && w.obj.spec.fields[k] != Null
    requires k !in BOOKKEEPING || (k == "realm" && w.obj.kind.Realm?)
    requires k !in WRITTEN_INTO && k != "id"
    ensures w.obj.spec.key in Reconcile(w, e).0.server
    ensures Shows(Reconcile(w, e).0.server[w.obj.spec.key].rep, k, w.obj.spec.fields[k])
  {
    PayloadReachesServer(w, e, k);
    NotBookkeeping(w.obj.kind, k);
    hide Reconcile, Shows, OperatorFields, UpdatePayload;
    PayloadCarries(w.obj.kind, e.secret, Effective(Strip(w.obj.kind, w.obj.spec.fields), w.obj.annotation).value);
    hide Stamped, Injected;
    assert Same(Payload(w.obj, e.secret).value,
      Effective(Strip(w.obj.kind, w.obj.spec.fields), w.obj.annotation).value, k);
  }

  // The object under a field the operator writes into has the entry.
  ghost predicate ShowsEntry(w: World, field: string, s: string, v: Json)
  {
    && w.obj.spec.key in w.server
    && var rep := w.server[w.obj.spec.key].rep;
       field in rep && rep[field].Obj? && Shows(rep[field].fields, s, v)
  }

  // An entry the spec has under a field.
  predicate Asks(fields: Fields, field: string, s: string, v: Json)
  {
    field in fields && fields[field].Obj? && s in fields[field].fields && fields[field].fields[s] == v
  }

  lemma EntryReaches(w: World, e: Env, field: string, s: string, v: Json)
    requires Undisturbed(e) && Reconcile(w, e).1.Done? && field != "id"
    requires Payload(w.obj, e.secret).Some? && Asks(Payload(w.obj, e.secret).value, field, s, v)
    ensures ShowsEntry(Reconcile(w, e).0, field, s, v)
  {
    PayloadReachesServer(w, e, field);
    PassAnnotated(w, e);
    hide Reconcile, Payload;
    assert Payload(w.obj, e.secret).value[field].fields != map[];
  }

  lemma FieldKept(o: Object, field: string, s: string, v: Json)
    requires Effective(Strip(o.kind, o.spec.fields), o.annotation).Some?
    requires field in WRITTEN_INTO && Asks(o.spec.fields, field, s, v)
    ensures Asks(Effective(Strip(o.kind, o.spec.fields), o.annotation).value, field, s, v)
  {
    assert field !in BOOKKEEPING by {
      assert |"attributes"| == 10 && |"smtpServer"| == 10 && |"config"| == 6 && |"secret"| == 6;
      assert "composites"[0] == 'c' && "attributes"[0] == 'a' && "smtpServer"[0] == 's';
    }
    NotBookkeeping(o.kind, field);
    hide OperatorFields;
  }

  // The attributes of the spec reach the server beside the marker.
  lemma AttributesReachServer(w: World, e: Env, s: string, v: Json)
    requires Undisturbed(e) && Reconcile(w, e).1.Done?
    requires Asks(w.obj.spec.fields, "attributes", s, v) && s != "keycloak.ctn-solutions.io/managed"
    ensures ShowsEntry(Reconcile(w, e).0, "attributes", s, v)
  {
    PassApplied(w, e);
    hide Reconcile, Applied, Posted, UpdatePayload, OperatorFields, Shows, Effective, Strip;
    var effective := Effective(Strip(w.obj.kind, w.obj.spec.fields), w.obj.annotation).value;
    FieldKept(w.obj, "attributes", s, v);
    AttributeAsked(w.obj.kind, e.secret, effective, s, v);
    assert |"id"| == 2 && |"attributes"| == 10;
    EntryReaches(w, e, "attributes", s, v);
  }

  lemma AttributeAsked(kind: Kind, secret: Secret, payload: Fields, s: string, v: Json)
    requires UpdatePayload(kind, secret, payload).Some?
    requires Asks(payload, "attributes", s, v) && s != "keycloak.ctn-solutions.io/managed"
    ensures Asks(UpdatePayload(kind, secret, payload).value, "attributes", s, v)
  {
    hide UpdatePayload;
    PayloadCarries(kind, secret, payload);
    hide Injected;
  }

  // The field each kind reads a map of values into.
  predicate ReadsInto(kind: Kind, field: string)
  {
    (kind.Realm? && field == "smtpServer") || (kind.IdentityProvider? && field == "config")
  }

  // The values of the Secret reach the server, and so does what the spec itself
  // says beside them.
  lemma SecretReachesServer(w: World, e: Env, field: string, s: string, v: Json)
    requires Undisturbed(e) && Reconcile(w, e).1.Done? && ReadsInto(w.obj.kind, field)
    requires if e.secret.Values? && s in e.secret.keyed then v == Str(e.secret.keyed[s])
             else Asks(w.obj.spec.fields, field, s, v)
    ensures ShowsEntry(Reconcile(w, e).0, field, s, v)
  {
    PassApplied(w, e);
    hide Reconcile, Applied, Posted, UpdatePayload, OperatorFields, Shows, Effective, Strip;
    var effective := Effective(Strip(w.obj.kind, w.obj.spec.fields), w.obj.annotation).value;
    if Asks(w.obj.spec.fields, field, s, v) {
      FieldKept(w.obj, field, s, v);
    }
    SecretAsked(w.obj.kind, e.secret, effective, field, s, v);
    assert |"id"| == 2 && |"smtpServer"| == 10 && |"config"| == 6;
    EntryReaches(w, e, field, s, v);
  }

  lemma SecretAsked(kind: Kind, secret: Secret, payload: Fields, field: string, s: string, v: Json)
    requires UpdatePayload(kind, secret, payload).Some? && ReadsInto(kind, field)
    requires if secret.Values? && s in secret.keyed then v == Str(secret.keyed[s]) else Asks(payload, field, s, v)
    ensures Asks(UpdatePayload(kind, secret, payload).value, field, s, v)
  {
    hide UpdatePayload;
    PayloadCarries(kind, secret, payload);
    hide Stamped;
  }

  // The client secret reaches the server.
  lemma ClientSecretReachesServer(w: World, e: Env)
    requires Undisturbed(e) && Reconcile(w, e).1.Done? && w.obj.kind.Client? && e.secret.Values?
    ensures w.obj.spec.key in Reconcile(w, e).0.server
    ensures Shows(Reconcile(w, e).0.server[w.obj.spec.key].rep, "secret", Str(e.secret.single))
  {
    assert |"id"| == 2 && |"secret"| == 6;
    PayloadReachesServer(w, e, "secret");
    hide Reconcile, UpdatePayload, Shows;
    PayloadCarries(w.obj.kind, e.secret, Effective(Strip(w.obj.kind, w.obj.spec.fields), w.obj.annotation).value);
  }

  // A successful pass has recorded every field of the spec that is not
  // bookkeeping, with its value, and nothing the spec does not have.
  lemma SuccessRecordsSpec(w: World, e: Env, k: string)
    requires Undisturbed(e) && Reconcile(w, e).1.Done?
    ensures Reconcile(w, e).0.obj.annotation.Snapshot?
    ensures var last := Reconcile(w, e).0.obj.annotation.last;
            && (k in last ==> k in w.obj.spec.fields && last[k] == w.obj.spec.fields[k])
            && (k in w.obj.spec.fields && (k !in BOOKKEEPING || (k == "realm" && w.obj.kind.Realm?)) ==> k in last)
            && (k in {"keycloakRef", "adoptionPolicy", "deletionPolicy"} ==> k !in last)
  {
    PassApplied(w, e);
    PassAnnotated(w, e);
    if k !in BOOKKEEPING || (k == "realm" && w.obj.kind.Realm?) {
      NotBookkeeping(w.obj.kind, k);
    }
    hide Reconcile;
  }

  // Clients and groups need the id the server gave them.
  lemma SuccessNeedsId(w: World, e: Env)
    requires Undisturbed(e) && Reconcile(w, e).1.Done? && w.obj.spec.key in w.server
    requires w.obj.kind.Client? || w.obj.kind.Group?
    ensures var rep := w.server[w.obj.spec.key].rep;
            "id" in rep && rep["id"].Str? && rep["id"].s != ""
  {
    PassApplied(w, e);
    hide Reconcile;
  }

  // ---------------------------------------------------------------- Progress

  // A failure-free pass over an absent resource creates it and succeeds.
  lemma CleanCreate(w: World, e: Env)
    requires Clean(e) && Reaches(w, e) && w.obj.spec.key !in w.server && Payload(w.obj, e.secret).Some?
    ensures var (w', out) := Reconcile(w, e);
            && out == Done && w'.obj.ready == Holds && w'.obj.synced == Holds
            && CreatedBy(w, e) && |w'.log| > |w.log| && w'.log[|w.log|] == Event(Created, w.obj.spec.key, true)
  {
    var effective := Effective(Strip(w.obj.kind, w.obj.spec.fields), w.obj.annotation).value;
    PipelinesAgree(w.obj.kind, e.secret, effective);
    var p := CreatePayload(w.obj.kind, e.secret, effective).value;
    var made := Make(w, p);
    CreatedId(w, p);
    CleanFinish(made, e, made.server[w.obj.spec.key].rep);
    FinishLog(made, e, made.server[w.obj.spec.key].rep);
    hide CreatePayload, UpdatePayload, Strip, Effective, FinishPass, Make, HasId, Assigned;
    assert Reconcile(w, e) == FinishPass(made, e, made.server[w.obj.spec.key].rep);
  }

  // A new object over a free key, or over a resource the operator marked,
  // succeeds after two failure-free passes: the finalizer, then the resource.
  lemma TwoPassesSettle(w: World, e1: Env, e2: Env)
    requires Fresh(w) && Clean(e1) && Clean(e2) && !w.obj.spec.adoption.FailIfExists?
    requires !(w.obj.kind.Realm? && w.obj.spec.key == "master" && !w.obj.allowProtected)
    requires !(NeedsSecret(w.obj.kind) && e2.secret.NotFound?)
    requires w.obj.spec.key in w.server ==>
               var rep := w.server[w.obj.spec.key].rep;
               && (IsManaged(w.obj.kind, rep) || w.obj.spec.adoption.Adopt?)
               && (NeedsId(w.obj.kind) ==> HasId(rep))
    ensures var (w1, out1) := Reconcile(w, e1);
            var (w2, out2) := Reconcile(w1, e2);
            && out1 == FinalizerAdded && w1 == w.(obj := w.obj.(finalizer := true))
            && out2 == Done && w2.obj.ready == Holds && w2.obj.synced == Holds && w2.obj.finalizer
            && w.obj.spec.key in w2.server
  {
    var w1 := w.(obj := w.obj.(finalizer := true));
    assert Reconcile(w, e1) == (w1, FinalizerAdded);
    PayloadCarries(w.obj.kind, e2.secret, Strip(w.obj.kind, w.obj.spec.fields));
    hide UpdatePayload, Strip, IsManaged, HasId, Carries, Reconcile;
    if w.obj.spec.key in w.server {
      CleanVerdict(w1, e2);
    } else {
      CleanCreate(w1, e2);
    }
    PassApplied(w1, e2);
  }

  // A failure-free pass over an object being deleted finishes it: the object is
  // released, and its resource removed under Delete and kept under Orphan.
  lemma CleanDeletion(w: World, e: Env)
    requires Clean(e) && w.obj.deleting && !w.obj.gone
    ensures var (w', out) := Reconcile(w, e);
            && out == Released && w'.obj.gone && !w'.obj.finalizer
            && w'.server == if w.obj.spec.deletion.Orphan? then w.server else w.server - {w.obj.spec.key}
  {
  }

  // Under Orphan that does not even need the server.
  lemma OrphanNeedsNoServer(w: World, e: Env)
    requires w.obj.deleting && !w.obj.gone && w.obj.spec.deletion.Orphan? && e.store.Ok?
    ensures var (w', out) := Reconcile(w, e);
            out == Released && w'.obj.gone && w'.server == w.server && w'.log == w.log
  {
  }

  // Taking over a foreign resource always writes, so that it carries the marker
  // from then on.
  lemma AdoptionMarks(w: World, e: Env)
    requires Clean(e) && Reaches(w, e) && w.obj.spec.key in w.server && Payload(w.obj, e.secret).Some?
    requires w.obj.spec.adoption.Adopt? && w.obj.annotation.Unset? && CarriesMarker(w.obj.kind)
    requires !IsManaged(w.obj.kind, w.server[w.obj.spec.key].rep)
    requires NeedsId(w.obj.kind) ==> HasId(w.server[w.obj.spec.key].rep)
    ensures var (w', out) := Reconcile(w, e);
            && out == Done && w.obj.spec.key in w'.server && IsManaged(w.obj.kind, w'.server[w.obj.spec.key].rep)
            && |w'.log| > |w.log| && w'.log[|w.log|] == Event(Updated, w.obj.spec.key, true)
  {
    var rep, p := w.server[w.obj.spec.key].rep, Payload(w.obj, e.secret).value;
    var made := Put(w, rep, p);
    CleanVerdict(w, e);
    PutShape(w, p);
    FinishShape(made, e, rep);
    FinishLog(made, e, rep);
    WrittenIsManaged(w.obj.kind, e.secret, Effective(Strip(w.obj.kind, w.obj.spec.fields), w.obj.annotation).value,
      rep);
    MarkStays(w.obj.kind, rep, p);
    hide FinishPass, Differs, UpdatePayload, Overlay, Strip, Effective, IsManaged, HasId, Put;
    assert Reconcile(w, e) == FinishPass(made, e, rep);
  }

  lemma MarkStays(kind: Kind, rep: Fields, p: Fields)
    requires IsManaged(kind, Overlay(rep, p))
    ensures IsManaged(kind, rep + Overlay(rep, p))
  {
    assert Nested(rep + Overlay(rep, p), "attributes") == Nested(Overlay(rep, p), "attributes");
  }

  // ------------------------------------------------------------- Protection

  // The realm "master" is refused exactly unless the object is annotated, and
  // no other resource ever is.
  lemma ProtectedIff(w: World, e: Env)
    requires !w.obj.gone && !w.obj.deleting && w.obj.finalizer && e.connection
    ensures Reconcile(w, e).1 == Failed(ProtectedRealm) <==>
            w.obj.kind.Realm? && w.obj.spec.key == "master" && !w.obj.allowProtected
  {
    OtherReasons(w, e);
    hide HandleCreate, HandleExisting, Strip, Effective;
  }

  lemma OtherReasons(w: World, e: Env)
    ensures forall effective :: HandleCreate(w, e, effective).1 != Failed(ProtectedRealm)
    ensures forall effective, rep :: HandleExisting(w, e, effective, rep).1 != Failed(ProtectedRealm)
  {
    hide CreatePayload, UpdatePayload, Differs, Ours, Strip, PostApply, Make, Put;
  }

  lemma MasterPass(w: World, e: Env)
    requires w.obj.kind.Realm? && w.obj.spec.key == "master" && !w.obj.allowProtected && !w.obj.deleting
    ensures var w' := Reconcile(w, e).0;
            && w'.log == w.log && w'.server == w.server && w'.obj.annotation == w.obj.annotation
            && w'.obj.kind == w.obj.kind && w'.obj.spec == w.obj.spec && !w'.obj.allowProtected
  {
    hide HandleCreate, HandleExisting, Strip, Effective;
  }

  // No run without a deletion request ever writes to it, or records anything.
  lemma {:induction false} MasterUntouched(w: World, steps: seq<Step>)
    requires w.obj.kind.Realm? && w.obj.spec.key == "master" && !w.obj.allowProtected && !w.obj.deleting
    requires forall i :: 0 <= i < |steps| ==> !steps[i].Remove?
    requires forall i :: 0 <= i < |steps| && steps[i].EditSpec? ==> steps[i].spec.key == "master"
    ensures var w' := Run(w, steps);
            && w'.log == w.log && w'.obj.annotation == w.obj.annotation
            && (w'.server == w.server || exists s :: s in steps && s.Outside? && s.server == w'.server)
    decreases |steps|
  {
    if steps != [] {
      var w1 := Next(w, steps[0]);
      if steps[0].Pass? {
        MasterPass(w, steps[0].e);
        PassLife(w, steps[0].e);
      }
      hide Reconcile;
      MasterUntouched(w1, steps[1..]);
      var w' := Run(w1, steps[1..]);
      if w'.server != w1.server {
        var s :| s in steps[1..] && s.Outside? && s.server == w'.server;
        assert s in steps;
      } else if w1.server != w.server {
        assert steps[0] in steps;
      }
    }
  }

  // ---------------------------------------------------------------- Reasons

  // The resource may be managed: it is absent, or the policy and its owner
  // allow it.
  predicate Allowed(w: World)
  {
    w.obj.spec.key in w.server ==>
      && !w.obj.spec.adoption.FailIfExists?
      && (Ours(w.obj, w.server[w.obj.spec.key].rep) || w.obj.spec.adoption.Adopt?)
  }

  // A request is due: the resource is absent, foreign or different.
  predicate Due(w: World, p: Fields)
  {
    w.obj.spec.key in w.server ==>
      Differs(w.server[w.obj.spec.key].rep, p) || !Ours(w.obj, w.server[w.obj.spec.key].rep)
  }

  // The reason a pass that got to the resource gives: allowed to manage it, with
  // a payload, a request due, written and processed.
  predicate Why(e: Env, allowed: bool, given: bool, due: bool, written: bool, processed: bool, out: Outcome)
  {
    && (out == Failed(SecretMissing) <==> allowed && !given)
    && (out == Failed(AlreadyExists) <==> !allowed || (given && due && e.write.Refused?))
    && (out == Failed(Invalid) <==> written && !processed)
    && (out.Failed? ==> out.reason in {SecretMissing, AlreadyExists, Invalid}) && !out.NoConnection?
  }

  lemma FinishWhy(w: World, e: Env, rep: Fields)
    requires Undisturbed(e) && w.obj.spec.key in w.server
    ensures var out := FinishPass(w, e, rep).1;
            && (out.Failed? ==> out == Failed(Invalid)) && !out.NoConnection?
            && (out.Failed? <==> HasCollections(w.obj.kind) && !(e.post.ok && (NeedsId(w.obj.kind) ==> HasId(rep))))
  {
    hide Strip, SameLife, SameOrRecorded, Extends;
  }

  lemma CreateWhy(w: World, e: Env, effective: Fields)
    requires Undisturbed(e) && w.obj.spec.key !in w.server
    ensures var p := UpdatePayload(w.obj.kind, e.secret, effective);
            Why(e, true, p.Some?, true, p.Some? && e.write.Ok? && e.refetch, HasCollections(w.obj.kind) ==> e.post.ok,
                HandleCreate(w, e, effective).1)
  {
    hide CreatePayload, UpdatePayload, FinishPass, HasId, Make, SameLife, SameOrRecorded, Extends, Reported;
    PipelinesAgree(w.obj.kind, e.secret, effective);
    var p := CreatePayload(w.obj.kind, e.secret, effective);
    if p.Some? {
      var made := Make(w, p.value);
      CreatedId(w, p.value);
      FinishWhy(made, e, made.server[w.obj.spec.key].rep);
    }
  }

  lemma ExistingWhy(w: World, e: Env, effective: Fields)
    requires Undisturbed(e) && w.obj.spec.key in w.server
    ensures var rep, p := w.server[w.obj.spec.key].rep, UpdatePayload(w.obj.kind, e.secret, effective);
            var allowed := !w.obj.spec.adoption.FailIfExists? && (Ours(w.obj, rep) || w.obj.spec.adoption.Adopt?);
            var due := p.Some? && (Differs(rep, p.value) || !Ours(w.obj, rep));
            Why(e, allowed, p.Some?, due, allowed && p.Some? && (due ==> e.write.Ok?),
                HasCollections(w.obj.kind) ==> e.post.ok && (NeedsId(w.obj.kind) ==> HasId(rep)),
                HandleExisting(w, e, effective, rep).1)
  {
    hide UpdatePayload, FinishPass, HasId, Ours, Differs, Overlay, SameLife, SameOrRecorded, Extends, Reported;
    var rep, p := w.server[w.obj.spec.key].rep, UpdatePayload(w.obj.kind, e.secret, effective);
    FinishWhy(w, e, rep);
    if p.Some? {
      var made := Put(w, rep, p.value);
      assert w.obj.spec.key in made.server && made.obj == w.obj;
      hide Put;
      FinishWhy(made, e, rep);
    }
  }

  // A pass over a resource it may look at.
  lemma ReachedPass(w: World, e: Env)
    requires Reaches(w, e)
    ensures var effective := Effective(Strip(w.obj.kind, w.obj.spec.fields), w.obj.annotation).value;
            Reconcile(w, e) ==
            if w.obj.spec.key in w.server then HandleExisting(w, e, effective, w.server[w.obj.spec.key].rep)
            else HandleCreate(w, e, effective)
  {
    hide HandleCreate, HandleExisting, Strip, Effective;
  }

  lemma ReachedWhy(w: World, e: Env)
    requires Undisturbed(e) && Reaches(w, e)
    ensures var p := Payload(w.obj, e.secret);
            Why(e, Allowed(w), p.Some?, p.Some? && Due(w, p.value), Written(w, e), Processed(w, e), Reconcile(w, e).1)
    ensures Payload(w.obj, e.secret).Some? <==> !(NeedsSecret(w.obj.kind) && e.secret.NotFound?)
    ensures Reported(w.obj, e, Reconcile(w, e))
  {
    var effective := Effective(Strip(w.obj.kind, w.obj.spec.fields), w.obj.annotation).value;
    PayloadCarries(w.obj.kind, e.secret, effective);
    ReachedPass(w, e);
    hide HandleCreate, HandleExisting, Strip, Carries, UpdatePayload, Ours, Differs, HasId, Reconcile, Effective,
      Reported;
    hide SameLife, SameOrRecorded, Extends;
    if w.obj.spec.key in w.server {
      ExistingWhy(w, e, effective);
    } else {
      CreateWhy(w, e, effective);
    }
  }

  // The branches that do not look at it.
  lemma UnreachedWhy(w: World, e: Env)
    requires !Reaches(w, e)
    ensures var out := Reconcile(w, e).1;
            && (out == NoConnection <==>
                  !w.obj.gone && !e.connection && !(w.obj.deleting && w.obj.spec.deletion.Orphan?))
            && (out.Failed? ==> out.reason in {ProtectedRealm, Invalid})
            && (out == Failed(Invalid) <==>
                  && !w.obj.gone && !w.obj.deleting && w.obj.finalizer && e.connection && !Protected(w.obj)
                  && w.obj.annotation.Undecodable?)
    ensures Reported(w.obj, e, Reconcile(w, e))
  {
    hide HandleCreate, HandleExisting, Strip;
  }

  // Why a pass fails, and that both conditions say so: no connection, a
  // protected realm, an annotation that does not decode, a missing Secret, a
  // resource that may not be managed or a refused request, and failed
  // post-processing.
  lemma ReasonIff(w: World, e: Env)
    requires Undisturbed(e)
    ensures var out, p := Reconcile(w, e).1, Payload(w.obj, e.secret);
            var live := !w.obj.gone && !w.obj.deleting && w.obj.finalizer && e.connection;
            && (out == NoConnection <==>
                  !w.obj.gone && !e.connection && !(w.obj.deleting && w.obj.spec.deletion.Orphan?))
            && (out == Failed(SecretMissing) <==>
                  Reaches(w, e) && Allowed(w) && NeedsSecret(w.obj.kind) && e.secret.NotFound?)
            && (out == Failed(AlreadyExists) <==>
                  Reaches(w, e) && (!Allowed(w) || (p.Some? && Due(w, p.value) && e.write.Refused?)))
            && (out == Failed(Invalid) <==>
                  || (live && !Protected(w.obj) && w.obj.annotation.Undecodable?)
                  || (Reaches(w, e) && Written(w, e) && !Processed(w, e)))
    ensures Reported(w.obj, e, Reconcile(w, e))
  {
    hide Reconcile, Payload, Written, Processed, Allowed, Due, Strip;
    if Reaches(w, e) {
      ReachedWhy(w, e);
    } else {
      UnreachedWhy(w, e);
    }
  }
}
