// Claims that look natural and do not hold of the code, each with the exact
// behaviour for all inputs.

module Findings {
  import opened Wrappers
  import opened Json
  import opened LastApplied
  import opened PayloadLaws
  import opened Drivers
  import opened PostProcessing
  import opened Engine
  import opened EngineLaws
  import opened PassLaws
  import opened Runs
  import opened Conditions
  import RoleMappings

  // An update request carries the whole representation read earlier, so an
  // outside edit of an unowned field between the read and the write survives
  // exactly if the field was absent when read or the edit left it alone. An
  // edit that removed the field is undone.
  lemma EditSurvivesIff(w: World, e: Env, k: string)
    requires Reaches(w, e) && e.write.Ok? && e.beforePost.None?
    requires Payload(w.obj, e.secret).Some? && k !in Payload(w.obj, e.secret).value
    requires var key, p := w.obj.spec.key, Payload(w.obj, e.secret).value;
             && key in w.server && Ours(w.obj, w.server[key].rep) && !w.obj.spec.adoption.FailIfExists?
             && Differs(w.server[key].rep, p)
             && e.beforeWrite.Some? && key in e.beforeWrite.value
    ensures var key := w.obj.spec.key;
            var read, edited, after := w.server[key].rep, e.beforeWrite.value[key].rep, Reconcile(w, e).0.server;
            && key in after
            && (SameField(after[key].rep, edited, k) <==> (k in read ==> SameField(read, edited, k)))
  {
    var read, p := w.server[w.obj.spec.key].rep, Payload(w.obj, e.secret).value;
    var made := Put(Edited(w, e.beforeWrite), read, p);
    FinishShape(made, e, read);
    hide FinishPass, Differs, UpdatePayload, Strip, Effective, Ours;
    assert Reconcile(w, e) == FinishPass(made, e, read);
  }

  // Deletion asks neither for the marker nor for protection: in a pass over an
  // object being deleted, whatever resource has the key when the request would
  // be sent survives exactly if the object is gone already, the policy is
  // Orphan, there is no connection, or the request did not take effect.
  lemma DeletionSparesIff(w: World, e: Env)
    requires w.obj.deleting && w.obj.spec.key in w.server && w.obj.spec.key in Edited(w, e.beforeWrite).server
    ensures w.obj.spec.key in Reconcile(w, e).0.server <==>
            w.obj.gone || w.obj.spec.deletion.Orphan? || !e.connection || !e.write.Took()
  {
    hide HandleCreate, HandleExisting, Strip, Effective;
  }

  lemma RefetchCreated(w: World, e: Env)
    requires Undisturbed(e) && StopsAtRefetch(w, e)
    ensures w.obj.spec.key in Reconcile(w, e).0.server
  {
    PipelinesAgree(w.obj.kind, e.secret, Effective(Strip(w.obj.kind, w.obj.spec.fields), w.obj.annotation).value);
    hide CreatePayload, UpdatePayload, Effective, Strip;
  }

  // The two ways a pass that wrote stops with stale conditions: a re-fetch that
  // fails after a create changes Ready only, and a failure to record the spec
  // changes neither, whatever they said before.
  lemma StaleWhenStopped(w: World, e: Env)
    requires Undisturbed(e)
    ensures StopsAtRefetch(w, e) ==>
              var w' := Reconcile(w, e).0;
              && !Reconcile(w, e).1.Done? && w.obj.spec.key in w'.server && w'.obj.synced == w.obj.synced
              && w'.obj.ready == (if e.status1 then Broken(Retrying) else w.obj.ready)
    ensures StopsAtRecording(w, e) ==> !Reconcile(w, e).1.Done? && SameConditions(w.obj, Reconcile(w, e).0.obj)
  {
    PassTold(w, e);
    if StopsAtRefetch(w, e) {
      RefetchCreated(w, e);
    }
    hide Reconcile, Reaches, Payload, Written, Processed, Recorded;
  }

  // ------------------------------------------------------- Removed objects

  // Roles and groups append the marker to a list; if the removed attributes
  // held that list already, the removal makes it shorter and is noticed.
  predicate Unnoticed(kind: Kind, full: Fields, kept: Fields)
  {
    kind.RealmRole? || kind.Group? ==>
      "attributes" in kept || List(Nested(full, "attributes"), MANAGED_KEY) == []
  }

  // No further fields, some of the objects with fewer entries.
  ghost predicate Trimmed(small: Fields, big: Fields)
  {
    && small.Keys <= big.Keys
    && forall k :: k in small ==>
         small[k] == big[k] || (small[k].Obj? && big[k].Obj? && Submap(small[k].fields, big[k].fields))
  }

  lemma TrimmedAgrees(small: Fields, big: Fields, rep: Fields)
    requires Trimmed(small, big) && !Differs(rep, big)
    ensures !Differs(rep, small)
  {
    DiffersByField(rep, big);
    forall k | k in small ensures FieldAgrees(rep, k, small[k]) {
      assert FieldAgrees(rep, k, big[k]);
      if small[k] != big[k] && !Missing(rep, k) && rep[k].Obj? {
        SubmapAgrees(small[k].fields, big[k].fields, rep[k].fields);
      }
    }
    DiffersByField(rep, small);
  }

  lemma StampTrims(kind: Kind, small: Fields, big: Fields)
    requires Trimmed(small, big)
    requires kind.RealmRole? || kind.Group? ==>
               List(Nested(small, "attributes"), MANAGED_KEY) == List(Nested(big, "attributes"), MANAGED_KEY)
    ensures Trimmed(Stamp(kind, small), Stamp(kind, big))
  {
    assert Submap(Nested(small, "attributes"), Nested(big, "attributes"));
  }

  lemma PrepareTrims(kind: Kind, secret: Secret, small: Fields, big: Fields)
    requires Trimmed(small, big) && Prepare(kind, secret, big).Some?
    ensures Prepare(kind, secret, small).Some?
            && Trimmed(Prepare(kind, secret, small).value, Prepare(kind, secret, big).value)
  {
    assert forall key :: Submap(Nested(small, key), Nested(big, key));
  }

  // A shorter marker list does not match the longer one.
  lemma ShorterMarkerDiffers(kind: Kind, small: Fields, big: Fields, rep: Fields)
    requires kind.RealmRole? || kind.Group?
    requires "attributes" in small && small["attributes"] == Obj(map[])
    requires List(Nested(big, "attributes"), MANAGED_KEY) != [] && !Differs(rep, StampSlice(big))
    ensures Differs(rep, StampSlice(small))
  {
    var a, b := StampSlice(small), StampSlice(big);
    DiffersByField(rep, b);
    DiffersByField(rep, a);
    assert FieldAgrees(rep, "attributes", b["attributes"]);
    var attrs := rep["attributes"].fields;
    DiffersByField(attrs, b["attributes"].fields);
    assert FieldAgrees(attrs, MANAGED_KEY, b["attributes"].fields[MANAGED_KEY]);
    DiffersByField(attrs, a["attributes"].fields);
    assert !FieldAgrees(attrs, MANAGED_KEY, a["attributes"].fields[MANAGED_KEY]);
    assert !FieldAgrees(rep, "attributes", a["attributes"]);
  }

  // The field a Secret is injected into, for the kinds that read one.
  function InjectionKey(kind: Kind): (r: Option<string>)
  {
    match kind
    case Client => Some("secret")
    case Realm => Some("smtpServer")
    case IdentityProvider => Some("config")
    case _ => None
  }

  // What the spec itself says under that field agrees with the server.
  predicate Bare(kind: Kind, effective: Fields, rep: Fields)
  {
    var key := InjectionKey(kind);
    key.Some? && key.value in effective ==> FieldAgrees(rep, key.value, effective[key.value])
  }

  lemma ObjectResetsAgreeIff(kind: Kind, secret: Secret, full: Fields, kept: Fields, rep: Fields)
    requires Submap(kept, full) && UpdatePayload(kind, secret, full).Some?
    requires forall k :: k in full && k !in kept ==> full[k].Obj?
    requires !Differs(rep, UpdatePayload(kind, secret, full).value)
    ensures var p := UpdatePayload(kind, secret, kept + Resets(kept, full));
            p.Some? && (!Differs(rep, p.value) <==> Unnoticed(kind, full, kept))
  {
    var effective := kept + Resets(kept, full);
    assert Trimmed(effective, full);
    if Unnoticed(kind, full, kept) {
      hide Stamp, Prepare, Differs, Trimmed;
      StampTrims(kind, effective, full);
      PrepareTrims(kind, secret, Stamp(kind, effective), Stamp(kind, full));
      TrimmedAgrees(UpdatePayload(kind, secret, effective).value, UpdatePayload(kind, secret, full).value, rep);
    } else {
      hide Differs, Trimmed;
      ShorterMarkerDiffers(kind, effective, full, rep);
    }
  }

  // Apart from the injected field, a payload without the values of the Secret
  // asks for less.
  lemma BareTrims(kind: Kind, secret: Secret, small: Fields, big: Fields, k: string)
    requires Trimmed(small, big) && Prepare(kind, secret, big).Some?
    requires k in small && InjectionKey(kind) != Some(k)
    ensures var p := Prepare(kind, secret, big).value;
            && k in p
            && (small[k] == p[k] || (small[k].Obj? && p[k].Obj? && Submap(small[k].fields, p[k].fields)))
  {
  }

  lemma TrimmedFieldAgrees(small: Json, big: Json, rep: Fields, k: string)
    requires small == big || (small.Obj? && big.Obj? && Submap(small.fields, big.fields))
    requires FieldAgrees(rep, k, big)
    ensures FieldAgrees(rep, k, small)
  {
    if small != big && !Missing(rep, k) && rep[k].Obj? {
      SubmapAgrees(small.fields, big.fields, rep[k].fields);
    }
  }

  // Removing the reference to the Secret as well: the payload goes unnoticed if
  // and only if, besides, what the spec itself says under the injected field
  // agrees with the server.
  lemma UnreferencedAgreesIff(kind: Kind, secret: Secret, full: Fields, kept: Fields, rep: Fields)
    requires Submap(kept, full) && UpdatePayload(kind, secret, full).Some?
    requires forall k :: k in full && k !in kept ==> full[k].Obj?
    requires !Differs(rep, UpdatePayload(kind, secret, full).value)
    ensures var effective := kept + Resets(kept, full);
            var p := UpdatePayload(kind, NotReferenced, effective);
            p.Some? && (!Differs(rep, p.value) <==> Unnoticed(kind, full, kept) && Bare(kind, effective, rep))
  {
    var effective := kept + Resets(kept, full);
    assert Trimmed(effective, full);
    if Unnoticed(kind, full, kept) {
      hide Trimmed, Stamp, Differs, Bare, Prepare;
      StampTrims(kind, effective, full);
      UnreferencedTrimmed(kind, secret, effective, full, rep);
      NothingPrepared(kind, Stamp(kind, effective));
    } else {
      hide Differs, Trimmed;
      ShorterMarkerDiffers(kind, effective, full, rep);
    }
  }

  lemma NothingPrepared(kind: Kind, payload: Fields)
    ensures Prepare(kind, NotReferenced, payload) == Some(payload)
  {
  }

  lemma UnreferencedTrimmed(kind: Kind, secret: Secret, effective: Fields, full: Fields, rep: Fields)
    requires Trimmed(Stamp(kind, effective), Stamp(kind, full)) && UpdatePayload(kind, secret, full).Some?
    requires !Differs(rep, UpdatePayload(kind, secret, full).value)
    ensures !Differs(rep, Stamp(kind, effective)) <==> Bare(kind, effective, rep)
  {
    hide Differs, FieldAgrees, Trimmed, Stamp, Prepare;
    var p, p' := UpdatePayload(kind, secret, full).value, Stamp(kind, effective);
    DiffersByField(rep, p);
    DiffersByField(rep, p');
    StampSparesInjection(kind, effective);
    forall k | k in p' && InjectionKey(kind) != Some(k)
      ensures FieldAgrees(rep, k, p'[k])
    {
      BareTrims(kind, secret, p', Stamp(kind, full), k);
      TrimmedFieldAgrees(p'[k], p[k], rep, k);
    }
  }

  lemma StampSparesInjection(kind: Kind, effective: Fields)
    ensures var key := InjectionKey(kind);
            key.Some? ==>
              && (key.value in Stamp(kind, effective) <==> key.value in effective)
              && (key.value in effective ==> Stamp(kind, effective)[key.value] == effective[key.value])
  {
  }

  // What the edit leaves for the representation: the reference to the Secret is
  // kept, or removed with it.
  ghost predicate GoesUnnoticed(w: World, secret: Secret, secret': Secret, spec: Spec)
    requires w.obj.spec.key in w.server
  {
    var kind := w.obj.kind;
    var full, kept := Strip(kind, w.obj.spec.fields), Strip(kind, spec.fields);
    && Unnoticed(kind, full, kept)
    && (secret' != secret ==> Bare(kind, kept + Resets(kept, full), w.server[w.obj.spec.key].rep))
  }

  lemma ObjectRemovalAgreesIff(w: World, secret: Secret, secret': Secret, around: Surroundings, spec: Spec)
    requires Converged(w, secret, around) && (secret' == secret || secret' == NotReferenced)
    requires spec == w.obj.spec.(fields := spec.fields, wish := spec.wish) && Submap(spec.fields, w.obj.spec.fields)
    requires forall k :: k in w.obj.spec.fields && k !in spec.fields ==> w.obj.spec.fields[k].Obj?
    ensures var o := w.obj.(spec := spec);
            && Payload(o, secret').Some?
            && (!Differs(w.server[w.obj.spec.key].rep, Payload(o, secret').value) <==>
                 GoesUnnoticed(w, secret, secret', spec))
  {
    var kind, rep := w.obj.kind, w.server[w.obj.spec.key].rep;
    var full, kept := Strip(kind, w.obj.spec.fields), Strip(kind, spec.fields);
    assert full + Resets(full, full) == full;
    hide UpdatePayload, Differs, OperatorFields, Unnoticed, Settled, Bare;
    if secret' == secret {
      ObjectResetsAgreeIff(kind, secret, full, kept, rep);
    } else {
      UnreferencedAgreesIff(kind, secret, full, kept, rep);
    }
  }

  // The rest of a failure-free pass without a main write sends nothing exactly
  // if the enforcers find nothing to write.
  lemma FinishSilentIff(w: World, e: Env, rep: Fields)
    requires Clean(e) && Fair(w, e) && w.obj.spec.key in w.server
    requires NeedsId(w.obj.kind) ==> HasId(rep)
    ensures FinishPass(w, e, rep).0.server == w.server && FinishPass(w, e, rep).0.log == w.log <==>
            Still(JobOf(w.obj, e.around), e.listing, SideAt(w))
  {
    hide Strip, Still, Left, Reads;
    if !HasCollections(w.obj.kind) {
      NothingToEnforce(JobOf(w.obj, e.around), e.listing, SideAt(w));
    }
  }

  // Removing nothing but object-valued fields from a converged spec, those that
  // describe collections or refer to a Secret included: the next failure-free
  // pass succeeds and records the edit. It sends nothing, so that the server
  // keeps the objects with all they hold, if and only if the payload goes
  // unnoticed and the enforcers find the collections as the edit wants them.
  lemma ObjectRemovalForgottenIff(w: World, secret: Secret, e: Env, spec: Spec)
    requires Clean(e) && Converged(w, secret, e.around) && (e.secret == secret || e.secret == NotReferenced)
    requires !w.obj.gone && !w.obj.deleting && w.obj.finalizer && !Protected(w.obj)
    requires NeedsId(w.obj.kind) ==> HasId(w.server[w.obj.spec.key].rep)
    requires !w.obj.spec.adoption.FailIfExists?
    requires spec == w.obj.spec.(fields := spec.fields, wish := spec.wish) && Submap(spec.fields, w.obj.spec.fields)
    requires forall k :: k in w.obj.spec.fields && k !in spec.fields ==> w.obj.spec.fields[k].Obj?
    requires Fair(w.(obj := w.obj.(spec := spec)), e)
    ensures var edited := w.(obj := w.obj.(spec := spec));
            var (w', out) := Reconcile(edited, e);
            && out == Done && Recorded(w'.obj)
            && (w'.server == w.server && w'.log == w.log <==>
                  && GoesUnnoticed(w, secret, e.secret, spec)
                  && Still(JobOf(edited.obj, e.around), e.listing, SideAt(edited)))
  {
    var edited := w.(obj := w.obj.(spec := spec));
    var rep := w.server[w.obj.spec.key].rep;
    ObjectRemovalAgreesIff(w, secret, e.secret, e.around, spec);
    hide GoesUnnoticed, Goal, Still, Left, Reads, Differs, UpdatePayload, Strip, Reconcile, IsManaged, HasId;
    CleanVerdict(edited, e);
    PassApplied(edited, e);
    if Differs(rep, Payload(edited.obj, e.secret).value) {
      DifferenceIsWritten(edited, e);
    } else {
      AgreedPass(edited, e);
      FinishSilentIff(edited, e, rep);
    }
  }

  // In particular a role that no longer declares its members loses them: such
  // an edit is silent exactly if the role had none.
  lemma CompositesRemovalIff(w: World, e: Env, spec: Spec)
    requires w.obj.kind.RealmRole? && spec.wish.role.composites.None?
    ensures Still(JobOf(w.obj.(spec := spec), e.around), e.listing, SideAt(w)) <==>
            RoleMappings.StringIds(RoleMappings.At(SideAt(w).roles, RoleMappings.Composites)) == {}
  {
  }
}
