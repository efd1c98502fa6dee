// Convergence, resumption, foreign resources and release, pass by pass.

module PassLaws {
  import opened Wrappers
  import opened Json
  import opened LastApplied
  import opened PayloadLaws
  import opened Drivers
  import opened PostProcessing
  import opened Engine
  import opened EngineLaws

  // Every call succeeds and nobody else edits the server.
  predicate Clean(e: Env)
  {
    && e.connection && e.store.Ok? && e.get && e.write.Ok? && e.refetch && e.post.ok && e.annotate.Ok?
    && e.status1 && e.status2 && Undisturbed(e)
  }

  // -------------------------------------------------------------- Fixpoint

  ghost predicate Submap(small: Fields, big: Fields)
  {
    forall k :: k in small ==> k in big && small[k] == big[k]
  }

  lemma SubmapAgrees(small: Fields, big: Fields, rep: Fields)
    requires Submap(small, big) && !Differs(rep, big)
    ensures !Differs(rep, small)
  {
    DiffersByField(rep, big);
    DiffersByField(rep, small);
  }

  // Fewer top-level entries, the same nested objects.
  ghost predicate Within(small: Fields, big: Fields)
  {
    Submap(small, big) && forall key :: Nested(small, key) == Nested(big, key)
  }

  lemma StampMonotone(kind: Kind, small: Fields, big: Fields)
    requires Within(small, big)
    ensures Within(Stamp(kind, small), Stamp(kind, big))
  {
    hide List;
    var a, b := Stamp(kind, small), Stamp(kind, big);
    forall key ensures Nested(a, key) == Nested(b, key) {
      if key != "attributes" {
        assert Nested(a, key) == Nested(small, key) && Nested(b, key) == Nested(big, key);
      }
    }
  }

  lemma PrepareMonotone(kind: Kind, secret: Secret, small: Fields, big: Fields)
    requires Within(small, big) && Prepare(kind, secret, big).Some?
    ensures Prepare(kind, secret, small).Some?
    ensures Submap(Prepare(kind, secret, small).value, Prepare(kind, secret, big).value)
  {
  }

  // Once the spec is recorded, the payload is what the spec alone asks for.
  lemma PayloadAfterRecording(o: Object, secret: Secret)
    requires Payload(o, secret).Some?
    ensures var o' := o.(annotation := Snapshot(Strip(o.kind, o.spec.fields)));
            && Payload(o', secret) == UpdatePayload(o.kind, secret, Strip(o.kind, o.spec.fields))
            && Payload(o', secret).Some? && Submap(Payload(o', secret).value, Payload(o, secret).value)
  {
    hide Stamp, Prepare;
    var spec := Strip(o.kind, o.spec.fields);
    assert spec + Resets(spec, spec) == spec;
    var resets := if o.annotation.Snapshot? then Resets(spec, o.annotation.last) else map[];
    assert Effective(spec, o.annotation).value == spec + resets;
    assert Within(spec, spec + resets) by {
      forall key ensures Nested(spec + resets, key) == Nested(spec, key) {
        if key in resets { assert IsZeroValue(resets[key]); }
      }
    }
    StampMonotone(o.kind, spec, spec + resets);
    PrepareMonotone(o.kind, secret, Stamp(o.kind, spec), Stamp(o.kind, spec + resets));
  }

  // The resource is as its spec wants it and the spec is recorded.
  ghost predicate Converged(w: World, secret: Secret, around: Surroundings)
  {
    && Recorded(w.obj) && Payload(w.obj, secret).Some? && Settled(w, around)
    && w.obj.spec.key in w.server
    && !Differs(w.server[w.obj.spec.key].rep, Payload(w.obj, secret).value)
  }

  // Nothing was written, and the annotation is the same.
  ghost predicate Quiet(w: World, w': World)
  {
    w'.server == w.server && w'.log == w.log && w'.obj.annotation == w.obj.annotation
  }

  lemma QuietFinish(w: World, e: Env, rep: Fields)
    requires Converged(w, e.secret, e.around) && Undisturbed(e) && Fair(w, e)
    ensures Quiet(w, FinishPass(w, e, rep).0)
  {
    hide Payload, Differs, Strip, Goal, Still, Left, Reads;
    GoalIsStill(JobOf(w.obj, e.around), e.listing, SideAt(w));
  }

  // From a converged state a pass writes nothing, even if its calls fail.
  lemma ConvergedIsQuiet(w: World, e: Env)
    requires Converged(w, e.secret, e.around) && Undisturbed(e) && Fair(w, e) && !w.obj.deleting
    ensures Quiet(w, Reconcile(w, e).0)
  {
    QuietFinish(w, e, w.server[w.obj.spec.key].rep);
    hide FinishPass, Strip, Differs, UpdatePayload, IsManaged, Settled, Fair;
  }

  // Null entries of a payload come from the spec and stay in it.
  lemma NullsStay(o: Object, secret: Secret, k: string)
    requires Payload(o, secret).Some? && k in Payload(o, secret).value && Payload(o, secret).value[k].Null?
    ensures var p := UpdatePayload(o.kind, secret, Strip(o.kind, o.spec.fields));
            p.Some? && k in p.value && p.value[k].Null?
  {
    var spec := Strip(o.kind, o.spec.fields);
    PayloadAfterRecording(o, secret);
    PipelineNulls(o.kind, secret, Effective(spec, o.annotation).value, k);
    assert k in spec;
    assert k in Stamp(o.kind, spec);
  }

  // A success that can last: no null entry asked for the removal of a key the
  // server held, and no name was ambiguous.
  ghost predicate Lasting(w: World, e: Env, payload: Fields)
    requires Fair(w, e)
  {
    NullsClear(w, payload) && Faithful(JobOf(w.obj, e.around), e.listing, SideAt(w))
  }

  // After a success the representation agrees with what the recorded spec asks
  // for, exactly if no null entry asked for the removal of a key the server
  // held.
  lemma DoneAgreesIff(w: World, e: Env)
    requires Undisturbed(e) && Reconcile(w, e).1.Done?
    requires Payload(w.obj, e.secret).Some? ==> "id" !in Payload(w.obj, e.secret).value
    ensures var w1, p, key := Reconcile(w, e).0, Payload(w.obj, e.secret), w.obj.spec.key;
            && p.Some? && key in w1.server && Recorded(w1.obj) && Payload(w1.obj, e.secret).Some?
            && (!Differs(w1.server[key].rep, Payload(w1.obj, e.secret).value) <==> NullsClear(w, p.value))
  {
    PassApplied(w, e);
    RepTruthful(w, e);
    PassShape(w, e);
    PayloadAfterRecording(w.obj, e.secret);
    hide Reconcile, UpdatePayload, Strip, Differs;
    var w1, p, key := Reconcile(w, e).0, Payload(w.obj, e.secret).value, w.obj.spec.key;
    var p' := Payload(w1.obj, e.secret).value;
    var rep := w1.server[key].rep;
    if NullsClear(w, p) {
      SubmapAgrees(p', p, rep);
    }
    if !Differs(rep, p') && key in w.server {
      DiffersByField(rep, p');
      forall k | k in p && p[k].Null? ensures Missing(w.server[key].rep, k) {
        NullsStay(w.obj, e.secret, k);
        assert FieldAgrees(rep, k, p'[k]);
      }
    }
  }

  // A successful pass leaves a converged state exactly if it can last.
  lemma DoneConvergesIff(w: World, e: Env)
    requires Undisturbed(e) && Reconcile(w, e).1.Done? && Fair(w, e)
    requires Payload(w.obj, e.secret).Some? ==> "id" !in Payload(w.obj, e.secret).value
    ensures Payload(w.obj, e.secret).Some?
    ensures Converged(Reconcile(w, e).0, e.secret, e.around) <==> Lasting(w, e, Payload(w.obj, e.secret).value)
  {
    DoneAgreesIff(w, e);
    SettledIff(w, e);
    PassAnnotated(w, e);
    hide Reconcile, UpdatePayload, Strip, Differs, Settled, Faithful, Fair, NullsClear;
  }

  // A pass never changes the spec.
  lemma PassAnnotated(w: World, e: Env)
    ensures var o := Reconcile(w, e).0.obj;
            SameOrRecorded(w.obj, o) && o.kind == w.obj.kind && o.spec == w.obj.spec
  {
    hide HandleCreate, HandleExisting, Strip, Effective;
  }

  // The next pass sees the same inputs: the secret and the rest of the realm.
  predicate SameInputs(e1: Env, e2: Env)
  {
    e1.secret == e2.secret && e1.around == e2.around
  }

  // A lasting success is followed by a pass over the same spec that writes
  // nothing to the server and keeps the annotation, whatever happens to its
  // calls.
  lemma NextPassIsQuiet(w: World, e1: Env, e2: Env)
    requires Undisturbed(e1) && Undisturbed(e2) && SameInputs(e1, e2)
    requires Reconcile(w, e1).1.Done? && Fair(w, e1) && Fair(Reconcile(w, e1).0, e2)
    requires var payload := Payload(w.obj, e1.secret);
             payload.Some? ==> "id" !in payload.value && Lasting(w, e1, payload.value)
    ensures var w1 := Reconcile(w, e1).0;
            Converged(w1, e1.secret, e1.around) && Quiet(w1, Reconcile(w1, e2).0)
  {
    var w1 := Reconcile(w, e1).0;
    DoneConvergesIff(w, e1);
    PassApplied(w, e1);
    PassShape(w, e1);
    hide Reconcile, Lasting, Fair;
    ConvergedIsQuiet(w1, e2);
  }

  // A recognised resource that differs from the payload is written to.
  lemma DifferenceIsWritten(w: World, e: Env)
    requires Undisturbed(e) && Reaches(w, e) && e.write.Ok?
    requires w.obj.spec.key in w.server && !w.obj.spec.adoption.FailIfExists?
    requires Ours(w.obj, w.server[w.obj.spec.key].rep) && Payload(w.obj, e.secret).Some?
    requires Differs(w.server[w.obj.spec.key].rep, Payload(w.obj, e.secret).value)
    ensures |Reconcile(w, e).0.log| > |w.log|
  {
    hide FinishPass, Differs, UpdatePayload, Overlay, Strip, Effective, Ours;
    var rep, p := w.server[w.obj.spec.key].rep, Payload(w.obj, e.secret).value;
    assert Reconcile(w, e) == FinishPass(Put(w, rep, p), e, rep);
  }

  // Post-processing of a failure-free pass without a main write.
  lemma StillIffQuiet(w: World, e: Env, rep: Fields)
    requires Clean(e) && Fair(w, e) && w.obj.spec.key in w.server && Recorded(w.obj)
    requires w.obj.kind.Client? || w.obj.kind.Group? ==> HasId(rep)
    ensures Quiet(w, FinishPass(w, e, rep).0) <==> Still(JobOf(w.obj, e.around), e.listing, SideAt(w))
  {
    hide Strip, Still, Left, Reads;
    if !HasCollections(w.obj.kind) {
      NothingToEnforce(JobOf(w.obj, e.around), e.listing, SideAt(w));
    }
  }

  // What a success leaves for the next failure-free pass: nothing in the
  // collections exactly if the names were not ambiguous.
  lemma StillNextIff(w: World, e1: Env, e2: Env)
    requires Undisturbed(e1) && Reconcile(w, e1).1.Done? && Fair(w, e1) && Fair(Reconcile(w, e1).0, e2)
    requires SameInputs(e1, e2)
    ensures var w1, j := Reconcile(w, e1).0, JobOf(w.obj, e1.around);
            && JobOf(w1.obj, e2.around) == j
            && (Still(j, e2.listing, SideAt(w1)) <==> Calm(j, e1.listing, SideAt(w), SideAt(w1), e2.listing))
  {
    PassApplied(w, e1);
    hide Reconcile, Still, Left, Reads, Calm, Faithful;
    var j := JobOf(w.obj, e1.around);
    var w1 := Reconcile(w, e1).0;
    if HasCollections(w.obj.kind) {
      StillAfterSuccessIff(j, e1.listing, SideAt(w), e1.post, e2.listing);
    } else {
      NothingToEnforce(j, e1.listing, SideAt(w));
      NothingToEnforce(j, e2.listing, SideAt(w1));
      CalmWithout(j, e1.listing, SideAt(w), SideAt(w1), e2.listing);
    }
  }

  lemma CalmWithout(j: Job, l: Listing, before: Side, after: Side, later: Listing)
    requires !HasCollections(j.kind)
    ensures Reads(j, l, before) && Reads(j, later, after) && Calm(j, l, before, after, later)
  {
  }

  // The exact condition for the fixpoint: a failure-free second pass is quiet
  // if and only if no null entry asked for the removal of a key the server
  // held and no ambiguous name makes the collections differ again. Otherwise
  // every further pass sends the same requests again.
  lemma FixpointIff(w: World, e1: Env, e2: Env)
    requires Undisturbed(e1) && Clean(e2) && SameInputs(e1, e2)
    requires Reconcile(w, e1).1.Done? && !w.obj.spec.adoption.FailIfExists?
    requires Fair(w, e1) && Fair(Reconcile(w, e1).0, e2)
    requires Payload(w.obj, e1.secret).Some? ==> "id" !in Payload(w.obj, e1.secret).value
    ensures var w1, j := Reconcile(w, e1).0, JobOf(w.obj, e1.around);
            && Payload(w.obj, e1.secret).Some?
            && Reads(j, e1.listing, SideAt(w)) && Reads(j, e2.listing, SideAt(w1))
            && (Quiet(w1, Reconcile(w1, e2).0) <==>
                  NullsClear(w, Payload(w.obj, e1.secret).value)
                    && Calm(j, e1.listing, SideAt(w), SideAt(w1), e2.listing))
  {
    var w1 := Reconcile(w, e1).0;
    SecondPass(w, e1, e2);
    StillNextIff(w, e1, e2);
    hide Reconcile, Still, Left, Calm, Faithful;
    if !NullsClear(w, Payload(w.obj, e1.secret).value) {
      DifferenceIsWritten(w1, e2);
    } else {
      StillIffQuiet(w1, e2, w1.server[w.obj.spec.key].rep);
    }
  }

  // What the second pass starts from and, without a difference, does.
  lemma SecondPass(w: World, e1: Env, e2: Env)
    requires Undisturbed(e1) && Clean(e2) && SameInputs(e1, e2)
    requires Reconcile(w, e1).1.Done? && !w.obj.spec.adoption.FailIfExists? && Fair(w, e1)
    requires Payload(w.obj, e1.secret).Some? ==> "id" !in Payload(w.obj, e1.secret).value
    ensures var w1 := Reconcile(w, e1).0;
            && Payload(w.obj, e1.secret).Some? && Payload(w1.obj, e2.secret).Some?
            && w1.obj.spec.key == w.obj.spec.key && w.obj.spec.key in w1.server
            && Reaches(w1, e2) && Recorded(w1.obj) && !w1.obj.spec.adoption.FailIfExists?
            && Ours(w1.obj, w1.server[w.obj.spec.key].rep)
            && (w1.obj.kind.Client? || w1.obj.kind.Group? ==> HasId(w1.server[w.obj.spec.key].rep))
            && (Differs(w1.server[w.obj.spec.key].rep, Payload(w1.obj, e2.secret).value) <==>
                  !NullsClear(w, Payload(w.obj, e1.secret).value))
            && (NullsClear(w, Payload(w.obj, e1.secret).value) ==>
                  Reconcile(w1, e2) == FinishPass(w1, e2, w1.server[w.obj.spec.key].rep))
  {
    var w1 := Reconcile(w, e1).0;
    DoneAgreesIff(w, e1);
    PassApplied(w, e1);
    PassAnnotated(w, e1);
    if NeedsId(w.obj.kind) {
      DoneHasId(w, e1);
    }
    hide NullsClear, UpdatePayload, Differs, Strip, Fair, Posted, Applied, FinishPass, IsManaged, Overlay;
    if NullsClear(w, Payload(w.obj, e1.secret).value) {
      AgreedPass(w1, e2);
    }
    hide Reconcile;
  }

  // A failure-free pass over a recognised resource without a difference goes
  // straight to post-processing.
  lemma AgreedPass(w: World, e: Env)
    requires Reaches(w, e) && w.obj.spec.key in w.server && !w.obj.spec.adoption.FailIfExists? && Undisturbed(e)
    requires Ours(w.obj, w.server[w.obj.spec.key].rep) && Payload(w.obj, e.secret).Some?
    requires !Differs(w.server[w.obj.spec.key].rep, Payload(w.obj, e.secret).value)
    ensures Reconcile(w, e) == FinishPass(w, e, w.server[w.obj.spec.key].rep)
  {
    hide FinishPass, Differs, UpdatePayload, Strip, Effective, Ours;
  }

  lemma DoneHasId(w: World, e: Env)
    requires Undisturbed(e) && Reconcile(w, e).1.Done? && NeedsId(w.obj.kind)
    requires Payload(w.obj, e.secret).Some? ==> "id" !in Payload(w.obj, e.secret).value
    ensures w.obj.spec.key in Reconcile(w, e).0.server && HasId(Reconcile(w, e).0.server[w.obj.spec.key].rep)
  {
    PassApplied(w, e);
    hide Reconcile, UpdatePayload, Differs, Effective;
    assert |"id-" + w.obj.spec.key| >= 3;
  }

  // ---------------------------------------------------- Interrupted creates

  lemma CleanFinish(w: World, e: Env, rep: Fields)
    requires Clean(e) && w.obj.spec.key in w.server
    requires w.obj.kind.Client? || w.obj.kind.Group? ==> HasId(rep)
    ensures FinishPass(w, e, rep).1 == Done
    ensures FinishPass(w, e, rep).0.obj.ready == Holds && FinishPass(w, e, rep).0.obj.synced == Holds
  {
    hide Strip;
  }

  // The verdict of a failure-free pass over an existing resource.
  lemma CleanVerdict(w: World, e: Env)
    requires Clean(e) && Reaches(w, e) && w.obj.spec.key in w.server && Payload(w.obj, e.secret).Some?
    requires w.obj.kind.Client? || w.obj.kind.Group? ==> HasId(w.server[w.obj.spec.key].rep)
    ensures var (w', out) := Reconcile(w, e);
            var rep := w.server[w.obj.spec.key].rep;
            if !w.obj.spec.adoption.FailIfExists? && (Ours(w.obj, rep) || w.obj.spec.adoption.Adopt?)
            then out == Done && w'.obj.ready == Holds && w'.obj.synced == Holds
            else out == Failed(AlreadyExists) && w'.server == w.server && w'.log == w.log
  {
    hide FinishPass, Differs, UpdatePayload, Overlay, Strip, Effective, Ours;
    var rep, p := w.server[w.obj.spec.key].rep, Payload(w.obj, e.secret).value;
    CleanFinish(w, e, rep);
    CleanFinish(Put(w, rep, p), e, rep);
  }

  // A pass that created the resource, however it ended.
  ghost predicate CreatedBy(w: World, e: Env)
  {
    w.obj.spec.key !in w.server && w.obj.spec.key in Reconcile(w, e).0.server
  }

  lemma CreatedFacts(w: World, e: Env)
    requires Undisturbed(e) && CreatedBy(w, e)
    ensures var w1 := Reconcile(w, e).0;
            && Reaches(w, e) && Payload(w.obj, e.secret).Some? && SameObject(w, w1) && SameLife(w.obj, w1.obj)
            && w1.server[w.obj.spec.key].rep ==
               Payload(w.obj, e.secret).value + Assigned(w.obj.kind, w.obj.spec.key)
  {
    PassShape(w, e);
    if !Reaches(w, e) {
      EarlyShape(w, e, None);
    }
  }

  lemma CreatedIsMarked(w: World, e: Env)
    requires Undisturbed(e) && CreatedBy(w, e)
    ensures var rep := Reconcile(w, e).0.server[w.obj.spec.key].rep;
            && (IsManaged(w.obj.kind, rep) <==> CarriesMarker(w.obj.kind))
            && (CarriesMarker(w.obj.kind) ==> HasId(rep))
  {
    CreatedFacts(w, e);
    hide Reconcile;
    var p := Payload(w.obj, e.secret).value;
    var rep := p + Assigned(w.obj.kind, w.obj.spec.key);
    if CarriesMarker(w.obj.kind) {
      WrittenIsManaged(w.obj.kind, e.secret, Effective(Strip(w.obj.kind, w.obj.spec.fields), w.obj.annotation).value,
        map[]);
      assert Nested(rep, "attributes") == Nested(p, "attributes");
      assert |"id-" + w.obj.spec.key| >= 3;
    }
  }

  // From every state a pass can leave after its create request reached the
  // server, one failure-free pass ends Ready and Synced, exactly if the policy
  // is not FailIfExists and the resource can be recognised as the operator's:
  // by its marker, by the annotation, or by permission to adopt. Otherwise it
  // ends in AlreadyExists and touches nothing.
  lemma InterruptedCreateResumesIff(w: World, e: Env, e2: Env)
    requires Undisturbed(e) && CreatedBy(w, e) && Clean(e2) && e.secret == e2.secret
    ensures var w1 := Reconcile(w, e).0;
            var (w2, out) := Reconcile(w1, e2);
            if !w.obj.spec.adoption.FailIfExists? &&
               (CarriesMarker(w.obj.kind) || w.obj.spec.adoption.Adopt? || !w1.obj.annotation.Unset?)
            then out == Done && w2.obj.ready == Holds && w2.obj.synced == Holds
            else out == Failed(AlreadyExists) && w2.server == w1.server && w2.log == w1.log
  {
    CreatedFacts(w, e);
    CreatedIsMarked(w, e);
    PayloadAfterRecording(w.obj, e.secret);
    var w1 := Reconcile(w, e).0;
    hide Reconcile, UpdatePayload, Strip, IsManaged, HasId;
    CleanVerdict(w1, e2);
  }

  // ----------------------------------------------------- Foreign resources

  // Under CreateOnly and without an annotation, a pass writes nothing if the
  // resource it finds carries no marker, even if that resource only appeared
  // between the read and the create request.
  lemma ForeignUntouched(w: World, e: Env)
    requires w.obj.spec.adoption.CreateOnly? && w.obj.annotation.Unset? && !w.obj.deleting
    requires w.obj.spec.key in w.server ==> !IsManaged(w.obj.kind, w.server[w.obj.spec.key].rep)
    requires w.obj.spec.key in Edited(w, e.beforeWrite).server
    ensures var w' := Reconcile(w, e).0;
            && w'.log == w.log && w'.obj.annotation.Unset?
            && (w'.server == w.server || Some(w'.server) == e.beforeWrite)
  {
    hide CreatePayload, UpdatePayload, IsManaged, Strip, FinishPass, Differs;
  }

  // The exact condition: a failure-free pass leaves a resource without a marker
  // alone if and only if no annotation was ever recorded or there is nothing to
  // change.
  lemma ForeignUntouchedIff(w: World, e: Env)
    requires Clean(e) && Reaches(w, e) && Fair(w, e) && w.obj.spec.adoption.CreateOnly? && w.obj.spec.key in w.server
    requires Payload(w.obj, e.secret).Some? && !IsManaged(w.obj.kind, w.server[w.obj.spec.key].rep)
    requires w.obj.kind.Client? || w.obj.kind.Group? ==> HasId(w.server[w.obj.spec.key].rep)
    ensures Reconcile(w, e).0.log == w.log <==>
            || w.obj.annotation.Unset?
            || (Still(JobOf(w.obj, e.around), e.listing, SideAt(w))
                && !Differs(w.server[w.obj.spec.key].rep, Payload(w.obj, e.secret).value))
  {
    var rep, p := w.server[w.obj.spec.key].rep, Payload(w.obj, e.secret).value;
    if w.obj.annotation.Unset? {
      ForeignUntouched(w, e);
    } else if Differs(rep, p) {
      DifferenceIsWritten(w, e);
    } else {
      hide Strip, Effective, UpdatePayload, IsManaged, Differs, HasId, Still, Left, Reads;
      assert Reconcile(w, e) == FinishPass(w, e, rep);
      if !HasCollections(w.obj.kind) {
        NothingToEnforce(JobOf(w.obj, e.around), e.listing, SideAt(w));
      }
    }
  }

  // ---------------------------------------------------------------- Release

  // The finalizer only goes away on an object being deleted, under the Orphan
  // policy or with the resource absent from the server.
  lemma ReleaseIsSettled(w: World, e: Env)
    requires w.obj.finalizer && !Reconcile(w, e).0.obj.finalizer
    ensures w.obj.deleting
    ensures w.obj.spec.deletion.Orphan? || w.obj.spec.key !in Reconcile(w, e).0.server
    ensures Reconcile(w, e).0.obj.gone
  {
    hide HandleCreate, HandleExisting, Strip, Effective;
  }

  // Every write of a pass is to the object's own key, and it is either part of
  // the deletion of a deleted object or made while the stored object carries
  // the finalizer.
  predicate Licensed(o: Object, event: Event)
  {
    && event.key == o.spec.key && event.finalizer == o.finalizer
    && (if event.op.Deleted? then o.deleting else o.finalizer && !o.deleting)
  }

  lemma PassWritesLicensed(w: World, e: Env)
    ensures var log := Reconcile(w, e).0.log;
            w.log <= log && forall i :: |w.log| <= i < |log| ==> Licensed(w.obj, log[i])
  {
    hide HandleCreate, HandleExisting, Strip, Effective;
  }
}
