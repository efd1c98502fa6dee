// Rotating the values of a Secret: only a value the server shows and that
// disagrees makes the next pass send it.

module SecretRotation {
  import opened Wrappers
  import opened Json
  import opened LastApplied
  import opened Drivers
  import opened PostProcessing
  import opened Engine
  import opened EngineLaws
  import opened PassLaws
  import opened Findings

  // The new values the server does not already show, masked ones aside.
  predicate Shown(kind: Kind, rep: Fields, secret: Secret)
  {
    var key := InjectionKey(kind);
    && key.Some? && secret.Values?
    && if kind.Client? then !FieldAgrees(rep, key.value, Str(secret.single))
       else exists k :: k in secret.keyed && !FieldAgrees(Nested(rep, key.value), k, Str(secret.keyed[k]))
  }

  lemma KeyedRotationIff(base: Fields, key: string, before: map<string, string>, after: map<string, string>,
                         rep: Fields)
    requires before.Keys == after.Keys && !Differs(rep, InjectKeyed(base, key, before))
    ensures Differs(rep, InjectKeyed(base, key, after)) <==>
            exists k :: k in after && !FieldAgrees(Nested(rep, key), k, Str(after[k]))
  {
    var p, p' := InjectKeyed(base, key, before), InjectKeyed(base, key, after);
    DiffersByField(rep, p);
    DiffersByField(rep, p');
    assert FieldAgrees(rep, key, p[key]);
    assert forall k :: k in p' && k != key ==> FieldAgrees(rep, k, p'[k]);
    hide Differs;
    assert Differs(rep, p') <==> !FieldAgrees(rep, key, p'[key]);
    if before == map[] {
      assert after == map[];
    } else {
      EntriesRotationIff(Nested(base, key), before, after, rep, key);
    }
  }

  // The same below the injected field.
  lemma EntriesRotationIff(inline: Fields, before: map<string, string>, after: map<string, string>, rep: Fields,
                           key: string)
    requires before.Keys == after.Keys && before != map[]
    requires FieldAgrees(rep, key, Obj(inline + Texts(before)))
    ensures FieldAgrees(rep, key, Obj(inline + Texts(after))) <==>
            forall k :: k in after ==> FieldAgrees(Nested(rep, key), k, Str(after[k]))
  {
    hide Differs, FieldAgrees, Nested;
    var p, p' := inline + Texts(before), inline + Texts(after);
    var some :| some in before;
    assert some in p && some in p';
    NonEmptyAgrees(rep, key, p);
    NonEmptyAgrees(rep, key, p');
    var fields := Nested(rep, key);
    DiffersByField(fields, p);
    DiffersByField(fields, p');
    assert forall k :: k in p' ==> if k in after then p'[k] == Str(after[k]) else k in p && p[k] == p'[k];
    assert forall k :: k in after ==> k in p';
  }

  // Agreement with an object that asks for something.
  lemma NonEmptyAgrees(rep: Fields, key: string, wanted: Fields)
    requires wanted != map[]
    ensures FieldAgrees(rep, key, Obj(wanted)) <==> key in rep && rep[key].Obj? && !Differs(Nested(rep, key), wanted)
  {
  }

  // The payload after a rotation that keeps the mapped keys.
  lemma PayloadRotationIff(kind: Kind, before: Secret, after: Secret, payload: Fields, rep: Fields)
    requires before.Values? && after.Values? && before.keyed.Keys == after.keyed.Keys
    requires !Differs(rep, UpdatePayload(kind, before, payload).value)
    ensures UpdatePayload(kind, after, payload).Some?
    ensures Differs(rep, UpdatePayload(kind, after, payload).value) <==> Shown(kind, rep, after)
  {
    var stamped := Stamp(kind, payload);
    hide Stamp;
    if kind.Realm? || kind.IdentityProvider? {
      KeyedRotationIff(stamped, InjectionKey(kind).value, before.keyed, after.keyed, rep);
    } else if kind.Client? {
      var p, p' := stamped["secret" := Str(before.single)], stamped["secret" := Str(after.single)];
      DiffersByField(rep, p);
      DiffersByField(rep, p');
      hide Differs;
      assert forall k :: k in p' && k != "secret" ==> FieldAgrees(rep, k, p'[k]);
      assert Differs(rep, p') <==> !FieldAgrees(rep, "secret", p'["secret"]);
    }
  }

  // A failure-free pass after the rotation sends the new values if and only if
  // the server shows one that disagrees. A server that masks them all never
  // gets them.
  lemma RotationSentIff(w: World, secret: Secret, e: Env)
    requires Clean(e) && Fair(w, e) && Converged(w, secret, e.around)
    requires secret.Values? && e.secret.Values? && secret.keyed.Keys == e.secret.keyed.Keys
    requires !w.obj.gone && !w.obj.deleting && w.obj.finalizer && !Protected(w.obj)
    requires NeedsId(w.obj.kind) ==> HasId(w.server[w.obj.spec.key].rep)
    requires !w.obj.spec.adoption.FailIfExists?
    ensures var w' := Reconcile(w, e).0;
            && Reconcile(w, e).1 == Done
            && (w'.server == w.server && w'.log == w.log <==>
                 !Shown(w.obj.kind, w.server[w.obj.spec.key].rep, e.secret))
  {
    var rep := w.server[w.obj.spec.key].rep;
    var spec := Strip(w.obj.kind, w.obj.spec.fields);
    assert spec + Resets(spec, spec) == spec;
    hide Strip, Shown, Goal, Still, Left, Reads, Differs, UpdatePayload, Reconcile, IsManaged, HasId;
    PayloadRotationIff(w.obj.kind, secret, e.secret, spec, rep);
    CleanVerdict(w, e);
    if Differs(rep, Payload(w.obj, e.secret).value) {
      DifferenceIsWritten(w, e);
    } else {
      AgreedPass(w, e);
      GoalIsStill(JobOf(w.obj, e.around), e.listing, SideAt(w));
      FinishSilentIff(w, e, rep);
    }
  }

  // With every value masked nothing is sent.
  lemma MaskedRotationIsUnseen(kind: Kind, rep: Fields, secret: Secret)
    requires secret.Values?
    requires kind.Client? ==> "secret" in rep && rep["secret"] == Str(MASKED)
    requires InjectionKey(kind).Some? && !kind.Client? ==>
               forall k :: k in secret.keyed ==>
                 k in Nested(rep, InjectionKey(kind).value) && Nested(rep, InjectionKey(kind).value)[k] == Str(MASKED)
    ensures !Shown(kind, rep, secret)
  {
  }
}
