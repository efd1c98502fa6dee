// What the stored conditions say after a pass, and when they can be believed.

module Conditions {
  import opened Wrappers
  import opened Json
  import opened LastApplied
  import opened Drivers
  import opened PostProcessing
  import opened Engine
  import opened EngineLaws
  import opened PassLaws
  import opened Runs

  // The pass gets past its main write: a create and its re-fetch went through,
  // or an existing resource may be managed and needed no update or got it.
  predicate Written(w: World, e: Env)
  {
    var key, p := w.obj.spec.key, Payload(w.obj, e.secret);
    && p.Some?
    && if key !in w.server then e.write.Ok? && e.refetch
       else
         var rep := w.server[key].rep;
         && !w.obj.spec.adoption.FailIfExists? && (Ours(w.obj, rep) || w.obj.spec.adoption.Adopt?)
         && (Differs(rep, p.value) || !Ours(w.obj, rep) ==> e.write.Ok?)
  }

  // Post-processing goes through. A created representation has its id.
  predicate Processed(w: World, e: Env)
  {
    HasCollections(w.obj.kind) ==>
      && e.post.ok
      && (NeedsId(w.obj.kind) && w.obj.spec.key in w.server ==> HasId(w.server[w.obj.spec.key].rep))
  }

  predicate Succeeds(w: World, e: Env)
  {
    Reaches(w, e) && Written(w, e) && Processed(w, e) && (Recorded(w.obj) || e.annotate.Ok?)
  }

  // The created resource could not be read back: only Ready is written.
  predicate StopsAtRefetch(w: World, e: Env)
  {
    Reaches(w, e) && w.obj.spec.key !in w.server && Payload(w.obj, e.secret).Some? && e.write.Ok? && !e.refetch
  }

  // The spec could not be recorded: no condition is written.
  predicate StopsAtRecording(w: World, e: Env)
  {
    Reaches(w, e) && Written(w, e) && Processed(w, e) && !Recorded(w.obj) && !e.annotate.Ok?
  }

  // Passes that end without writing any condition.
  predicate Silent(w: World, e: Env)
  {
    || w.obj.gone
    || (w.obj.deleting && (w.obj.spec.deletion.Orphan? || e.connection))
    || (!w.obj.deleting && e.connection && !w.obj.finalizer)
    || StopsAtRecording(w, e)
  }

  // The two patches of a status report, given whether it reports success.
  ghost predicate Reports(o: Object, e: Env, good: bool, o': Object)
  {
    && (if e.status2 then (o'.synced.Holds? <==> good) else o'.synced == o.synced)
    && (if e.status1 || e.status2 then (o'.ready.Holds? <==> good) else o'.ready == o.ready)
  }

  ghost predicate SameConditions(o: Object, o': Object)
  {
    o'.ready == o.ready && o'.synced == o.synced
  }

  // The branches of a pass by what they report.
  ghost predicate Told(o: Object, e: Env, silent: bool, refetch: bool, good: bool, r: (World, Outcome))
  {
    && (r.1.Done? <==> good)
    && (if silent then SameConditions(o, r.0.obj)
        else if refetch then
          r.0.obj.synced == o.synced && r.0.obj.ready == (if e.status1 then Broken(Retrying) else o.ready)
        else Reports(o, e, good, r.0.obj))
  }

  lemma FailureTold(w: World, e: Env, reason: Reason)
    ensures Told(w.obj, e, false, false, false, Fail(w, e, reason)) && Told(w.obj, e, false, false, false, Again(w, e))
  {
  }

  lemma FinishTold(w: World, e: Env, rep: Fields)
    requires Undisturbed(e) && w.obj.spec.key in w.server
    ensures var processed := HasCollections(w.obj.kind) ==> e.post.ok && (NeedsId(w.obj.kind) ==> HasId(rep));
            Told(w.obj, e, processed && !Recorded(w.obj) && !e.annotate.Ok?, false,
                 processed && (Recorded(w.obj) || e.annotate.Ok?), FinishPass(w, e, rep))
  {
    hide Strip;
  }

  lemma CreateTold(w: World, e: Env, effective: Fields)
    requires Undisturbed(e) && w.obj.spec.key !in w.server
    ensures var p := UpdatePayload(w.obj.kind, e.secret, effective);
            var written := p.Some? && e.write.Ok? && e.refetch;
            var processed := HasCollections(w.obj.kind) ==> e.post.ok;
            Told(w.obj, e, written && processed && !Recorded(w.obj) && !e.annotate.Ok?,
                 p.Some? && e.write.Ok? && !e.refetch,
                 written && processed && (Recorded(w.obj) || e.annotate.Ok?), HandleCreate(w, e, effective))
  {
    PipelinesAgree(w.obj.kind, e.secret, effective);
    var p := CreatePayload(w.obj.kind, e.secret, effective);
    FailureTold(w, e, SecretMissing);
    FailureTold(w, e, AlreadyExists);
    if p.Some? {
      var made := Make(w, p.value);
      CreatedId(w, p.value);
      hide CreatePayload, UpdatePayload, FinishPass, Strip, HasId, Assigned;
      FailureTold(made, e, AlreadyExists);
      FinishTold(made, e, made.server[w.obj.spec.key].rep);
      hide Reports;
    }
  }

  lemma CreatedId(w: World, payload: Fields)
    ensures NeedsId(w.obj.kind) ==> HasId(Make(w, payload).server[w.obj.spec.key].rep)
  {
    assert |"id-" + w.obj.spec.key| >= 3;
  }

  lemma ExistingTold(w: World, e: Env, effective: Fields)
    requires Undisturbed(e) && w.obj.spec.key in w.server
    ensures var p, rep := UpdatePayload(w.obj.kind, e.secret, effective), w.server[w.obj.spec.key].rep;
            var written :=
              && p.Some? && !w.obj.spec.adoption.FailIfExists? && (Ours(w.obj, rep) || w.obj.spec.adoption.Adopt?)
              && (Differs(rep, p.value) || !Ours(w.obj, rep) ==> e.write.Ok?);
            var processed := HasCollections(w.obj.kind) ==> e.post.ok && (NeedsId(w.obj.kind) ==> HasId(rep));
            Told(w.obj, e, written && processed && !Recorded(w.obj) && !e.annotate.Ok?, false,
                 written && processed && (Recorded(w.obj) || e.annotate.Ok?), HandleExisting(w, e, effective, rep))
  {
    hide UpdatePayload, FinishPass, Strip, Ours, HasId, Differs, Overlay, Reports;
    var p, rep := UpdatePayload(w.obj.kind, e.secret, effective), w.server[w.obj.spec.key].rep;
    FailureTold(w, e, SecretMissing);
    FailureTold(w, e, AlreadyExists);
    FinishTold(w, e, rep);
    if p.Some? {
      var made := Put(w, rep, p.value);
      FailureTold(made, e, AlreadyExists);
      FinishTold(made, e, rep);
    }
  }

  // Every undisturbed pass: when it succeeds, and what it reports.
  lemma PassTold(w: World, e: Env)
    requires Undisturbed(e)
    ensures Told(w.obj, e, Silent(w, e), StopsAtRefetch(w, e), Succeeds(w, e), Reconcile(w, e))
  {
    hide HandleCreate, HandleExisting, UpdatePayload, Ours, Differs, HasId, Effective, Strip;
    FailureTold(w, e, ProtectedRealm);
    FailureTold(w, e, Invalid);
    if Reaches(w, e) {
      var effective := Effective(Strip(w.obj.kind, w.obj.spec.fields), w.obj.annotation).value;
      if w.obj.spec.key in w.server {
        ExistingTold(w, e, effective);
      } else {
        CreateTold(w, e, effective);
      }
    }
  }

  // After a pass Synced is stored as true if and only if the pass succeeded and
  // its second status patch was stored, or it was true before and the pass wrote
  // no Synced condition or lost that patch.
  lemma SyncedIff(w: World, e: Env)
    requires Undisturbed(e)
    ensures Reconcile(w, e).1.Done? <==> Succeeds(w, e)
    ensures Reconcile(w, e).0.obj.synced.Holds? <==>
            || (Succeeds(w, e) && e.status2)
            || (w.obj.synced.Holds? && (Silent(w, e) || StopsAtRefetch(w, e) || !e.status2))
  {
    PassTold(w, e);
    hide Reconcile, Reaches, Written, Processed, Recorded;
  }

  // The same for Ready, which the first patch carries too and a failed re-fetch
  // takes back.
  lemma ReadyIff(w: World, e: Env)
    requires Undisturbed(e)
    ensures Reconcile(w, e).0.obj.ready.Holds? <==>
            || (Succeeds(w, e) && (e.status1 || e.status2))
            || (w.obj.ready.Holds?
                && (|| Silent(w, e)
                    || (StopsAtRefetch(w, e) && !e.status1)
                    || (!StopsAtRefetch(w, e) && !e.status1 && !e.status2)))
  {
    PassTold(w, e);
    hide Reconcile, Reaches, Written, Processed, Recorded;
  }

  // ------------------------------------------------------------- Over runs

  // Passes over one spec, secret and realm, without outside edits, each of
  // which would last if it succeeded.
  ghost predicate Orderly(w: World, secret: Secret, around: Surroundings, steps: seq<Step>)
    decreases |steps|
  {
    steps == [] ||
    (&& steps[0].Pass? && Private(steps[0]) && Fair(w, steps[0].e)
     && steps[0].e.secret == secret && steps[0].e.around == around
     && (Payload(w.obj, secret).Some? ==>
           "id" !in Payload(w.obj, secret).value && Lasting(w, steps[0].e, Payload(w.obj, secret).value))
     && Orderly(Next(w, steps[0]), secret, around, steps[1..]))
  }

  ghost predicate Believable(w: World, secret: Secret, around: Surroundings)
  {
    w.obj.synced.Holds? ==> Converged(w, secret, around)
  }

  lemma PassKeepsBelief(w: World, e: Env)
    requires Undisturbed(e) && Fair(w, e) && !w.obj.deleting && Believable(w, e.secret, e.around)
    requires Payload(w.obj, e.secret).Some? ==>
               "id" !in Payload(w.obj, e.secret).value && Lasting(w, e, Payload(w.obj, e.secret).value)
    ensures Believable(Reconcile(w, e).0, e.secret, e.around)
  {
    SyncedIff(w, e);
    PassAnnotated(w, e);
    hide Reconcile, Silent, StopsAtRefetch, Succeeds, Strip, UpdatePayload, Differs, Goal, Lasting, Fair;
    if Succeeds(w, e) {
      DoneConvergesIff(w, e);
    } else if w.obj.synced.Holds? {
      ConvergedIsQuiet(w, e);
    }
  }

  // Through all failures a stored Synced condition that is true can be believed:
  // the resource is as its spec wants it, now and not only when it was set.
  lemma {:induction false} StoredSyncedIsTruthful(w: World, secret: Secret, around: Surroundings, steps: seq<Step>)
    requires !w.obj.deleting && Believable(w, secret, around) && Orderly(w, secret, around, steps)
    ensures Believable(Run(w, steps), secret, around)
    decreases |steps|
  {
    if steps == [] {
    } else {
      PassKeepsBelief(w, steps[0].e);
      PassLife(w, steps[0].e);
      hide Reconcile, Believable, Lasting, Fair, Payload;
      StoredSyncedIsTruthful(Next(w, steps[0]), secret, around, steps[1..]);
    }
  }
}
