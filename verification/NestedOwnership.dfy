// Ownership below the top level: objects are compared on the desired keys only,
// but an update replaces them whole.

module NestedOwnership {
  import opened Wrappers
  import opened Json
  import opened LastApplied
  import opened Drivers
  import opened PostProcessing
  import opened Engine
  import opened EngineLaws
  import opened PassLaws
  import opened Runs

  // The representation has this value under k and s.
  predicate Has(rep: Fields, k: string, s: string, v: Json)
  {
    k in rep && rep[k].Obj? && s in rep[k].fields && rep[k].fields[s] == v
  }

  predicate Lacks(rep: Fields, k: string, s: string)
  {
    k in rep && rep[k].Obj? ==> s !in rep[k].fields
  }

  // The payload manages the object under k and not its entry s.
  predicate Leaves(o: Object, secret: Secret, k: string, s: string)
  {
    var p := Payload(o, secret);
    p.Some? ==> k in p.value && p.value[k].Obj? && s !in p.value[k].fields
  }

  // An update request took effect after the first n events.
  ghost predicate UpdatedSince(n: nat, log: seq<Event>)
  {
    exists i :: n <= i < |log| && log[i].op.Updated?
  }

  // What follows the main write logs no update.
  lemma FinishLog(w: World, e: Env, rep: Fields)
    requires e.beforePost.None?
    ensures var log := FinishPass(w, e, rep).0.log;
            log == w.log || log == w.log + [Event(Enforced, w.obj.spec.key, w.obj.finalizer)]
  {
    hide Strip;
  }

  // The effect of a pass on an existing representation, told from its log.
  ghost predicate Traced(w: World, payload: Option<Fields>, w': World)
  {
    var key := w.obj.spec.key;
    && w.log <= w'.log
    && (key in w.server && key in w'.server ==>
          if UpdatedSince(|w.log|, w'.log)
          then payload.Some? && w'.server[key].rep == w.server[key].rep + Overlay(w.server[key].rep, payload.value)
          else w'.server[key].rep == w.server[key].rep)
  }

  lemma FinishTraced(w: World, e: Env, rep: Fields, payload: Option<Fields>)
    requires Undisturbed(e)
    ensures Traced(w, payload, FinishPass(w, e, rep).0)
  {
    FinishLog(w, e, rep);
    FinishShape(w, e, rep);
    hide FinishPass;
  }

  lemma PutTraced(w: World, e: Env, payload: Fields)
    requires Undisturbed(e) && w.obj.spec.key in w.server
    ensures Traced(w, Some(payload), SendUpdate(w, e, w.server[w.obj.spec.key].rep, payload).0)
  {
    hide FinishPass, Overlay, Put;
    var rep := w.server[w.obj.spec.key].rep;
    var made, w' := Put(w, rep, payload), SendUpdate(w, e, rep, payload).0;
    PutShape(w, payload);
    if e.write.Took() {
      FinishLog(made, e, rep);
      FinishShape(made, e, rep);
      hide SendUpdate, Shape;
      assert w'.log[|w.log|] == made.log[|w.log|];
    }
  }

  lemma ExistingTraced(w: World, e: Env, effective: Fields)
    requires Undisturbed(e) && w.obj.spec.key in w.server
    ensures Traced(w, UpdatePayload(w.obj.kind, e.secret, effective),
                   HandleExisting(w, e, effective, w.server[w.obj.spec.key].rep).0)
  {
    var rep, p := w.server[w.obj.spec.key].rep, UpdatePayload(w.obj.kind, e.secret, effective);
    FinishTraced(w, e, rep, p);
    if p.Some? {
      PutTraced(w, e, p.value);
    }
    hide FinishPass, SendUpdate, UpdatePayload, Differs, Ours, Traced;
    QuietTraced(w, e, p);
  }

  lemma QuietTraced(w: World, e: Env, payload: Option<Fields>)
    ensures forall reason :: Traced(w, payload, Fail(w, e, reason).0)
  {
  }

  lemma PassTraced(w: World, e: Env)
    requires Undisturbed(e)
    ensures Traced(w, Payload(w.obj, e.secret), Reconcile(w, e).0)
  {
    PassWritesLicensed(w, e);
    hide HandleExisting, UpdatePayload, Effective, Strip, HandleCreate;
    if Reaches(w, e) && w.obj.spec.key in w.server {
      ExistingTraced(w, e, Effective(Strip(w.obj.kind, w.obj.spec.fields), w.obj.annotation).value);
    }
  }

  // A pass over an object it manages keeps an entry it does not manage exactly
  // if it sends no update.
  lemma PassKeepsEntryIff(w: World, e: Env, k: string, s: string, v: Json)
    requires Undisturbed(e) && Leaves(w.obj, e.secret, k, s)
    requires w.obj.spec.key in w.server && w.obj.spec.key in Reconcile(w, e).0.server
    ensures var rep, w' := w.server[w.obj.spec.key].rep, Reconcile(w, e).0;
            var rep' := w'.server[w.obj.spec.key].rep;
            && (Has(rep, k, s, v) ==> (Has(rep', k, s, v) <==> !UpdatedSince(|w.log|, w'.log)))
            && (UpdatedSince(|w.log|, w'.log) || Lacks(rep, k, s) ==> Lacks(rep', k, s))
  {
    PassTraced(w, e);
    hide Reconcile, Payload, UpdatedSince;
  }

  // A failure-free pass over a recognised resource sends one exactly if the
  // resource differs.
  lemma CleanKeepsEntryIff(w: World, e: Env, k: string, s: string, v: Json)
    requires Clean(e) && Reaches(w, e) && w.obj.spec.key in w.server && Payload(w.obj, e.secret).Some?
    requires Ours(w.obj, w.server[w.obj.spec.key].rep) && !w.obj.spec.adoption.FailIfExists?
    requires Leaves(w.obj, e.secret, k, s) && Has(w.server[w.obj.spec.key].rep, k, s, v)
    ensures var w' := Reconcile(w, e).0;
            && w.obj.spec.key in w'.server
            && (Has(w'.server[w.obj.spec.key].rep, k, s, v) <==>
                  !Differs(w.server[w.obj.spec.key].rep, Payload(w.obj, e.secret).value))
  {
    var rep, p := w.server[w.obj.spec.key].rep, Payload(w.obj, e.secret).value;
    if Differs(rep, p) {
      var made := Put(w, rep, p);
      PutShape(w, p);
      FinishShape(made, e, rep);
      hide FinishPass, Differs, UpdatePayload, Overlay, Strip, Effective, Ours, Put;
      assert Reconcile(w, e) == FinishPass(made, e, rep);
    } else {
      AgreedPass(w, e);
      FinishShape(w, e, rep);
      hide FinishPass, Reconcile, Differs;
    }
  }

  // Passes and spec edits without outside edits, none of which manages the
  // entry.
  ghost predicate LeavingRun(w: World, steps: seq<Step>, k: string, s: string)
    decreases |steps|
  {
    steps == [] ||
    (&& Private(steps[0])
     && (steps[0].Pass? ==> Leaves(w.obj, steps[0].e.secret, k, s))
     && (steps[0].EditSpec? ==> steps[0].spec.key == w.obj.spec.key)
     && LeavingRun(Next(w, steps[0]), steps[1..], k, s))
  }

  // The entry is there exactly if no update was sent since; the resource itself
  // only goes away for good.
  ghost predicate Following(n: nat, w: World, k: string, s: string, v: Json)
  {
    && n <= |w.log|
    && (if w.obj.spec.key !in w.server then w.obj.deleting
        else if UpdatedSince(n, w.log) then Lacks(w.server[w.obj.spec.key].rep, k, s)
        else Has(w.server[w.obj.spec.key].rep, k, s, v))
  }

  lemma PassFollows(n: nat, w: World, e: Env, k: string, s: string, v: Json)
    requires Undisturbed(e) && Leaves(w.obj, e.secret, k, s) && Following(n, w, k, s, v)
    ensures Following(n, Reconcile(w, e).0, k, s, v)
  {
    PassTraced(w, e);
    PassLife(w, e);
    PassShape(w, e);
    var w', key := Reconcile(w, e).0, w.obj.spec.key;
    hide Reconcile, Payload, Leaves, Has, Lacks, Overlay;
    SinceThen(n, w.log, w'.log);
    if key in w.server && key in w'.server {
      PassKeepsEntryIff(w, e, k, s, v);
    }
  }

  lemma SinceThen(n: nat, log: seq<Event>, log': seq<Event>)
    requires n <= |log| && log <= log'
    ensures UpdatedSince(n, log') <==> UpdatedSince(n, log) || UpdatedSince(|log|, log')
  {
    if i :| n <= i < |log| && log[i].op.Updated? {
      assert log'[i] == log[i];
    }
    if i :| n <= i < |log'| && log'[i].op.Updated? {
      assert i < |log| ==> log[i] == log'[i];
    }
  }

  // In every such run an entry that no spec of the resource manages, inside an
  // object it does manage, keeps its value exactly until the first update.
  lemma {:induction false} EntryLivesUntilUpdate(n: nat, w: World, steps: seq<Step>, k: string, s: string, v: Json)
    requires Following(n, w, k, s, v) && LeavingRun(w, steps, k, s)
    ensures Following(n, Run(w, steps), k, s, v)
    decreases |steps|
  {
    if steps == [] {
    } else {
      if steps[0].Pass? {
        PassFollows(n, w, steps[0].e, k, s, v);
      }
      hide Reconcile, Leaves, Has, Lacks;
      EntryLivesUntilUpdate(n, Next(w, steps[0]), steps[1..], k, s, v);
    }
  }
}
