// What holds in every run: any sequence of passes, with failures at arbitrary
// calls, spec edits, deletion requests and outside edits of the server.

module Runs {
  import opened Wrappers
  import opened Json
  import opened LastApplied
  import opened PayloadLaws
  import opened Drivers
  import opened PostProcessing
  import opened Engine
  import opened EngineLaws
  import opened PassLaws

  datatype Step = Pass(e: Env) | EditSpec(spec: Spec) | Remove | Outside(server: Server)

  // A deletion request marks an object that carries the finalizer and drops
  // one that does not.
  function Next(w: World, s: Step): (r: World)
  {
    match s
    case Pass(e) => Reconcile(w, e).0
    case EditSpec(spec) => if w.obj.gone then w else w.(obj := w.obj.(spec := spec))
    case Remove => if w.obj.gone then w else w.(obj := w.obj.(deleting := true, gone := !w.obj.finalizer))
    case Outside(server) => w.(server := server)
  }

  function Run(w: World, steps: seq<Step>): (r: World)
    decreases |steps|
  {
    if steps == [] then w else Run(Next(w, steps[0]), steps[1..])
  }

  predicate Fresh(w: World)
  {
    !w.obj.finalizer && !w.obj.deleting && !w.obj.gone && w.obj.annotation.Unset? && w.log == []
  }

  // No outside edits, neither between passes nor during one.
  predicate Private(s: Step)
  {
    !s.Outside? && (s.Pass? ==> Undisturbed(s.e))
  }

  // --------------------------------------------------------------- Fixpoint

  // Once converged, no run of passes over the same spec, secret and realm ever
  // writes again, whatever fails in them.
  lemma {:induction false} QuietForever(w: World, secret: Secret, around: Surroundings, steps: seq<Step>)
    requires Converged(w, secret, around) && !w.obj.deleting
    requires forall i :: 0 <= i < |steps| ==>
               && steps[i].Pass? && Private(steps[i]) && Fair(w, steps[i].e)
               && steps[i].e.secret == secret && steps[i].e.around == around
    ensures Quiet(w, Run(w, steps)) && Converged(Run(w, steps), secret, around)
    decreases |steps|
  {
    if steps == [] {
    } else {
      var w' := Next(w, steps[0]);
      ConvergedIsQuiet(w, steps[0].e);
      PassAnnotated(w, steps[0].e);
      PassLife(w, steps[0].e);
      hide Reconcile, Strip, UpdatePayload, Differs, Goal, Possible;
      assert forall i :: 0 <= i < |steps[1..]| ==> Fair(w', steps[1..][i].e);
      QuietForever(w', secret, around, steps[1..]);
    }
  }

  // ---------------------------------------------------------------- Resets

  // The annotation still remembers a string, boolean or list under k.
  predicate Remembered(w: World, k: string)
  {
    w.obj.annotation.Snapshot? && k in w.obj.annotation.last && Enforceable(w.obj.annotation.last[k])
  }

  // The removal of k is either still remembered or done.
  predicate ResetPending(w: World, k: string)
  {
    Remembered(w, k) || w.obj.spec.key !in w.server || IsReset(w.server[w.obj.spec.key].rep, k)
  }

  // k is a spec field the spec no longer mentions, and not one that the
  // pipeline or the server fills in by itself.
  predicate Removed(w: World, k: string)
  {
    k !in w.obj.spec.fields && k !in OwnKeys(w.obj.kind) && k != "id"
  }

  // What the payload says about a field that is gone from the spec.
  lemma PayloadOfRemoved(o: Object, secret: Secret, k: string)
    requires k !in o.spec.fields && k !in OwnKeys(o.kind) && Payload(o, secret).Some?
    ensures var p := Payload(o, secret).value;
            k in p <==> o.annotation.Snapshot? && k in o.annotation.last && ZeroFor(o.annotation.last[k]).Some?
    ensures var p := Payload(o, secret).value;
            k in p ==> Some(p[k]) == ZeroFor(o.annotation.last[k])
  {
    var effective := Effective(Strip(o.kind, o.spec.fields), o.annotation).value;
    PipelineFrame(o.kind, secret, effective);
    hide UpdatePayload;
  }

  // Laying the payload over a representation leaves a removed field as it was
  // or resets it.
  lemma OverlayOfRemoved(rep: Fields, p: Fields, k: string)
    requires k in p ==> IsZeroValue(p[k])
    ensures var after := rep + Overlay(rep, p);
            if k in p then k in after && after[k] == p[k]
            else (k in after <==> k in rep) && (k in rep ==> after[k] == rep[k])
  {
  }

  // A pass that forgets a removal has just carried it out.
  lemma ForgottenIsReset(w: World, e: Env, k: string)
    requires Undisturbed(e) && Removed(w, k) && Remembered(w, k)
    requires Reconcile(w, e).0.obj.annotation != w.obj.annotation
    ensures w.obj.spec.key in Reconcile(w, e).0.server && IsReset(Reconcile(w, e).0.server[w.obj.spec.key].rep, k)
  {
    PassApplied(w, e);
    hide Reconcile, UpdatePayload, Differs, Posted;
    var w', p, key := Reconcile(w, e).0, Payload(w.obj, e.secret).value, w.obj.spec.key;
    PayloadOfRemoved(w.obj, e.secret, k);
    var previous := w.obj.annotation.last[k];
    if key in w.server {
      OverlayOfRemoved(w.server[key].rep, p, k);
      DiffersByField(w.server[key].rep, p);
      ResetAgreementIsReal(w.server[key].rep, k, previous);
    }
  }

  // A pass never undoes a reset.
  lemma ResetStays(w: World, e: Env, k: string)
    requires Undisturbed(e) && Removed(w, k)
    requires w.obj.spec.key !in w.server || IsReset(w.server[w.obj.spec.key].rep, k)
    ensures var w' := Reconcile(w, e).0;
            w.obj.spec.key !in w'.server || IsReset(w'.server[w.obj.spec.key].rep, k)
  {
    PassShape(w, e);
    hide Reconcile, UpdatePayload, Effective;
    var w', key := Reconcile(w, e).0, w.obj.spec.key;
    if key in w'.server && Payload(w.obj, e.secret).Some? {
      PayloadOfRemoved(w.obj, e.secret, k);
      if key in w.server {
        OverlayOfRemoved(w.server[key].rep, Payload(w.obj, e.secret).value, k);
      }
    }
  }

  lemma PassKeepsReset(w: World, e: Env, k: string)
    requires Undisturbed(e) && Removed(w, k) && ResetPending(w, k)
    ensures ResetPending(Reconcile(w, e).0, k) && Removed(Reconcile(w, e).0, k)
  {
    PassShape(w, e);
    if Remembered(w, k) {
      if Reconcile(w, e).0.obj.annotation != w.obj.annotation {
        ForgottenIsReset(w, e, k);
      }
    } else {
      ResetStays(w, e, k);
    }
    hide Reconcile;
  }

  // In every run without outside edits, with failures at arbitrary calls and
  // arbitrary spec edits that keep the natural key and leave k out: a removed
  // string, boolean or list is never forgotten before the server holds it
  // absent, null, zero or masked.
  lemma {:induction false} NoResetIsLost(w: World, steps: seq<Step>, k: string)
    requires Removed(w, k) && ResetPending(w, k)
    requires forall i :: 0 <= i < |steps| ==> Private(steps[i])
    requires forall i :: 0 <= i < |steps| && steps[i].EditSpec? ==>
               steps[i].spec.key == w.obj.spec.key && k !in steps[i].spec.fields
    ensures ResetPending(Run(w, steps), k)
    decreases |steps|
  {
    if steps == [] {
    } else {
      var w' := Next(w, steps[0]);
      if steps[0].Pass? {
        PassKeepsReset(w, steps[0].e, k);
        PassShape(w, steps[0].e);
      }
      hide Reconcile;
      NoResetIsLost(w', steps[1..], k);
    }
  }

  // Whatever is recorded under k is a string, boolean or list.
  predicate Recoverable(w: World, k: string)
  {
    w.obj.annotation.Snapshot? && k in w.obj.annotation.last ==> Enforceable(w.obj.annotation.last[k])
  }

  // A successful pass over a removed field has reset it if and only if the
  // removal was remembered or nothing was left to reset. A value written by a
  // pass that then failed to record it is not remembered.
  lemma DoneResetsIff(w: World, e: Env, k: string)
    requires Undisturbed(e) && Reconcile(w, e).1.Done? && w.obj.spec.key in w.server
    requires Removed(w, k) && Recoverable(w, k)
    ensures var key, w' := w.obj.spec.key, Reconcile(w, e).0;
            key in w'.server && (IsReset(w'.server[key].rep, k) <==> Remembered(w, k) || IsReset(w.server[key].rep, k))
  {
    PassApplied(w, e);
    PayloadOfRemoved(w.obj, e.secret, k);
    hide Reconcile, UpdatePayload, Differs, Posted;
    var key, p := w.obj.spec.key, Payload(w.obj, e.secret).value;
    OverlayOfRemoved(w.server[key].rep, p, k);
    if Remembered(w, k) {
      DiffersByField(w.server[key].rep, p);
      ResetAgreementIsReal(w.server[key].rep, k, w.obj.annotation.last[k]);
    }
  }

  // Every undisturbed pass keeps the verdict on a removed field, as long as the
  // resource exists.
  lemma PassKeepsVerdict(w: World, e: Env, k: string)
    requires Undisturbed(e) && Removed(w, k) && Recoverable(w, k)
    requires w.obj.spec.key in w.server && w.obj.spec.key in Reconcile(w, e).0.server
    ensures var w' := Reconcile(w, e).0;
            Removed(w', k) && Recoverable(w', k) && (ResetPending(w', k) <==> ResetPending(w, k))
  {
    PassShape(w, e);
    PassAnnotated(w, e);
    if ResetPending(w, k) {
      PassKeepsReset(w, e, k);
    } else {
      if Payload(w.obj, e.secret).Some? {
        PayloadOfRemoved(w.obj, e.secret, k);
      }
      PassKeepsField(w, e, k);
    }
    hide Reconcile, Payload;
  }

  // No outside edits, and spec edits that keep the natural key and leave k out.
  ghost predicate RemovedRun(w: World, steps: seq<Step>, k: string)
  {
    && (forall i :: 0 <= i < |steps| ==> Private(steps[i]))
    && (forall i :: 0 <= i < |steps| && steps[i].EditSpec? ==>
          steps[i].spec.key == w.obj.spec.key && k !in steps[i].spec.fields)
  }

  // The exact law over runs: as long as the resource exists, the removal of a
  // string, boolean or list is remembered or done if and only if it was so when
  // the field was removed. A removal that was not recorded is lost for good.
  lemma {:induction false} ResetPendingIff(w: World, steps: seq<Step>, k: string)
    requires Removed(w, k) && Recoverable(w, k) && RemovedRun(w, steps, k)
    requires w.obj.spec.key in w.server && w.obj.spec.key in Run(w, steps).server
    ensures ResetPending(Run(w, steps), k) <==> ResetPending(w, k)
    decreases |steps|
  {
    if steps == [] {
    } else {
      var w' := Next(w, steps[0]);
      StaysAway(w, steps);
      if steps[0].Pass? {
        PassKeepsVerdict(w, steps[0].e, k);
        PassAnnotated(w, steps[0].e);
      }
      hide Reconcile;
      ResetPendingIff(w', steps[1..], k);
    }
  }

  // A resource that is gone after the first step of such a run does not come
  // back.
  lemma StaysAway(w: World, steps: seq<Step>)
    requires |steps| > 0 && w.obj.spec.key in w.server && w.obj.spec.key in Run(w, steps).server
    requires forall i :: 0 <= i < |steps| ==> Private(steps[i])
    requires forall i :: 0 <= i < |steps| && steps[i].EditSpec? ==> steps[i].spec.key == w.obj.spec.key
    ensures w.obj.spec.key in Next(w, steps[0]).server
  {
    if steps[0].Pass? && w.obj.spec.key !in Next(w, steps[0]).server {
      PassShape(w, steps[0].e);
      PassLife(w, steps[0].e);
      hide Reconcile;
      NeverAgain(Next(w, steps[0]), steps[1..]);
    }
  }

  lemma {:induction false} NeverAgain(w: World, steps: seq<Step>)
    requires w.obj.deleting && w.obj.spec.key !in w.server
    requires forall i :: 0 <= i < |steps| ==> Private(steps[i])
    requires forall i :: 0 <= i < |steps| && steps[i].EditSpec? ==> steps[i].spec.key == w.obj.spec.key
    ensures w.obj.spec.key !in Run(w, steps).server
    decreases |steps|
  {
    if steps != [] {
      if steps[0].Pass? {
        PassShape(w, steps[0].e);
        PassLife(w, steps[0].e);
      }
      hide Reconcile;
      NeverAgain(Next(w, steps[0]), steps[1..]);
    }
  }

  // -------------------------------------------------------------- Ownership

  ghost predicate SameField(a: Fields, b: Fields, k: string)
  {
    (k in a <==> k in b) && (k in a ==> a[k] == b[k])
  }

  // A pass changes the fields its payload mentions, and no others.
  lemma PassKeepsField(w: World, e: Env, k: string)
    requires Undisturbed(e)
    requires Payload(w.obj, e.secret).Some? ==> k !in Payload(w.obj, e.secret).value
    ensures var w' := Reconcile(w, e).0;
            forall q :: q in w.server && q in w'.server ==> SameField(w.server[q].rep, w'.server[q].rep, k)
  {
    PassShape(w, e);
    hide Reconcile, Payload;
  }

  // In particular a number removed from the spec keeps its server value.
  lemma NumberRemovalKeepsValue(w: World, e: Env, k: string)
    requires Undisturbed(e) && k !in w.obj.spec.fields && k !in OwnKeys(w.obj.kind)
    requires w.obj.annotation.Snapshot? && k in w.obj.annotation.last && w.obj.annotation.last[k].Num?
    ensures var w' := Reconcile(w, e).0;
            forall q :: q in w.server && q in w'.server ==> SameField(w.server[q].rep, w'.server[q].rep, k)
  {
    if Payload(w.obj, e.secret).Some? {
      PayloadOfRemoved(w.obj, e.secret, k);
    }
    PassKeepsField(w, e, k);
  }

  // Neither the spec nor the recorded snapshot mentions k, and the pipeline
  // does not write it by itself.
  predicate Unowned(o: Object, k: string)
  {
    k !in o.spec.fields && k !in OwnKeys(o.kind) && (o.annotation.Snapshot? ==> k !in o.annotation.last)
  }

  // The resource q still has this value under k, or it was deleted for good.
  ghost predicate Kept(before: Fields, w: World, q: string, k: string)
  {
    if q in w.server then SameField(before, w.server[q].rep, k) else w.obj.deleting
  }

  lemma PassKeepsUnowned(before: Fields, w: World, e: Env, q: string, k: string)
    requires Undisturbed(e) && Unowned(w.obj, k) && Kept(before, w, q, k)
    ensures Unowned(Reconcile(w, e).0.obj, k) && Kept(before, Reconcile(w, e).0, q, k)
  {
    PassShape(w, e);
    if Payload(w.obj, e.secret).Some? {
      PayloadOfRemoved(w.obj, e.secret, k);
    }
    PassKeepsField(w, e, k);
    hide Reconcile, Payload;
  }

  // In every run without outside edits, a top-level field that no spec of the
  // resource ever mentions, and that is not the marker or injection field of
  // its kind, keeps its server value through all spec edits and passes.
  lemma {:induction false} FieldOwnership(before: Fields, w: World, steps: seq<Step>, q: string, k: string)
    requires Unowned(w.obj, k) && Kept(before, w, q, k)
    requires forall i :: 0 <= i < |steps| ==> Private(steps[i])
    requires forall i :: 0 <= i < |steps| && steps[i].EditSpec? ==> k !in steps[i].spec.fields
    ensures Kept(before, Run(w, steps), q, k)
    decreases |steps|
  {
    if steps == [] {
    } else {
      if steps[0].Pass? {
        PassKeepsUnowned(before, w, steps[0].e, q, k);
      }
      hide Reconcile;
      FieldOwnership(before, Next(w, steps[0]), steps[1..], q, k);
    }
  }

  // The snapshot holds representation fields only.
  ghost predicate SnapshotStripped(o: Object)
  {
    o.annotation.Snapshot? ==> o.annotation.last.Keys !! OperatorFields(o.kind)
  }

  lemma {:induction false} SnapshotStaysStripped(w: World, steps: seq<Step>)
    requires SnapshotStripped(w.obj)
    ensures SnapshotStripped(Run(w, steps).obj)
    decreases |steps|
  {
    if steps == [] {
    } else {
      if steps[0].Pass? {
        PassAnnotated(w, steps[0].e);
      }
      hide Reconcile, OperatorFields;
      SnapshotStaysStripped(Next(w, steps[0]), steps[1..]);
    }
  }

  // In every run that starts without an annotation, outside edits included, no
  // payload ever contains a bookkeeping field of the operator.
  lemma OperatorFieldsNeverSent(w: World, steps: seq<Step>, secret: Secret)
    requires w.obj.annotation.Unset?
    ensures var o := Run(w, steps).obj;
            Payload(o, secret).Some? ==> Payload(o, secret).value.Keys !! OperatorFields(o.kind)
  {
    SnapshotStaysStripped(w, steps);
    var o := Run(w, steps).obj;
    if Payload(o, secret).Some? {
      var effective := Effective(Strip(o.kind, o.spec.fields), o.annotation).value;
      PipelineFrame(o.kind, secret, effective);
      hide UpdatePayload;
      assert OwnKeys(o.kind) !! OperatorFields(o.kind);
      assert effective.Keys !! OperatorFields(o.kind);
    }
  }

  // ------------------------------------------------------ Foreign resources

  // The step leaves the resource under the object's key foreign: a pass reads
  // it unmarked or absent and finds it present when it would write; spec edits
  // keep the CreateOnly policy; outside edits are free.
  ghost predicate StaysForeign(w: World, s: Step)
  {
    match s
    case Pass(e) =>
      && (w.obj.spec.key in w.server ==> !IsManaged(w.obj.kind, w.server[w.obj.spec.key].rep))
      && w.obj.spec.key in Edited(w, e.beforeWrite).server
    case EditSpec(spec) => spec.adoption.CreateOnly?
    case Remove => false
    case Outside(_) => true
  }

  ghost predicate ForeignRun(w: World, steps: seq<Step>)
    decreases |steps|
  {
    steps == [] || (StaysForeign(w, steps[0]) && ForeignRun(Next(w, steps[0]), steps[1..]))
  }

  // The server state an outside edit produced.
  ghost predicate MadeBy(s: Step, server: Server)
  {
    (s.Outside? && s.server == server) || (s.Pass? && s.e.beforeWrite == Some(server))
  }

  // In every such run that starts without an annotation the operator writes
  // nothing, records nothing, and the server is what outside edits made it.
  lemma {:induction false} ForeignSafety(w: World, steps: seq<Step>)
    requires w.obj.annotation.Unset? && !w.obj.deleting && w.obj.spec.adoption.CreateOnly?
    requires ForeignRun(w, steps)
    ensures var w' := Run(w, steps);
            && w'.log == w.log && w'.obj.annotation.Unset?
            && (w'.server == w.server || exists s :: s in steps && MadeBy(s, w'.server))
    decreases |steps|
  {
    if steps == [] {
    } else {
      var w1 := Next(w, steps[0]);
      if steps[0].Pass? {
        ForeignUntouched(w, steps[0].e);
        PassLife(w, steps[0].e);
      }
      hide Reconcile, IsManaged;
      ForeignSafety(w1, steps[1..]);
      var w' := Run(w1, steps[1..]);
      if w'.server != w1.server {
        var s :| s in steps[1..] && MadeBy(s, w'.server);
        assert s in steps;
      } else if w1.server != w.server {
        assert MadeBy(steps[0], w'.server);
      }
    }
  }

  // --------------------------------------------------------------- Deletion

  // What a pass does to the life of the object.
  lemma PassLife(w: World, e: Env)
    ensures var o := Reconcile(w, e).0.obj;
            && o.kind == w.obj.kind && o.spec == w.obj.spec && o.deleting == w.obj.deleting
            && (w.obj.gone ==> Reconcile(w, e).0 == w)
            && (o.gone && !w.obj.gone ==> w.obj.deleting && !o.finalizer)
            && (!o.gone && w.obj.finalizer ==> o.finalizer)
  {
    hide HandleCreate, HandleExisting, Strip, Effective;
  }

  // An object being deleted keeps the finalizer until it is gone, and every
  // write so far was made under the finalizer.
  predicate Guarded(w: World)
  {
    && (w.obj.deleting && !w.obj.gone ==> w.obj.finalizer)
    && (w.obj.gone ==> !w.obj.finalizer)
    && forall i :: 0 <= i < |w.log| ==> w.log[i].finalizer
  }

  // In every run from a fresh object, outside edits included, the operator
  // writes to the server only while the stored object carries the finalizer.
  lemma {:induction false} WritesNeedFinalizer(w: World, steps: seq<Step>)
    requires Guarded(w)
    ensures Guarded(Run(w, steps))
    decreases |steps|
  {
    if steps == [] {
    } else {
      if steps[0].Pass? {
        PassLife(w, steps[0].e);
        PassWritesLicensed(w, steps[0].e);
      }
      hide Reconcile;
      WritesNeedFinalizer(Next(w, steps[0]), steps[1..]);
    }
  }

  // Without the finalizer the operator has never written, or it is done: the
  // object is gone and the resource with it.
  predicate Clear(w: World)
  {
    !w.obj.finalizer ==> w.log == [] || (w.obj.gone && w.obj.spec.key !in w.server)
  }

  lemma PassKeepsClear(w: World, e: Env)
    requires Clear(w) && Guarded(w) && w.obj.spec.deletion.Delete?
    ensures Clear(Reconcile(w, e).0)
  {
    PassLife(w, e);
    PassWritesLicensed(w, e);
    if w.obj.finalizer && !Reconcile(w, e).0.obj.finalizer {
      ReleaseIsSettled(w, e);
    }
    hide Reconcile;
  }

  // With a fixed natural key, the Delete policy and no outside edits between
  // passes, a vanished object that the operator ever wrote for has left no
  // resource behind, through all failures and retries.
  lemma {:induction false} GoneMeansAbsent(w: World, steps: seq<Step>)
    requires Clear(w) && Guarded(w) && w.obj.spec.deletion.Delete?
    requires forall i :: 0 <= i < |steps| ==> !steps[i].Outside?
    requires forall i :: 0 <= i < |steps| && steps[i].EditSpec? ==>
               steps[i].spec.key == w.obj.spec.key && steps[i].spec.deletion.Delete?
    ensures var w' := Run(w, steps);
            Clear(w') && Guarded(w') && (w'.obj.gone && w'.log != [] ==> w'.obj.spec.key !in w'.server)
    decreases |steps|
  {
    if steps == [] {
    } else {
      if steps[0].Pass? {
        PassLife(w, steps[0].e);
        PassKeepsClear(w, steps[0].e);
      }
      WritesNeedFinalizer(w, [steps[0]]);
      assert Run(w, [steps[0]]) == Next(w, steps[0]);
      hide Reconcile;
      GoneMeansAbsent(Next(w, steps[0]), steps[1..]);
    }
  }

  // The same from the creation of the object on.
  lemma VanishedLeavesNothing(w: World, steps: seq<Step>)
    requires Fresh(w) && w.obj.spec.deletion.Delete?
    requires forall i :: 0 <= i < |steps| ==> !steps[i].Outside?
    requires forall i :: 0 <= i < |steps| && steps[i].EditSpec? ==>
               steps[i].spec.key == w.obj.spec.key && steps[i].spec.deletion.Delete?
    ensures var w' := Run(w, steps);
            && (w'.obj.gone && w'.log != [] ==> w.obj.spec.key !in w'.server)
            && forall i :: 0 <= i < |w'.log| ==> w'.log[i].finalizer
  {
    GoneMeansAbsent(w, steps);
    KeyStays(w, steps);
  }

  lemma {:induction false} KeyStays(w: World, steps: seq<Step>)
    requires forall i :: 0 <= i < |steps| && steps[i].EditSpec? ==> steps[i].spec.key == w.obj.spec.key
    ensures Run(w, steps).obj.spec.key == w.obj.spec.key
    decreases |steps|
  {
    if steps == [] {
    } else {
      if steps[0].Pass? {
        PassLife(w, steps[0].e);
      }
      hide Reconcile;
      KeyStays(Next(w, steps[0]), steps[1..]);
    }
  }
}
