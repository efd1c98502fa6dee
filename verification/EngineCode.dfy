// The engine as the operator runs it: methods that update the object in
// memory, patch it into the store call by call, write to the server and run the
// enforcer of the kind.

module EngineCode {
  import opened Wrappers
  import opened Json
  import LastApplied
  import RoleMappings
  import opened Drivers
  import opened PostProcessing
  import opened Engine
  import opened EngineLaws

  datatype ConditionType = Ready | Synced

  // The environment as it turned out: post-processing ran on the collections of
  // w, read them in this order and ended like this, or was not reached by a
  // pass that was not done.
  ghost predicate TurnedOut(w: World, e: Env, seen: Env, done: bool)
  {
    && seen == e.(listing := seen.listing, post := seen.post)
    && (Undisturbed(e) ==> Fair(w, seen) || (seen == e && !done))
  }

  lemma NotReached(w: World, e: Env)
    ensures TurnedOut(w, e, e, false)
  {
  }

  lemma Reached(w: World, e: Env, seen: Env, done: bool)
    requires seen == e.(listing := seen.listing, post := seen.post) && Fair(w, seen)
    ensures TurnedOut(w, e, seen, done)
  {
    hide Possible;
  }

  lemma NothingDone(w: World, e: Env, seen: Env, done: bool)
    requires !HasCollections(w.obj.kind) && seen == e.(post := Post(true, SideAt(w), false))
    ensures TurnedOut(w, e, seen, done)
  {
    NothingToEnforce(JobOf(w.obj, e.around), e.listing, SideAt(w));
    assert Fair(w, seen);
  }

  // The collections are the same after the main write.
  lemma TurnedOutLater(w: World, later: World, e: Env, seen: Env, done: bool)
    requires TurnedOut(later, e, seen, done)
    requires Undisturbed(e) ==> SideAt(later) == SideAt(w) && later.obj == w.obj
    ensures TurnedOut(w, e, seen, done)
  {
    hide Possible;
  }

  // Everything but post-processing is as it was.
  lemma SameCalls(w: World, e: Env, seen: Env, done: bool)
    requires TurnedOut(w, e, seen, done)
    ensures seen == e.(listing := seen.listing, post := seen.post)
    ensures seen.secret == e.secret && seen.write == e.write && seen.refetch == e.refetch && seen.annotate == e.annotate
    ensures seen.beforeWrite == e.beforeWrite && seen.beforePost == e.beforePost
    ensures seen.connection == e.connection && seen.get == e.get && seen.store == e.store
    ensures seen.status1 == e.status1 && seen.status2 == e.status2
  {
    hide Fair;
  }

  class Controller {
    // What the Kubernetes API and the server hold.
    var stored: Object
    var server: Server
    var log: seq<Event>
    // The status conditions of the object in memory.
    var ready: Condition
    var synced: Condition

    ghost function Whole(): World
      reads this
    {
      World(stored, server, log)
    }

    // The object in memory was just read.
    ghost predicate Current()
      reads this
    {
      ready == stored.ready && synced == stored.synced
    }

    constructor (stored: Object, server: Server)
      ensures this.stored == stored && this.server == server && log == [] && Current()
    {
      this.stored, this.server, this.log := stored, server, [];
      this.ready, this.synced := stored.ready, stored.synced;
    }

    // Sets one condition in memory and patches the status; a lost patch is only
    // logged.
    method SetCondition(which: ConditionType, c: Condition, patched: bool)
      modifies this`ready, this`synced, this`stored
      ensures ready == (if which.Ready? then c else old(ready))
      ensures synced == (if which.Synced? then c else old(synced))
      ensures stored == if patched then old(stored).(ready := ready, synced := synced) else old(stored)
    {
      if which.Ready? {
        ready := c;
      } else {
        synced := c;
      }
      if patched {
        stored := stored.(ready := ready, synced := synced);
      }
    }

    method SetBothConditions(e: Env, c: Condition)
      requires Current()
      modifies this`ready, this`synced, this`stored
      ensures stored == SetBoth(old(stored), e, c)
    {
      SetCondition(Ready, c, e.status1);
      SetCondition(Synced, c, e.status2);
    }

    method FailPass(e: Env, reason: Reason) returns (out: Outcome)
      requires Current()
      modifies this`ready, this`synced, this`stored
      ensures (Whole(), out) == Fail(old(Whole()), e, reason)
    {
      SetBothConditions(e, Broken(reason));
      out := Failed(reason);
    }

    method RetryPass(e: Env) returns (out: Outcome)
      requires Current()
      modifies this`ready, this`synced, this`stored
      ensures (Whole(), out) == Again(old(Whole()), e)
    {
      SetBothConditions(e, Broken(Retrying));
      out := Retry;
    }

    // Outside edits that happen now.
    method Interfere(edit: Option<Server>)
      modifies this`server
      ensures Whole() == Edited(old(Whole()), edit)
    {
      if edit.Some? {
        server := edit.value;
      }
    }

    method Record(op: Op)
      modifies this`log
      ensures Whole() == Logged(old(Whole()), op)
    {
      log := log + [Event(op, stored.spec.key, stored.finalizer)];
    }

    method EnforceCollections(e: Env, rep: Fields) returns (ok: bool, ghost seen: Env)
      requires RoleMappings.Distinct(e.around.dir)
      modifies this`server, this`log
      ensures TurnedOut(old(Whole()), e, seen, ok)
      ensures (Whole(), ok) == PostApply(old(Whole()), seen, rep)
    {
      hide Fair, TurnedOut;
      if !HasCollections(stored.kind) {
        seen := e.(post := Post(true, SideAt(Whole()), false));
        NothingDone(Whole(), e, seen, true);
        return true, seen;
      }
      hide SideAt;
      NotReached(Whole(), e);
      if (stored.kind.Client? || stored.kind.Group?) && !HasId(rep) {
        return false, e;
      }
      if stored.spec.key !in server {
        return false, e;
      }
      var listing, post := Process(e, rep);
      seen := e.(listing := listing, post := post);
      Reached(Whole(), e, seen, post.ok);
      ok := post.ok;
      if post.wrote {
        StoreCollections(post.after);
      }
    }

    method StoreCollections(side: Side)
      requires stored.spec.key in server
      modifies this`server, this`log
      ensures var remote := old(server)[stored.spec.key].(side := side);
              Whole() == Logged(old(Whole()).(server := old(server)[stored.spec.key := remote]), Enforced)
    {
      server := server[stored.spec.key := server[stored.spec.key].(side := side)];
      Record(Enforced);
    }

    // Runs the enforcer on the collections as the server holds them now.
    method Process(e: Env, rep: Fields) returns (listing: Listing, post: Post)
      requires stored.spec.key in server && RoleMappings.Distinct(e.around.dir)
      ensures Fair(Whole(), e.(listing := listing, post := post))
    {
      hide Possible, Reads;
      var job := Job(stored.kind, stored.spec.key, stored.spec.wish, e.around);
      listing := TakeListing(job, server[stored.spec.key].side);
      post := RunEnforcer(job, listing, if HasId(rep) then rep["id"].s else "", server[stored.spec.key].side);
    }

    method RecordAndReport(e: Env) returns (out: Outcome)
      requires Current()
      modifies this`ready, this`synced, this`stored
      ensures (Whole(), out) == Finalize(old(Whole()), e)
    {
      var snapshot := LastApplied.Snapshot(Strip(stored.kind, stored.spec.fields));
      if stored.annotation != snapshot {
        if e.annotate.Took() {
          stored := stored.(annotation := snapshot);
        }
        if !e.annotate.Ok? {
          return Retry;
        }
      }
      SetBothConditions(e, Holds);
      out := Done;
    }

    method Finish(e: Env, rep: Fields) returns (out: Outcome, ghost seen: Env)
      requires Current() && RoleMappings.Distinct(e.around.dir)
      modifies this
      ensures TurnedOut(old(Whole()), e, seen, out.Done?)
      ensures (Whole(), out) == FinishPass(old(Whole()), seen, rep)
    {
      hide PostApply, Finalize, Fail, Possible;
      Interfere(e.beforePost);
      var ok;
      ok, seen := EnforceCollections(e, rep);
      if ok {
        out := RecordAndReport(e);
      } else {
        out := FailPass(e, Invalid);
      }
      SameReport(e, seen);
    }

    method CreateResource(e: Env, effective: Fields) returns (out: Outcome, ghost seen: Env)
      requires Current() && RoleMappings.Distinct(e.around.dir)
      modifies this
      ensures TurnedOut(old(Whole()), e, seen, out.Done?)
      ensures (Whole(), out) == HandleCreate(old(Whole()), seen, effective)
    {
      var payload := CreatePayload(stored.kind, e.secret, effective);
      if payload.None? {
        out := FailPass(e, SecretMissing);
        NotReached(old(Whole()), e);
        return out, e;
      }
      hide CreatePayload, SendCreate, Fail, TurnedOut;
      Interfere(e.beforeWrite);
      out, seen := SendCreateRequest(e, payload.value);
      TurnedOutLater(old(Whole()), Edited(old(Whole()), e.beforeWrite), e, seen, out.Done?);
      SameCalls(old(Whole()), e, seen, out.Done?);
    }

    method SendCreateRequest(e: Env, payload: Fields) returns (out: Outcome, ghost seen: Env)
      requires Current() && RoleMappings.Distinct(e.around.dir)
      modifies this
      ensures TurnedOut(old(Whole()), e, seen, out.Done?)
      ensures (Whole(), out) == SendCreate(old(Whole()), seen, payload)
    {
      hide FinishPass, TurnedOut, AfterCreate;
      NotReached(Whole(), e);
      var key := stored.spec.key;
      if e.write.NotDone? {
        out := RetryPass(e);
        return out, e;
      } else if e.write.Refused? || (key in server && e.write.Ok?) {
        out := FailPass(e, AlreadyExists);
        return out, e;
      } else if key in server {
        out := RetryPass(e);
        return out, e;
      }
      WriteCreate(payload);
      ghost var made := Whole();
      hide Make, Fail, Again, SideAt;
      out, seen := AfterCreateRequest(e);
      SameCalls(made, e, seen, out.Done?);
      SameReport(e, seen);
      TurnedOutLater(old(Whole()), made, e, seen, out.Done?);
    }

    method AfterCreateRequest(e: Env) returns (out: Outcome, ghost seen: Env)
      requires Current() && RoleMappings.Distinct(e.around.dir)
      modifies this
      ensures TurnedOut(old(Whole()), e, seen, out.Done?)
      ensures (Whole(), out) == AfterCreate(old(Whole()), seen)
    {
      hide FinishPass, Possible;
      if e.write.DoneButFailed? {
        out := RetryPass(e);
        return out, e;
      }
      var found := if e.beforePost.Some? then e.beforePost.value else server;
      if !e.refetch || stored.spec.key !in found {
        server := found;
        SetCondition(Ready, Broken(Retrying), e.status1);
        return Retry, e;
      }
      out, seen := Finish(e, found[stored.spec.key].rep);
    }

    method UpdateResource(e: Env, effective: Fields, remote: Fields) returns (out: Outcome, ghost seen: Env)
      requires Current() && RoleMappings.Distinct(e.around.dir)
      modifies this
      ensures TurnedOut(old(Whole()), e, seen, out.Done?)
      ensures (Whole(), out) == HandleExisting(old(Whole()), seen, effective, remote)
    {
      hide FinishPass, Fail, SendUpdate, UpdatePayload, LastApplied.Differs, Ours, TurnedOut;
      NotReached(Whole(), e);
      if stored.spec.adoption.FailIfExists? {
        out := FailPass(e, AlreadyExists);
        return out, e;
      }
      var adopting := false;
      if !Ours(stored, remote) {
        if !stored.spec.adoption.Adopt? {
          out := FailPass(e, AlreadyExists);
          return out, e;
        }
        adopting := true;
      }
      var payload := UpdatePayload(stored.kind, e.secret, effective);
      if payload.None? {
        out := FailPass(e, SecretMissing);
        return out, e;
      }
      var changed := adopting;
      if !changed {
        changed := LastApplied.PayloadDiffers(remote, payload.value);
      }
      Interfere(e.beforeWrite);
      if changed {
        out, seen := SendUpdateRequest(e, remote, payload.value);
      } else {
        out, seen := Finish(e, remote);
      }
      TurnedOutLater(old(Whole()), Edited(old(Whole()), e.beforeWrite), e, seen, out.Done?);
      SameCalls(old(Whole()), e, seen, out.Done?);
      SameReport(e, seen);
    }

    // The update request reaches the server.
    method WriteUpdate(remote: Fields, payload: Fields)
      requires stored.spec.key in server
      modifies this`server, this`log
      ensures Whole() == Put(old(Whole()), remote, payload)
      ensures SideAt(Whole()) == SideAt(old(Whole()))
    {
      var key := stored.spec.key;
      var merged := LastApplied.MergePayload(remote, payload);
      server := server[key := server[key].(rep := server[key].rep + merged)];
      Record(Updated);
    }

    // The create request reaches the server.
    method WriteCreate(payload: Fields)
      requires stored.spec.key !in server
      modifies this`server, this`log
      ensures Whole() == Make(old(Whole()), payload)
      ensures SideAt(Whole()) == SideAt(old(Whole()))
    {
      var key := stored.spec.key;
      server := server[key := Remote(payload + Assigned(stored.kind, key), NO_SIDE)];
      Record(Created);
    }

    method SendUpdateRequest(e: Env, remote: Fields, payload: Fields) returns (out: Outcome, ghost seen: Env)
      requires Current() && RoleMappings.Distinct(e.around.dir)
      modifies this
      ensures TurnedOut(old(Whole()), e, seen, out.Done?)
      ensures (Whole(), out) == SendUpdate(old(Whole()), seen, remote, payload)
    {
      hide FinishPass, LastApplied.Overlay, TurnedOut;
      NotReached(Whole(), e);
      var key := stored.spec.key;
      if e.write.Refused? {
        out := FailPass(e, AlreadyExists);
        return out, e;
      }
      if e.write.NotDone? || key !in server {
        out := RetryPass(e);
        return out, e;
      }
      WriteUpdate(remote, payload);
      ghost var made := Whole();
      hide Put, Fail, Again, SideAt;
      if e.write.DoneButFailed? {
        out := RetryPass(e);
        return out, e;
      }
      out, seen := Finish(e, remote);
      TurnedOutLater(old(Whole()), made, e, seen, out.Done?);
      SameCalls(old(Whole()), e, seen, out.Done?);
    }

    method ReleaseObject(e: Env) returns (out: Outcome)
      modifies this`stored
      ensures (Whole(), out) == Release(old(Whole()), e)
    {
      if e.store.Took() {
        stored := stored.(finalizer := false, gone := true);
      }
      out := if e.store.Ok? then Released else Retry;
    }

    method DeleteResource(e: Env) returns (out: Outcome)
      modifies this`stored, this`server, this`log
      ensures (Whole(), out) == HandleDeletion(old(Whole()), e)
    {
      Interfere(e.beforeWrite);
      if !e.write.Took() {
        return Retry;
      }
      if stored.spec.key in server {
        server := server - {stored.spec.key};
        Record(Deleted);
      }
      if !e.write.Ok? {
        return Retry;
      }
      out := ReleaseObject(e);
    }

    // One pass: reads the object, then acts on it. What it does is the pass
    // function at an environment whose post-processing the enforcers produced.
    method ReconcileObject(e: Env) returns (out: Outcome, ghost seen: Env)
      requires RoleMappings.Distinct(e.around.dir)
      modifies this
      ensures TurnedOut(old(Whole()), e, seen, out.Done?)
      ensures (Whole(), out) == Reconcile(old(Whole()), seen)
    {
      hide HandleCreate, HandleExisting, HandleDeletion, Release, Fail, Again, Strip, LastApplied.Effective, Possible;
      ready, synced := stored.ready, stored.synced;
      seen := e;
      if stored.gone {
        return Vanished, e;
      }
      if stored.deleting && stored.spec.deletion.Orphan? {
        out := ReleaseObject(e);
        return;
      }
      if !e.connection {
        SetBothConditions(e, Broken(ConnectionUnavailable));
        return NoConnection, e;
      }
      if stored.deleting {
        out := DeleteResource(e);
        return;
      }
      if !stored.finalizer {
        if e.store.Took() {
          stored := stored.(finalizer := true);
        }
        return if e.store.Ok? then FinalizerAdded else Retry, e;
      }
      if Protected(stored) {
        out := FailPass(e, ProtectedRealm);
        return;
      }
      var effective := LastApplied.EffectivePayload(Strip(stored.kind, stored.spec.fields), stored.annotation);
      if effective.None? {
        out := FailPass(e, Invalid);
        return;
      }
      if !e.get {
        out := RetryPass(e);
        return;
      }
      if stored.spec.key !in server {
        out, seen := CreateResource(e, effective.value);
      } else {
        out, seen := UpdateResource(e, effective.value, server[stored.spec.key].rep);
      }
    }
  }

  // Status reports and records do not depend on post-processing.
  lemma SameReport(e: Env, seen: Env)
    requires seen == e.(listing := seen.listing, post := seen.post)
    ensures forall w, reason :: Fail(w, seen, reason) == Fail(w, e, reason)
    ensures forall w :: Finalize(w, seen) == Finalize(w, e)
  {
    hide Strip;
  }
}
