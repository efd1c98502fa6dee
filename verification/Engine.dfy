// One pass of the reconcile engine as a function of the stored object, the
// server and the outcome of every external call.
//
// A pass that is cut short leaves the same state as one whose remaining calls
// all fail, so crashes need no steps of their own.

module Engine {
  import opened Wrappers
  import opened Json
  import opened Calls
  import opened LastApplied
  import opened Drivers
  import opened PostProcessing

  datatype Adoption = CreateOnly | Adopt | FailIfExists
  datatype Deletion = Orphan | Delete

  // key is the natural key; fields is the whole spec as JSON.
  datatype Spec = Spec(key: string, adoption: Adoption, deletion: Deletion, fields: Fields, wish: Wish)

  datatype Remote = Remote(rep: Fields, side: Side)

  type Server = map<string, Remote>

  datatype Reason = Retrying | Invalid | ConnectionUnavailable | AlreadyExists | SecretMissing | ProtectedRealm

  datatype Condition = Absent | Holds | Broken(reason: Reason)

  // The stored custom resource. gone: deleted and released.
  datatype Object = Object(kind: Kind, spec: Spec, allowProtected: bool,
                           finalizer: bool, deleting: bool, gone: bool,
                           annotation: Annotation, ready: Condition, synced: Condition)

  // Writes issued by the operator, with the finalizer the stored object had.
  datatype Op = Created | Updated | Deleted | Enforced
  datatype Event = Event(op: Op, key: string, finalizer: bool)

  datatype World = World(obj: Object, server: Server, log: seq<Event>)

  // Everything outside the operator's control during one pass. beforeWrite and
  // beforePost replace the server by whatever outside edits made of it, just
  // before the main write and just before post-processing. around and listing
  // are what post-processing reads of the rest of the realm, post is how it
  // ends.
  datatype Env = Env(connection: bool, store: Call, get: bool, secret: Secret,
                     beforeWrite: Option<Server>, write: Call,
                     beforePost: Option<Server>, refetch: bool,
                     around: Surroundings, listing: Listing, post: Post,
                     annotate: Call, status1: bool, status2: bool)

  datatype Outcome = Vanished | Released | NoConnection | FinalizerAdded | Failed(reason: Reason) | Retry | Done

  // ----------------------------------------------------------------- Pieces

  // The parts of the stored object the engine never writes, and the finalizer.
  predicate SameLife(o: Object, o': Object)
  {
    && o'.kind == o.kind && o'.spec == o.spec && o'.allowProtected == o.allowProtected
    && o'.deleting == o.deleting && o'.finalizer == o.finalizer && o'.gone == o.gone
  }

  // The annotation stays, or becomes the stripped spec.
  predicate SameOrRecorded(o: Object, o': Object)
  {
    o'.annotation == o.annotation || o'.annotation == Snapshot(Strip(o.kind, o.spec.fields))
  }

  // New events are for the object's own key, made in its present life, and
  // no deletions.
  predicate Extends(w: World, log: seq<Event>)
  {
    && w.log <= log
    && forall i :: |w.log| <= i < |log| ==>
         log[i].key == w.obj.spec.key && log[i].finalizer == w.obj.finalizer && !log[i].op.Deleted?
  }

  predicate Protected(o: Object)
  {
    o.kind.Realm? && o.spec.key == "master" && !o.allowProtected
  }

  // What the server adds to a representation it creates.
  function Assigned(kind: Kind, key: string): (r: Fields)
  {
    if kind.IdentityProvider? then map[] else map["id" := Str("id-" + key)]
  }

  predicate HasId(rep: Fields)
  {
    "id" in rep && rep["id"].Str? && rep["id"].s != ""
  }

  // What the stored conditions say after an outcome: a failure gives its reason
  // in both, if the second patch is stored; a retry that changes them says so.
  predicate Reported(o: Object, e: Env, r: (World, Outcome))
  {
    var o' := r.0.obj;
    && (r.1.Failed? && e.status2 ==> o'.ready == Broken(r.1.reason) && o'.synced == Broken(r.1.reason))
    && (r.1.NoConnection? && e.status2 ==>
          o'.ready == Broken(ConnectionUnavailable) && o'.synced == Broken(ConnectionUnavailable))
    && (r.1.Retry? ==> o'.ready in {o.ready, Broken(Retrying)} && o'.synced in {o.synced, Broken(Retrying)})
  }

  // The object stored after both conditions were set to c; each status patch
  // may be lost, and a later one carries what an earlier one could not store.
  function SetBoth(o: Object, e: Env, c: Condition): (r: Object)
    ensures SameLife(o, r) && r.annotation == o.annotation
  {
    if e.status2 then o.(ready := c, synced := c)
    else if e.status1 then o.(ready := c)
    else o
  }

  function SetReady(o: Object, e: Env, c: Condition): (r: Object)
    ensures SameLife(o, r) && r.annotation == o.annotation
  {
    if e.status1 then o.(ready := c) else o
  }

  function Fail(w: World, e: Env, reason: Reason): (r: (World, Outcome))
    ensures Reported(w.obj, e, r)
    ensures SameLife(w.obj, r.0.obj) && r.0.obj.annotation == w.obj.annotation
    ensures r.0.server == w.server && r.0.log == w.log && !r.1.Done?
  {
    (w.(obj := SetBoth(w.obj, e, Broken(reason))), Failed(reason))
  }

  function Again(w: World, e: Env): (r: (World, Outcome))
    ensures Reported(w.obj, e, r)
    ensures SameLife(w.obj, r.0.obj) && r.0.obj.annotation == w.obj.annotation
    ensures r.0.server == w.server && r.0.log == w.log && !r.1.Done?
  {
    (w.(obj := SetBoth(w.obj, e, Broken(Retrying))), Retry)
  }

  function Edited(w: World, edit: Option<Server>): (r: World)
  {
    if edit.Some? then w.(server := edit.value) else w
  }

  function Logged(w: World, op: Op): (r: World)
  {
    w.(log := w.log + [Event(op, w.obj.spec.key, w.obj.finalizer)])
  }

  // ------------------------------------------------------- Post-processing

  // Whether post-processing succeeded, and what it leaves. rep is the
  // representation read earlier.
  function PostApply(w: World, e: Env, rep: Fields): (r: (World, bool))
    ensures r.0.obj == w.obj && r.0.server.Keys == w.server.Keys && Extends(w, r.0.log)
  {
    var key := w.obj.spec.key;
    if !HasCollections(w.obj.kind) then (w, true)
    else if (w.obj.kind.Client? || w.obj.kind.Group?) && !HasId(rep) then (w, false)
    else if key !in w.server then (w, false)
    else if !e.post.wrote then (w, e.post.ok)
    else (Logged(w.(server := w.server[key := w.server[key].(side := e.post.after)]), Enforced), e.post.ok)
  }

  // ------------------------------------------------------------------ Steps

  // Records the stripped spec, then reports success.
  function Finalize(w: World, e: Env): (r: (World, Outcome))
    ensures Reported(w.obj, e, r)
    ensures SameOrRecorded(w.obj, r.0.obj)
    ensures SameLife(w.obj, r.0.obj) && r.0.server == w.server && r.0.log == w.log
  {
    var snapshot := Snapshot(Strip(w.obj.kind, w.obj.spec.fields));
    var needed := w.obj.annotation != snapshot;
    var recorded := if needed && e.annotate.Took() then w.obj.(annotation := snapshot) else w.obj;
    if needed && !e.annotate.Ok? then (w.(obj := recorded), Retry)
    else (w.(obj := SetBoth(recorded, e, Holds)), Done)
  }

  function FinishPass(w: World, e: Env, rep: Fields): (r: (World, Outcome))
    ensures Reported(w.obj, e, r)
    ensures SameOrRecorded(w.obj, r.0.obj)
    ensures SameLife(w.obj, r.0.obj) && Extends(w, r.0.log)
  {
    var (posted, ok) := PostApply(Edited(w, e.beforePost), e, rep);
    if ok then Finalize(posted, e) else Fail(posted, e, Invalid)
  }

  // The server after a create request: what it was sent, and what it assigns.
  function Make(w: World, payload: Fields): (r: World)
    ensures r.obj == w.obj && r.server.Keys == w.server.Keys + {w.obj.spec.key}
    ensures r.log == w.log + [Event(Created, w.obj.spec.key, w.obj.finalizer)]
  {
    var key := w.obj.spec.key;
    Logged(w.(server := w.server[key := Remote(payload + Assigned(w.obj.kind, key), NO_SIDE)]), Created)
  }

  // The server after an update request: the body is the representation read
  // earlier with the payload over it, laid over what the server holds now.
  function Put(w: World, remote: Fields, payload: Fields): (r: World)
    requires w.obj.spec.key in w.server
    ensures r.obj == w.obj && r.server.Keys == w.server.Keys
    ensures r.log == w.log + [Event(Updated, w.obj.spec.key, w.obj.finalizer)]
  {
    var current := w.server[w.obj.spec.key];
    Logged(w.(server := w.server[w.obj.spec.key := current.(rep := current.rep + Overlay(remote, payload))]), Updated)
  }

  // The rest of a pass whose create request reached the server.
  function AfterCreate(made: World, e: Env): (r: (World, Outcome))
    ensures Reported(made.obj, e, r)
    ensures SameOrRecorded(made.obj, r.0.obj)
    ensures SameLife(made.obj, r.0.obj) && Extends(made, r.0.log)
  {
    var later := Edited(made, e.beforePost);
    if e.write.DoneButFailed? then Again(made, e)
    else if !e.refetch || made.obj.spec.key !in later.server
    then (later.(obj := SetReady(later.obj, e, Broken(Retrying))), Retry)
    else FinishPass(made, e, later.server[made.obj.spec.key].rep)
  }

  function SendCreate(found: World, e: Env, payload: Fields): (r: (World, Outcome))
    ensures Reported(found.obj, e, r)
    ensures SameOrRecorded(found.obj, r.0.obj)
    ensures SameLife(found.obj, r.0.obj) && Extends(found, r.0.log)
  {
    if e.write.NotDone? then Again(found, e)
    else if e.write.Refused? then Fail(found, e, AlreadyExists)
    else if found.obj.spec.key in found.server then
      if e.write.Ok? then Fail(found, e, AlreadyExists) else Again(found, e)
    else AfterCreate(Make(found, payload), e)
  }

  function HandleCreate(w: World, e: Env, effective: Fields): (r: (World, Outcome))
    ensures Reported(w.obj, e, r)
    ensures SameOrRecorded(w.obj, r.0.obj)
    ensures SameLife(w.obj, r.0.obj) && Extends(w, r.0.log)
  {
    var payload := CreatePayload(w.obj.kind, e.secret, effective);
    if payload.None? then Fail(w, e, SecretMissing)
    else SendCreate(Edited(w, e.beforeWrite), e, payload.value)
  }

  predicate Ours(o: Object, rep: Fields)
  {
    IsManaged(o.kind, rep) || !o.annotation.Unset?
  }

  function SendUpdate(found: World, e: Env, remote: Fields, payload: Fields): (r: (World, Outcome))
    ensures Reported(found.obj, e, r)
    ensures SameOrRecorded(found.obj, r.0.obj)
    ensures SameLife(found.obj, r.0.obj) && Extends(found, r.0.log)
  {
    if e.write.Refused? then Fail(found, e, AlreadyExists)
    else if e.write.NotDone? || found.obj.spec.key !in found.server then Again(found, e)
    else
      var made := Put(found, remote, payload);
      if e.write.DoneButFailed? then Again(made, e) else FinishPass(made, e, remote)
  }

  function HandleExisting(w: World, e: Env, effective: Fields, remote: Fields): (r: (World, Outcome))
    ensures Reported(w.obj, e, r)
    ensures SameOrRecorded(w.obj, r.0.obj)
    ensures SameLife(w.obj, r.0.obj) && Extends(w, r.0.log)
  {
    var adopting := !Ours(w.obj, remote) && w.obj.spec.adoption.Adopt?;
    if w.obj.spec.adoption.FailIfExists? then Fail(w, e, AlreadyExists)
    else if !Ours(w.obj, remote) && !adopting then Fail(w, e, AlreadyExists)
    else
      var payload := UpdatePayload(w.obj.kind, e.secret, effective);
      if payload.None? then Fail(w, e, SecretMissing)
      else if adopting || Differs(remote, payload.value)
      then SendUpdate(Edited(w, e.beforeWrite), e, remote, payload.value)
      else FinishPass(Edited(w, e.beforeWrite), e, remote)
  }

  // Removes the finalizer; the store then drops the object.
  function Release(w: World, e: Env): (r: (World, Outcome))
    ensures Reported(w.obj, e, r)
    ensures !r.1.Done?
  {
    var released := w.(obj := w.obj.(finalizer := false, gone := true));
    (if e.store.Took() then released else w, if e.store.Ok? then Released else Retry)
  }

  function HandleDeletion(w: World, e: Env): (r: (World, Outcome))
    ensures Reported(w.obj, e, r)
    ensures !r.1.Done?
  {
    var found := Edited(w, e.beforeWrite);
    if !e.write.Took() then (found, Retry)
    else
      var key := w.obj.spec.key;
      var made := if key in found.server then Logged(found.(server := found.server - {key}), Deleted) else found;
      if e.write.Ok? then Release(made, e) else (made, Retry)
  }

  function AddFinalizer(w: World, e: Env): (r: (World, Outcome))
    ensures Reported(w.obj, e, r)
    ensures !r.1.Done?
  {
    var added := w.(obj := w.obj.(finalizer := true));
    (if e.store.Took() then added else w, if e.store.Ok? then FinalizerAdded else Retry)
  }

  function Reconcile(w: World, e: Env): (r: (World, Outcome))
  {
    var o := w.obj;
    if o.gone then (w, Vanished)
    else if o.deleting && o.spec.deletion.Orphan? then Release(w, e)
    else if !e.connection then (w.(obj := SetBoth(o, e, Broken(ConnectionUnavailable))), NoConnection)
    else if o.deleting then HandleDeletion(w, e)
    else if !o.finalizer then AddFinalizer(w, e)
    else if Protected(o) then Fail(w, e, ProtectedRealm)
    else
      var effective := Effective(Strip(o.kind, o.spec.fields), o.annotation);
      if effective.None? then Fail(w, e, Invalid)
      else if !e.get then Again(w, e)
      else if o.spec.key !in w.server then HandleCreate(w, e, effective.value)
      else HandleExisting(w, e, effective.value, w.server[o.spec.key].rep)
  }
}
