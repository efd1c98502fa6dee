// What one pass of the engine guarantees.

module EngineLaws {
  import opened Wrappers
  import opened Json
  import opened LastApplied
  import opened PayloadLaws
  import opened Drivers
  import opened PostProcessing
  import opened Engine

  // No outside edit happens while the pass runs.
  predicate Undisturbed(e: Env)
  {
    e.beforeWrite.None? && e.beforePost.None?
  }

  // What the pass enforces on the representation, if it gets that far.
  function Payload(o: Object, secret: Secret): (r: Option<Fields>)
  {
    var effective := Effective(Strip(o.kind, o.spec.fields), o.annotation);
    if effective.None? then None else UpdatePayload(o.kind, secret, effective.value)
  }

  // The annotation holds the stripped spec.
  predicate Recorded(o: Object)
  {
    o.annotation == Snapshot(Strip(o.kind, o.spec.fields))
  }

  // The stored object keeps its identity, and the annotation either stays or
  // becomes the stripped spec.
  ghost predicate SameObject(w: World, w': World)
  {
    && w'.obj.spec == w.obj.spec && w'.obj.kind == w.obj.kind && w'.obj.deleting == w.obj.deleting
    && w'.obj.allowProtected == w.obj.allowProtected
    && SameOrRecorded(w.obj, w'.obj)
  }

  // The server may differ at the object's own key only.
  ghost predicate OwnKeyOnly(w: World, w': World)
  {
    forall q :: q != w.obj.spec.key ==>
      (q in w'.server <==> q in w.server) && (q in w.server ==> w'.server[q] == w.server[q])
  }

  // Representations are as before.
  ghost predicate SameReps(w: World, w': World)
  {
    w'.server.Keys == w.server.Keys && forall q :: q in w.server ==> w'.server[q].rep == w.server[q].rep
  }

  function JobOf(o: Object, around: Surroundings): (r: Job)
  {
    Job(o.kind, o.spec.key, o.spec.wish, around)
  }

  // The collections a pass starts from.
  function SideAt(w: World): (r: Side)
  {
    if w.obj.spec.key in w.server then w.server[w.obj.spec.key].side else NO_SIDE
  }

  // Every collection of the resource is as desired.
  ghost predicate Settled(w: World, around: Surroundings)
  {
    w.obj.spec.key in w.server && Goal(JobOf(w.obj, around), SideAt(w))
  }

  // Post-processing, if the pass gets there, does what the enforcers can do.
  ghost predicate Fair(w: World, e: Env)
  {
    Possible(JobOf(w.obj, e.around), e.listing, SideAt(w), e.post)
  }

  // Post-processing succeeded and left this.
  predicate Posted(w: World, e: Env, w': World)
  {
    && w.obj.spec.key in w'.server
    && (if HasCollections(w.obj.kind) then e.post.ok && SideAt(w') == (if e.post.wrote then e.post.after else SideAt(w))
        else SideAt(w') == SideAt(w))
    && w'.obj.kind == w.obj.kind && w'.obj.spec == w.obj.spec
  }

  // It touches nothing but the collections of its own resource.
  ghost predicate SideOnly(w: World, w': World)
  {
    w'.obj == w.obj && OwnKeyOnly(w, w') && SameReps(w, w')
  }

  predicate NeedsId(kind: Kind)
  {
    kind.Client? || kind.Group?
  }

  lemma PostShape(w: World, e: Env, rep: Fields)
    ensures SideOnly(w, PostApply(w, e, rep).0)
    ensures PostApply(w, e, rep).1 && NeedsId(w.obj.kind) ==> HasId(rep)
    ensures PostApply(w, e, rep).1 && w.obj.spec.key in w.server ==> Posted(w, e, PostApply(w, e, rep).0)
  {
  }

  // Finalize changes the stored object only.
  ghost predicate ObjectOnly(w: World, w': World)
  {
    && w'.server == w.server && w'.log == w.log && SameObject(w, w') && SameLife(w.obj, w'.obj)
  }

  lemma FinalizeShape(w: World, e: Env)
    ensures ObjectOnly(w, Finalize(w, e).0)
    ensures Finalize(w, e).1.Done? ==> Recorded(Finalize(w, e).0.obj)
  {
    hide Strip;
  }

  lemma FinishShape(w: World, e: Env, rep: Fields)
    requires e.beforePost.None?
    ensures var w' := FinishPass(w, e, rep).0;
            && SameObject(w, w') && OwnKeyOnly(w, w') && SameReps(w, w') && SameLife(w.obj, w'.obj)
            && (w.obj.spec.key in w.server && Progress(w, FinishPass(w, e, rep)) ==> Posted(w, e, w'))
            && (FinishPass(w, e, rep).1.Done? ==> Recorded(w'.obj) && (NeedsId(w.obj.kind) ==> HasId(rep)))
  {
    PostShape(w, e, rep);
    var posted := PostApply(w, e, rep).0;
    FinalizeShape(posted, e);
    hide PostApply, Finalize;
  }

  // Everything an undisturbed pass can do, whatever fails on the way: keep the
  // representation, lay the payload over it, create it from the payload, or
  // remove it while the object is being deleted.
  ghost predicate Shape(w: World, payload: Option<Fields>, w': World)
  {
    var key := w.obj.spec.key;
    && SameObject(w, w')
    && OwnKeyOnly(w, w')
    && (key in w.server && key in w'.server ==>
          var rep := w.server[key].rep;
          w'.server[key].rep == rep || (payload.Some? && w'.server[key].rep == rep + Overlay(rep, payload.value)))
    && (key !in w.server && key in w'.server ==>
          payload.Some? && !w.obj.deleting && w'.server[key].rep == payload.value + Assigned(w.obj.kind, key))
    && (key in w.server && key !in w'.server ==> w.obj.deleting)
  }

  lemma StatusOnly(w: World, e: Env, reason: Reason)
    ensures ObjectOnly(w, Fail(w, e, reason).0) && ObjectOnly(w, Again(w, e).0)
  {
  }

  // What follows the main write adds nothing to its shape.
  lemma ShapeThen(w: World, payload: Option<Fields>, made: World, w': World)
    requires Shape(w, payload, made) && made.obj == w.obj && made.server.Keys == w.server.Keys + {w.obj.spec.key}
    requires SameObject(made, w') && OwnKeyOnly(made, w') && SameReps(made, w')
    ensures Shape(w, payload, w')
  {
  }

  lemma MakeShape(w: World, payload: Fields)
    requires w.obj.spec.key !in w.server
    ensures var made := Make(w, payload);
            && (!w.obj.deleting ==> Shape(w, Some(payload), made))
            && made.obj == w.obj && made.server.Keys == w.server.Keys + {w.obj.spec.key} && SideAt(made) == SideAt(w)
            && made.server[w.obj.spec.key].rep == payload + Assigned(w.obj.kind, w.obj.spec.key)
  {
  }

  lemma PutShape(w: World, payload: Fields)
    requires w.obj.spec.key in w.server
    ensures var made := Put(w, w.server[w.obj.spec.key].rep, payload);
            && Shape(w, Some(payload), made) && made.obj == w.obj && made.server.Keys == w.server.Keys
            && SideAt(made) == SideAt(w)
            && made.server[w.obj.spec.key].rep ==
                 w.server[w.obj.spec.key].rep + Overlay(w.server[w.obj.spec.key].rep, payload)
  {
    hide Overlay;
  }

  lemma QuietShape(w: World, payload: Option<Fields>, w': World)
    requires ObjectOnly(w, w')
    ensures Shape(w, payload, w')
  {
  }

  lemma CreateShape(w: World, e: Env, effective: Fields)
    requires Undisturbed(e) && w.obj.spec.key !in w.server && !w.obj.deleting
    ensures Shape(w, UpdatePayload(w.obj.kind, e.secret, effective), HandleCreate(w, e, effective).0)
  {
    PipelinesAgree(w.obj.kind, e.secret, effective);
    hide FinishPass, CreatePayload, UpdatePayload, Make, Shape;
    var payload, w' := CreatePayload(w.obj.kind, e.secret, effective), HandleCreate(w, e, effective).0;
    if payload.None? || !e.write.Took() {
      StatusOnly(w, e, SecretMissing);
      StatusOnly(w, e, AlreadyExists);
      QuietShape(w, payload, w');
    } else {
      var made := Make(w, payload.value);
      MakeShape(w, payload.value);
      StatusOnly(made, e, Retrying);
      FinishShape(made, e, made.server[w.obj.spec.key].rep);
      ShapeThen(w, payload, made, w');
    }
  }

  lemma UpdateShape(w: World, e: Env, payload: Fields)
    requires Undisturbed(e) && w.obj.spec.key in w.server
    ensures Shape(w, Some(payload), SendUpdate(w, e, w.server[w.obj.spec.key].rep, payload).0)
  {
    hide FinishPass, Put, Shape;
    var rep := w.server[w.obj.spec.key].rep;
    var made, w' := Put(w, rep, payload), SendUpdate(w, e, rep, payload).0;
    PutShape(w, payload);
    if e.write.Took() {
      FinishShape(made, e, rep);
      StatusOnly(made, e, Retrying);
      ShapeThen(w, Some(payload), made, w');
    } else {
      StatusOnly(w, e, AlreadyExists);
      QuietShape(w, Some(payload), w');
    }
  }

  lemma ExistingShape(w: World, e: Env, effective: Fields)
    requires Undisturbed(e) && w.obj.spec.key in w.server && !w.obj.deleting
    ensures Shape(w, UpdatePayload(w.obj.kind, e.secret, effective),
                  HandleExisting(w, e, effective, w.server[w.obj.spec.key].rep).0)
  {
    hide FinishPass, SendUpdate, UpdatePayload, Differs, Shape, Ours;
    var rep := w.server[w.obj.spec.key].rep;
    var payload, w' := UpdatePayload(w.obj.kind, e.secret, effective), HandleExisting(w, e, effective, rep).0;
    if ObjectOnly(w, w') {
      QuietShape(w, payload, w');
    } else if w' == FinishPass(w, e, rep).0 {
      FinishShape(w, e, rep);
      QuietShape(w, payload, w);
      ShapeThen(w, payload, w, w');
    } else {
      StatusOnly(w, e, SecretMissing);
      StatusOnly(w, e, AlreadyExists);
      UpdateShape(w, e, payload.value);
    }
  }

  // The branches that come before the spec is even looked at.
  predicate Reaches(w: World, e: Env)
  {
    !w.obj.gone && !w.obj.deleting && e.connection && w.obj.finalizer && !Protected(w.obj) && e.get
    && Effective(Strip(w.obj.kind, w.obj.spec.fields), w.obj.annotation).Some?
  }

  lemma EarlyShape(w: World, e: Env, payload: Option<Fields>)
    requires Undisturbed(e) && !Reaches(w, e)
    ensures Shape(w, payload, Reconcile(w, e).0)
  {
    hide HandleCreate, HandleExisting, Effective, Strip;
  }

  lemma PassShape(w: World, e: Env)
    requires Undisturbed(e)
    ensures Shape(w, Payload(w.obj, e.secret), Reconcile(w, e).0)
  {
    hide HandleCreate, HandleExisting, UpdatePayload, Shape, Effective, Strip;
    if !Reaches(w, e) {
      EarlyShape(w, e, Payload(w.obj, e.secret));
    } else {
      var effective := Effective(Strip(w.obj.kind, w.obj.spec.fields), w.obj.annotation).value;
      if w.obj.spec.key in w.server {
        ExistingShape(w, e, effective);
      } else {
        CreateShape(w, e, effective);
      }
    }
  }

  // ---------------------------------------------------- What success implies

  // The main write as a pass that goes on to record the spec must have seen
  // it: the representation was created from the payload, already agreed with
  // it, or had it laid over.
  ghost predicate Applied(w: World, payload: Fields, w': World)
  {
    var key := w.obj.spec.key;
    && key in w'.server
    && var rep' := w'.server[key].rep;
       if key !in w.server then rep' == payload + Assigned(w.obj.kind, key)
       else
         var rep := w.server[key].rep;
         (rep' == rep && !Differs(rep, payload)) || rep' == rep + Overlay(rep, payload)
  }

  // The pass ended well, or at least changed the annotation.
  predicate Progress(w: World, r: (World, Outcome))
  {
    r.1.Done? || r.0.obj.annotation != w.obj.annotation
  }

  // The only way for a pass over an absent resource to succeed.
  lemma CreateControl(w: World, e: Env, effective: Fields)
    requires Undisturbed(e) && w.obj.spec.key !in w.server && Progress(w, HandleCreate(w, e, effective))
    ensures var payload := CreatePayload(w.obj.kind, e.secret, effective);
            && payload.Some?
            && var made := Make(w, payload.value);
               w.obj.spec.key in made.server
               && HandleCreate(w, e, effective) == FinishPass(made, e, made.server[w.obj.spec.key].rep)
  {
    hide FinishPass, CreatePayload, Assigned;
  }

  lemma CreateApplied(w: World, e: Env, effective: Fields)
    requires Undisturbed(e) && w.obj.spec.key !in w.server && Progress(w, HandleCreate(w, e, effective))
    ensures var payload := UpdatePayload(w.obj.kind, e.secret, effective);
            payload.Some? && Applied(w, payload.value, HandleCreate(w, e, effective).0)
            && Posted(w, e, HandleCreate(w, e, effective).0)
    ensures HandleCreate(w, e, effective).1.Done? ==> Recorded(HandleCreate(w, e, effective).0.obj)
    ensures SameLife(w.obj, HandleCreate(w, e, effective).0.obj)
  {
    PipelinesAgree(w.obj.kind, e.secret, effective);
    CreateControl(w, e, effective);
    hide HandleCreate, FinishPass, CreatePayload, UpdatePayload, Make, OwnKeyOnly, SameObject, Shape;
    var payload := CreatePayload(w.obj.kind, e.secret, effective).value;
    MakeShape(w, payload);
    FinishShape(Make(w, payload), e, Make(w, payload).server[w.obj.spec.key].rep);
  }

  // The only two ways for a pass over an existing resource to succeed.
  lemma ExistingControl(w: World, e: Env, effective: Fields, rep: Fields)
    requires Undisturbed(e) && w.obj.spec.key in w.server
    requires Progress(w, HandleExisting(w, e, effective, rep))
    ensures var payload := UpdatePayload(w.obj.kind, e.secret, effective);
            && payload.Some? && !w.obj.spec.adoption.FailIfExists?
            && if Differs(rep, payload.value) || !Ours(w.obj, rep)
               then HandleExisting(w, e, effective, rep) == FinishPass(Put(w, rep, payload.value), e, rep)
               else HandleExisting(w, e, effective, rep) == FinishPass(w, e, rep)
  {
    hide FinishPass, UpdatePayload, Overlay, Differs, Ours;
  }

  lemma ExistingApplied(w: World, e: Env, effective: Fields)
    requires Undisturbed(e) && w.obj.spec.key in w.server
    requires Progress(w, HandleExisting(w, e, effective, w.server[w.obj.spec.key].rep))
    ensures var payload, w' := UpdatePayload(w.obj.kind, e.secret, effective),
                               HandleExisting(w, e, effective, w.server[w.obj.spec.key].rep).0;
            payload.Some? && Applied(w, payload.value, w') && Posted(w, e, w') && !w.obj.spec.adoption.FailIfExists?
    ensures var r := HandleExisting(w, e, effective, w.server[w.obj.spec.key].rep);
            && SameLife(w.obj, r.0.obj)
            && (r.1.Done? ==> Recorded(r.0.obj) && (NeedsId(w.obj.kind) ==> HasId(w.server[w.obj.spec.key].rep)))
  {
    var rep := w.server[w.obj.spec.key].rep;
    ExistingControl(w, e, effective, rep);
    hide HandleExisting, FinishPass, UpdatePayload, Overlay, Differs, Ours, Put, OwnKeyOnly, SameObject, Shape;
    var payload := UpdatePayload(w.obj.kind, e.secret, effective).value;
    PutShape(w, payload);
    FinishShape(w, e, rep);
    FinishShape(Put(w, rep, payload), e, rep);
  }

  lemma PassApplied(w: World, e: Env)
    requires Undisturbed(e) && Progress(w, Reconcile(w, e))
    ensures var payload := Payload(w.obj, e.secret);
            && Reaches(w, e) && payload.Some?
            && Applied(w, payload.value, Reconcile(w, e).0) && Posted(w, e, Reconcile(w, e).0)
    ensures w.obj.spec.key in w.server ==> !w.obj.spec.adoption.FailIfExists?
    ensures Reconcile(w, e).1.Done? ==> Recorded(Reconcile(w, e).0.obj)
    ensures Reconcile(w, e).1.Done? && w.obj.spec.key in w.server && NeedsId(w.obj.kind) ==>
            HasId(w.server[w.obj.spec.key].rep)
    ensures SameLife(w.obj, Reconcile(w, e).0.obj)
  {
    hide HandleCreate, HandleExisting, UpdatePayload, Applied, Posted, Effective, Strip;
    if Reaches(w, e) {
      var effective := Effective(Strip(w.obj.kind, w.obj.spec.fields), w.obj.annotation).value;
      if w.obj.spec.key in w.server {
        ExistingApplied(w, e, effective);
      } else {
        CreateApplied(w, e, effective);
      }
    }
  }

  // -------------------------------------------------------- Synced is truth

  // Null payload entries ask for the absence of a key; an update request only
  // leaves such keys out, which a server that overlays does not notice.
  predicate NullsClear(w: World, payload: Fields)
  {
    w.obj.spec.key in w.server ==>
      forall k :: k in payload && payload[k].Null? ==> Missing(w.server[w.obj.spec.key].rep, k)
  }

  lemma PutAgreesIff(rep: Fields, payload: Fields)
    ensures Differs(rep + Overlay(rep, payload), payload) <==>
            exists k :: k in payload && payload[k].Null? && !Missing(rep, k)
  {
    var after := rep + Overlay(rep, payload);
    forall k | k in payload
      ensures FieldAgrees(after, k, payload[k]) <==> !(payload[k].Null? && !Missing(rep, k))
    {
      if !payload[k].Null? {
        MatchesItself(payload[k]);
      }
    }
    DiffersByField(after, payload);
  }

  lemma MadeAgrees(kind: Kind, key: string, payload: Fields)
    requires "id" !in payload
    ensures !Differs(payload + Assigned(kind, key), payload)
  {
    var after := payload + Assigned(kind, key);
    forall k | k in payload ensures FieldAgrees(after, k, payload[k]) {
      MatchesItself(payload[k]);
    }
    DiffersByField(after, payload);
  }

  // After a success the collections are as desired exactly if no name was
  // ambiguous.
  lemma SettledIff(w: World, e: Env)
    requires Undisturbed(e) && Reconcile(w, e).1.Done? && Fair(w, e)
    ensures Settled(Reconcile(w, e).0, e.around) <==> Faithful(JobOf(w.obj, e.around), e.listing, SideAt(w))
  {
    PassApplied(w, e);
    hide Reconcile, Goal, Faithful, Left, Still, Reads;
    var j := JobOf(w.obj, e.around);
    if HasCollections(w.obj.kind) {
      SuccessIsExactIff(j, e.listing, SideAt(w), e.post);
    } else {
      NothingToEnforce(j, e.listing, SideAt(w));
    }
  }

  lemma NothingToEnforce(j: Job, l: Listing, side: Side)
    requires !HasCollections(j.kind)
    ensures Goal(j, side) && Reads(j, l, side) && Faithful(j, l, side) && Still(j, l, side)
  {
  }

  // After a success the representation agrees with the whole payload, exactly if
  // no null entry asked for the removal of a key the server held.
  lemma RepTruthful(w: World, e: Env)
    requires Undisturbed(e) && Reconcile(w, e).1.Done?
    requires Payload(w.obj, e.secret).Some? ==> "id" !in Payload(w.obj, e.secret).value
    ensures var w', payload := Reconcile(w, e).0, Payload(w.obj, e.secret);
            && w.obj.spec.key in w'.server && payload.Some?
            && (!Differs(w'.server[w.obj.spec.key].rep, payload.value) <==> NullsClear(w, payload.value))
  {
    PassApplied(w, e);
    hide Reconcile;
    var payload, key := Payload(w.obj, e.secret).value, w.obj.spec.key;
    MadeAgrees(w.obj.kind, key, payload);
    if key in w.server {
      PutAgreesIff(w.server[key].rep, payload);
      DiffersByField(w.server[key].rep, payload);
    }
  }

  // A pass that reports success has told the truth: the representation agrees
  // with the payload and every collection is as desired, each under its exact
  // condition.
  lemma SyncedIsTruthful(w: World, e: Env)
    requires Undisturbed(e) && Reconcile(w, e).1.Done? && Fair(w, e)
    requires Payload(w.obj, e.secret).Some? ==> "id" !in Payload(w.obj, e.secret).value
    ensures var w', payload := Reconcile(w, e).0, Payload(w.obj, e.secret);
            && w.obj.spec.key in w'.server && payload.Some?
            && (Settled(w', e.around) <==> Faithful(JobOf(w.obj, e.around), e.listing, SideAt(w)))
            && (!Differs(w'.server[w.obj.spec.key].rep, payload.value) <==> NullsClear(w, payload.value))
  {
    RepTruthful(w, e);
    SettledIff(w, e);
  }
}
