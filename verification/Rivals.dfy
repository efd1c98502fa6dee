// Two custom resources over one natural key. The marker names no owner, so each
// takes the other's resource for its own.

module Rivals {
  import opened Wrappers
  import opened Json
  import opened LastApplied
  import opened PayloadLaws
  import opened Drivers
  import opened PostProcessing
  import opened Engine
  import opened EngineLaws
  import opened PassLaws
  import opened NestedOwnership

  // Some field both manage on which the other's value does not do.
  ghost predicate Clash(mine: Fields, theirs: Fields)
  {
    exists k :: k in mine && k in theirs && !FieldAgrees(theirs, k, mine[k])
  }

  // What the other's update leaves of an agreement.
  lemma OverwrittenIff(rep: Fields, mine: Fields, theirs: Fields)
    requires !Differs(rep, mine) && forall k :: k in theirs ==> !theirs[k].Null?
    ensures Differs(rep + Overlay(rep, theirs), mine) <==> Clash(mine, theirs)
  {
    var after := rep + Overlay(rep, theirs);
    DiffersByField(rep, mine);
    DiffersByField(after, mine);
    forall k | k in mine
      ensures FieldAgrees(after, k, mine[k]) <==> (k in theirs ==> FieldAgrees(theirs, k, mine[k]))
    {
      assert FieldAgrees(rep, k, mine[k]);
      if k in theirs {
        assert after[k] == theirs[k];
      }
    }
  }

  // A failure-free pass over a recognised resource updates it exactly if it
  // differs.
  lemma UpdatesIff(w: World, e: Env)
    requires Clean(e) && Reaches(w, e) && w.obj.spec.key in w.server && Payload(w.obj, e.secret).Some?
    requires Ours(w.obj, w.server[w.obj.spec.key].rep) && !w.obj.spec.adoption.FailIfExists?
    ensures var rep, p, w' := w.server[w.obj.spec.key].rep, Payload(w.obj, e.secret).value, Reconcile(w, e).0;
            && w.obj.spec.key in w'.server
            && (UpdatedSince(|w.log|, w'.log) <==> Differs(rep, p))
            && w'.server[w.obj.spec.key].rep == if Differs(rep, p) then rep + Overlay(rep, p) else rep
  {
    var rep, p := w.server[w.obj.spec.key].rep, Payload(w.obj, e.secret).value;
    if Differs(rep, p) {
      var made := Put(w, rep, p);
      PutShape(w, p);
      FinishShape(made, e, rep);
      FinishLog(made, e, rep);
      hide FinishPass, Differs, UpdatePayload, Overlay, Strip, Effective, Ours, Put;
      assert Reconcile(w, e) == FinishPass(made, e, rep);
      assert Reconcile(w, e).0.log[|w.log|] == made.log[|w.log|];
    } else {
      AgreedPass(w, e);
      FinishShape(w, e, rep);
      FinishLog(w, e, rep);
      hide FinishPass, Reconcile, Differs;
    }
  }

  // A resource that another object created is taken over under CreateOnly, by
  // its marker alone.
  lemma StrangerTakesOver(w: World, e: Env)
    requires Clean(e) && Reaches(w, e) && w.obj.spec.key in w.server && Payload(w.obj, e.secret).Some?
    requires w.obj.spec.adoption.CreateOnly? && w.obj.annotation.Unset?
    requires NeedsId(w.obj.kind) ==> HasId(w.server[w.obj.spec.key].rep)
    ensures Reconcile(w, e).1 == Done <==> IsManaged(w.obj.kind, w.server[w.obj.spec.key].rep)
  {
    hide IsManaged, UpdatePayload, Strip, Effective, Reconcile;
    CleanVerdict(w, e);
  }

  // One failure-free pass of the object with this payload.
  function Turn(rep: Fields, p: Fields): (r: Fields)
  {
    if Differs(rep, p) then rep + Overlay(rep, p) else rep
  }

  // The turns alternate, theirs first.
  function Asks(mine: Fields, theirs: Fields, n: nat): (r: Fields)
  {
    if n % 2 == 0 then theirs else mine
  }

  // The representation before turn n.
  function Before(rep: Fields, mine: Fields, theirs: Fields, n: nat): (r: Fields)
  {
    if n == 0 then rep else Turn(Before(rep, mine, theirs, n - 1), Asks(mine, theirs, n - 1))
  }

  predicate NoNulls(p: Fields)
  {
    forall k :: k in p ==> !p[k].Null?
  }

  lemma TurnAgrees(rep: Fields, p: Fields)
    requires NoNulls(p)
    ensures !Differs(Turn(rep, p), p)
  {
    PutAgreesIff(rep, p);
    hide Differs, Overlay;
  }

  // Before every turn the representation agrees with the object whose turn it
  // is not.
  lemma {:induction false} OtherAgrees(rep: Fields, mine: Fields, theirs: Fields, n: nat)
    requires NoNulls(mine) && NoNulls(theirs) && !Differs(rep, mine)
    ensures !Differs(Before(rep, mine, theirs, n), Asks(mine, theirs, n + 1))
  {
    if n > 0 {
      TurnAgrees(Before(rep, mine, theirs, n - 1), Asks(mine, theirs, n - 1));
    }
  }

  lemma NoNullsAsked(mine: Fields, theirs: Fields, n: nat)
    requires NoNulls(mine) && NoNulls(theirs)
    ensures forall k :: k in Asks(mine, theirs, n) ==> !Asks(mine, theirs, n)[k].Null?
  {
  }

  // A turn that writes is answered exactly if the two clash.
  lemma NextWritesIff(rep: Fields, mine: Fields, theirs: Fields, n: nat)
    requires NoNulls(mine) && NoNulls(theirs) && !Differs(rep, mine)
    ensures Differs(Before(rep, mine, theirs, n + 1), Asks(mine, theirs, n + 1)) <==>
            && Differs(Before(rep, mine, theirs, n), Asks(mine, theirs, n))
            && Clash(Asks(mine, theirs, n + 1), Asks(mine, theirs, n))
  {
    hide Differs, Overlay, Clash, NoNulls;
    OtherAgrees(rep, mine, theirs, n);
    NoNullsAsked(mine, theirs, n);
    OverwrittenIff(Before(rep, mine, theirs, n), Asks(mine, theirs, n + 1), Asks(mine, theirs, n));
  }

  // The two keep rewriting the resource for ever if and only if each manages a
  // field on which the value of the other does not do.
  lemma FightForeverIff(rep: Fields, mine: Fields, theirs: Fields)
    requires NoNulls(mine) && NoNulls(theirs) && !Differs(rep, mine) && Differs(rep, theirs)
    ensures (forall n: nat :: Differs(Before(rep, mine, theirs, n), Asks(mine, theirs, n))) <==>
            Clash(mine, theirs) && Clash(theirs, mine)
  {
    hide Differs, Clash, Before, Asks, NoNulls;
    if forall n: nat :: Differs(Before(rep, mine, theirs, n), Asks(mine, theirs, n)) {
      assert Differs(Before(rep, mine, theirs, 1), Asks(mine, theirs, 1));
      assert Differs(Before(rep, mine, theirs, 2), Asks(mine, theirs, 2));
      NextWritesIff(rep, mine, theirs, 0);
      NextWritesIff(rep, mine, theirs, 1);
      FirstAsks(mine, theirs);
    }
    if Clash(mine, theirs) && Clash(theirs, mine) {
      forall n: nat
        ensures Differs(Before(rep, mine, theirs, n), Asks(mine, theirs, n))
      {
        FightGoesOn(rep, mine, theirs, n);
      }
    }
  }

  lemma FirstAsks(mine: Fields, theirs: Fields)
    ensures Asks(mine, theirs, 0) == theirs && Asks(mine, theirs, 1) == mine && Asks(mine, theirs, 2) == theirs
  {
  }

  lemma FirstTurn(rep: Fields, mine: Fields, theirs: Fields)
    ensures Before(rep, mine, theirs, 0) == rep
  {
  }

  lemma {:induction false} FightGoesOn(rep: Fields, mine: Fields, theirs: Fields, n: nat)
    requires NoNulls(mine) && NoNulls(theirs) && !Differs(rep, mine) && Differs(rep, theirs)
    requires Clash(mine, theirs) && Clash(theirs, mine)
    ensures Differs(Before(rep, mine, theirs, n), Asks(mine, theirs, n))
  {
    hide Before, Differs, Clash;
    if n == 0 {
      FirstTurn(rep, mine, theirs);
    } else {
      FightGoesOn(rep, mine, theirs, n - 1);
      NextWritesIff(rep, mine, theirs, n - 1);
    }
  }
}
