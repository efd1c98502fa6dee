// What agreement and payloads mean, said without the functions that compute
// them.

module PayloadMeaning {
  import opened Wrappers
  import opened Json
  import opened LastApplied
  import opened PayloadLaws
  import opened Drivers

  // ------------------------------------------------------------- Agreement

  predicate Masked(v: Json)
  {
    v == Str("**********")
  }

  // The representation shows the wanted value under k. An absent field shows
  // the empty string, false, an empty list or an empty object; an object shows
  // every entry it is asked for; a list has a partner for every element.
  ghost predicate Shows(rep: Fields, k: string, want: Json)
    decreases want
  {
    var absent := k !in rep || rep[k] == Null;
    match want
    case Null => absent
    case Bool(b) => (absent && !b) || (k in rep && (rep[k] == Bool(b) || Masked(rep[k])))
    case Num(n) => k in rep && (rep[k] == Num(n) || Masked(rep[k]))
    case Str(s) => (absent && s == "") || (k in rep && (rep[k] == Str(s) || Masked(rep[k])))
    case Arr(items) => (absent && items == []) || (k in rep && rep[k].Arr? && Pairable(items, rep[k].items))
    case Obj(fields) =>
      || (absent && fields == map[])
      || (k in rep && rep[k].Obj? && forall s :: s in fields ==> Shows(rep[k].fields, s, fields[s]))
  }

  // No list of more than one element anywhere, so that no order can matter.
  ghost predicate Orderless(want: Json)
  {
    match want
    case Arr(items) => |items| <= 1
    case Obj(fields) => forall s :: s in fields ==> Orderless(fields[s])
    case _ => true
  }

  // Agreement shows the value; without longer lists it is nothing else.
  lemma {:induction false} AgreementShows(rep: Fields, k: string, want: Json)
    ensures FieldAgrees(rep, k, want) ==> Shows(rep, k, want)
    ensures Orderless(want) && Shows(rep, k, want) ==> FieldAgrees(rep, k, want)
    decreases want
  {
    if want.Obj? && k in rep && rep[k].Obj? {
      forall s | s in want.fields
        ensures FieldAgrees(rep[k].fields, s, want.fields[s]) ==> Shows(rep[k].fields, s, want.fields[s])
        ensures Orderless(want.fields[s]) && Shows(rep[k].fields, s, want.fields[s]) ==>
                  FieldAgrees(rep[k].fields, s, want.fields[s])
      {
        AgreementShows(rep[k].fields, s, want.fields[s]);
      }
      DiffersByField(rep[k].fields, want.fields);
    } else if want.Arr? && k in rep && rep[k].Arr? {
      ListAgreement(want.items, rep[k].items);
    }
  }

  lemma ListAgreement(items: seq<Json>, got: seq<Json>)
    ensures Matches(Arr(items), Arr(got)) ==> Pairable(items, got)
    ensures |items| <= 1 && Pairable(items, got) ==> Matches(Arr(items), Arr(got))
  {
    if Matches(Arr(items), Arr(got)) {
      ListMatchSound(items, got);
    }
    if |items| <= 1 && Pairable(items, got) {
      assert NoOverlap(items, got);
      ListMatchComplete(items, got);
    }
  }

  // What it takes for two list elements to be partners.
  lemma PartnersIff(want: Json, got: Json)
    ensures Scalar(want) ==> (Matches(want, got) <==> got == want || Masked(got))
    ensures want.Obj? && Orderless(want) ==>
              (Matches(want, got) <==>
                got.Obj? && forall s :: s in want.fields ==> Shows(got.fields, s, want.fields[s]))
  {
    if want.Obj? && got.Obj? {
      DiffersByField(got.fields, want.fields);
      forall s | s in want.fields
        ensures FieldAgrees(got.fields, s, want.fields[s]) ==> Shows(got.fields, s, want.fields[s])
        ensures Orderless(want.fields[s]) && Shows(got.fields, s, want.fields[s]) ==>
                  FieldAgrees(got.fields, s, want.fields[s])
      {
        AgreementShows(got.fields, s, want.fields[s]);
      }
    }
  }

  // A payload makes no difference only if the representation shows all of it,
  // and exactly then if it has no longer lists.
  lemma NoDifferenceShows(rep: Fields, payload: Fields)
    ensures !Differs(rep, payload) ==> forall k :: k in payload ==> Shows(rep, k, payload[k])
    ensures Orderless(Obj(payload)) && (forall k :: k in payload ==> Shows(rep, k, payload[k])) ==>
            !Differs(rep, payload)
  {
    DiffersByField(rep, payload);
    forall k | k in payload
      ensures FieldAgrees(rep, k, payload[k]) ==> Shows(rep, k, payload[k])
      ensures Orderless(payload[k]) && Shows(rep, k, payload[k]) ==> FieldAgrees(rep, k, payload[k])
    {
      AgreementShows(rep, k, payload[k]);
    }
  }

  // In particular a string, number or true that the server shows otherwise is a
  // difference.
  lemma ScalarDiffersIff(rep: Fields, k: string, want: Json)
    requires Scalar(want) && want != Null && want != Str("") && want != Bool(false)
    ensures Differs(rep, map[k := want]) <==> !(k in rep && (rep[k] == want || rep[k] == Str("**********")))
  {
    var p: Fields := map[k := want];
    assert Orderless(want) && Orderless(Obj(p));
    NoDifferenceShows(rep, p);
    hide Differs;
    assert Shows(rep, k, p[k]) <==> k in rep && (rep[k] == want || rep[k] == Str("**********"));
  }

  // What is enforced under a key: what the spec says, and for a recorded field
  // it dropped the empty value of its type; a number or null that was dropped is
  // left alone.
  function Enforced(spec: Fields, last: Fields, k: string): (r: Option<Json>)
  {
    if k in spec then Some(spec[k])
    else if k !in last then None
    else match last[k]
         case Str(_) => Some(Str(""))
         case Bool(_) => Some(Bool(false))
         case Arr(_) => Some(Arr([]))
         case Obj(_) => Some(Obj(map[]))
         case Num(_) => None
         case Null => None
  }

  function At(p: Fields, k: string): (r: Option<Json>)
  {
    if k in p then Some(p[k]) else None
  }

  lemma EffectiveAt(spec: Fields, last: Fields, k: string)
    ensures At(Effective(spec, Snapshot(last)).value, k) == Enforced(spec, last, k)
  {
  }

  lemma EffectiveIff(spec: Fields, last: Fields, p: Fields)
    ensures Effective(spec, Unset) == Some(spec) && Effective(spec, Undecodable) == None
    ensures Effective(spec, Snapshot(last)) == Some(p) <==> forall k :: At(p, k) == Enforced(spec, last, k)
  {
    var r := Effective(spec, Snapshot(last)).value;
    forall k
      ensures At(r, k) == Enforced(spec, last, k)
    {
      EffectiveAt(spec, last, k);
    }
    hide Effective, Enforced;
    if forall k :: At(p, k) == Enforced(spec, last, k) {
      forall k
        ensures Same(p, r, k)
      {
        assert At(p, k) == At(r, k);
      }
      Extensional(p, r);
    }
  }

  // -------------------------------------------------------------- Payloads

  predicate Same(p: Fields, q: Fields, k: string)
  {
    (k in p <==> k in q) && (k in p ==> p[k] == q[k])
  }

  // The object p has under key: the values given, and for the rest the entries
  // the payload has there.
  ghost predicate Filled(p: Fields, payload: Fields, key: string, given: map<string, Json>)
  {
    && key in p && p[key].Obj?
    && forall s ::
         if s in given then s in p[key].fields && p[key].fields[s] == given[s]
         else if key in payload && payload[key].Obj? then Same(p[key].fields, payload[key].fields, s)
         else s !in p[key].fields
  }

  // The list the payload has under the marker, if it has one.
  function MarkerList(payload: Fields): (r: seq<Json>)
  {
    if "attributes" in payload && payload["attributes"].Obj?
       && "keycloak.ctn-solutions.io/managed" in payload["attributes"].fields
       && payload["attributes"].fields["keycloak.ctn-solutions.io/managed"].Arr?
    then payload["attributes"].fields["keycloak.ctn-solutions.io/managed"].items
    else []
  }

  // The marker: a string, or one more element of a list.
  function Mark(kind: Kind, payload: Fields): (r: Json)
  {
    if kind.RealmRole? || kind.Group? then Arr(MarkerList(payload) + [Str("true")]) else Str("true")
  }

  // The attributes of the spec, with the marker beside them.
  ghost predicate Stamped(kind: Kind, payload: Fields, p: Fields)
  {
    if kind.IdentityProvider? then Same(p, payload, "attributes")
    else Filled(p, payload, "attributes", map["keycloak.ctn-solutions.io/managed" := Mark(kind, payload)])
  }

  // The values of the Secret in their place, with what the spec has beside them.
  ghost predicate Injected(kind: Kind, secret: Secret, payload: Fields, p: Fields)
  {
    var read := secret.Values?;
    && (if kind.Realm? && read
        then Filled(p, payload, "smtpServer", map s | s in secret.keyed :: Str(secret.keyed[s]))
        else Same(p, payload, "smtpServer"))
    && (if kind.IdentityProvider? && read
        then Filled(p, payload, "config", map s | s in secret.keyed :: Str(secret.keyed[s]))
        else Same(p, payload, "config"))
    && (if kind.Client? && read then "secret" in p && p["secret"] == Str(secret.single) else Same(p, payload, "secret"))
  }

  ghost predicate Carries(kind: Kind, secret: Secret, payload: Fields, p: Fields)
  {
    && Stamped(kind, payload, p) && Injected(kind, secret, payload, p)
    && forall k :: k !in {"attributes", "smtpServer", "config", "secret"} ==> Same(p, payload, k)
  }

  predicate NeedsSecret(kind: Kind)
  {
    kind.Realm? || kind.Client? || kind.IdentityProvider?
  }

  lemma KeysDistinct()
    ensures "attributes" != "smtpServer" && "attributes" != "config" && "attributes" != "secret"
    ensures "smtpServer" != "config" && "smtpServer" != "secret" && "config" != "secret"
  {
    assert "attributes"[0] == 'a' && "smtpServer"[1] == 'm' && "config"[0] == 'c' && "secret"[1] == 'e';
  }

  lemma StampCarries(kind: Kind, payload: Fields)
    ensures Stamped(kind, payload, Stamp(kind, payload))
    ensures forall k :: k != "attributes" ==> Same(Stamp(kind, payload), payload, k)
  {
  }

  lemma PrepareCarries(kind: Kind, secret: Secret, payload: Fields)
    ensures Prepare(kind, secret, payload).Some? <==> !(NeedsSecret(kind) && secret.NotFound?)
    ensures Prepare(kind, secret, payload).Some? ==>
              var p := Prepare(kind, secret, payload).value;
              && Injected(kind, secret, payload, p)
              && forall k :: k !in {"smtpServer", "config", "secret"} ==> Same(p, payload, k)
  {
    KeysDistinct();
  }

  lemma PayloadCarries(kind: Kind, secret: Secret, payload: Fields)
    ensures UpdatePayload(kind, secret, payload).Some? <==> !(NeedsSecret(kind) && secret.NotFound?)
    ensures UpdatePayload(kind, secret, payload).Some? ==>
              Carries(kind, secret, payload, UpdatePayload(kind, secret, payload).value)
  {
    hide Stamp, Prepare;
    KeysDistinct();
    var stamped := Stamp(kind, payload);
    StampCarries(kind, payload);
    PrepareCarries(kind, secret, stamped);
    assert Same(stamped, payload, "smtpServer") && Same(stamped, payload, "config") && Same(stamped, payload, "secret");
    if UpdatePayload(kind, secret, payload).Some? {
      var p := UpdatePayload(kind, secret, payload).value;
      assert Same(p, stamped, "attributes");
      hide Mark, MarkerList;
      assert Stamped(kind, payload, p);
      assert Injected(kind, secret, payload, p);
      hide Stamped, Injected;
      forall k | k !in {"attributes", "smtpServer", "config", "secret"}
        ensures Same(p, payload, k)
      {
        assert Same(p, stamped, k) && Same(stamped, payload, k);
      }
    }
  }

  lemma FilledOnce(p: Fields, q: Fields, payload: Fields, key: string, given: map<string, Json>)
    requires Filled(p, payload, key, given) && Filled(q, payload, key, given)
    ensures p[key] == q[key]
  {
    assert forall s :: Same(p[key].fields, q[key].fields, s);
  }

  lemma StampedOnce(kind: Kind, payload: Fields, p: Fields, q: Fields)
    requires Stamped(kind, payload, p) && Stamped(kind, payload, q)
    ensures Same(p, q, "attributes")
  {
    if !kind.IdentityProvider? {
      FilledOnce(p, q, payload, "attributes", map["keycloak.ctn-solutions.io/managed" := Mark(kind, payload)]);
    }
  }

  lemma InjectedOnce(kind: Kind, secret: Secret, payload: Fields, p: Fields, q: Fields)
    requires Injected(kind, secret, payload, p) && Injected(kind, secret, payload, q)
    ensures Same(p, q, "smtpServer") && Same(p, q, "config") && Same(p, q, "secret")
  {
    if secret.Values? {
      var given := map s | s in secret.keyed :: Str(secret.keyed[s]);
      if kind.Realm? {
        FilledOnce(p, q, payload, "smtpServer", given);
      } else if kind.IdentityProvider? {
        FilledOnce(p, q, payload, "config", given);
      }
    }
  }

  lemma Extensional(p: Fields, q: Fields)
    requires forall k :: Same(p, q, k)
    ensures p == q
  {
    forall k
      ensures k in p <==> k in q
      ensures k in p ==> p[k] == q[k]
    {
      assert Same(p, q, k);
    }
  }

  lemma CarriesOnce(kind: Kind, secret: Secret, payload: Fields, p: Fields, q: Fields)
    requires Carries(kind, secret, payload, p) && Carries(kind, secret, payload, q)
    ensures p == q
  {
    StampedOnce(kind, payload, p, q);
    InjectedOnce(kind, secret, payload, p, q);
    hide Stamped, Injected;
    forall k
      ensures Same(p, q, k)
    {
      if k !in {"attributes", "smtpServer", "config", "secret"} {
        assert Same(p, payload, k) && Same(q, payload, k);
      }
    }
    Extensional(p, q);
  }

  // The pipeline computes exactly the payload that carries the spec, the marker
  // and the values of the Secret, and nothing else.
  lemma PayloadIff(kind: Kind, secret: Secret, payload: Fields, p: Fields)
    requires !(NeedsSecret(kind) && secret.NotFound?)
    ensures UpdatePayload(kind, secret, payload) == Some(p) <==> Carries(kind, secret, payload, p)
  {
    PayloadCarries(kind, secret, payload);
    hide UpdatePayload, Carries;
    if Carries(kind, secret, payload, p) {
      CarriesOnce(kind, secret, payload, p, UpdatePayload(kind, secret, payload).value);
    }
  }

  // A resource is recognised by the marker: the string, or an element of the
  // list. Identity providers are never recognised.
  lemma RecognisedIff(kind: Kind, rep: Fields)
    ensures IsManaged(kind, rep) <==>
            && "attributes" in rep && rep["attributes"].Obj?
            && "keycloak.ctn-solutions.io/managed" in rep["attributes"].fields
            && var mark := rep["attributes"].fields["keycloak.ctn-solutions.io/managed"];
               match kind
               case Realm | Client | ClientScope => mark == Str("true")
               case RealmRole | Group => mark.Arr? && Str("true") in mark.items
               case IdentityProvider => false
  {
  }
}
