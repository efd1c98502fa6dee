// The kind-specific parts of the payload: stripped fields, the managed marker
// and the values injected from Secrets.

module Drivers {
  import opened Wrappers
  import opened Json
  import opened LastApplied

  datatype Kind = Realm | Client | ClientScope | RealmRole | IdentityProvider | Group

  const MANAGED_KEY: string := "keycloak.ctn-solutions.io/managed"
  const MANAGED_VALUE: string := "true"

  // Spec fields that are bookkeeping of the operator.
  function OperatorFields(kind: Kind): (r: set<string>)
  {
    {"keycloakRef", "adoptionPolicy", "deletionPolicy"} +
    match kind
    case Realm => {"smtpServerSecretRef"}
    case Client => {"realm", "secretRef", "secretOutput"}
    case ClientScope => {"realm"}
    case RealmRole => {"realm", "composites"}
    case IdentityProvider => {"realm", "configSecretRef", "mappers"}
    case Group => {"realm"}
  }

  function Strip(kind: Kind, spec: Fields): (r: Fields)
  {
    spec - OperatorFields(kind)
  }

  // ---------------------------------------------------------------- Marker

  // The object stored under a key; anything else counts as an empty one.
  function Nested(payload: Fields, key: string): (r: Fields)
  {
    if key in payload && payload[key].Obj? then payload[key].fields else map[]
  }

  function List(attrs: Fields, key: string): (r: seq<Json>)
  {
    if key in attrs && attrs[key].Arr? then attrs[key].items else []
  }

  function StampString(payload: Fields): (r: Fields)
  {
    payload["attributes" := Obj(Nested(payload, "attributes")[MANAGED_KEY := Str(MANAGED_VALUE)])]
  }

  function StampSlice(payload: Fields): (r: Fields)
  {
    var attrs := Nested(payload, "attributes");
    payload["attributes" := Obj(attrs[MANAGED_KEY := Arr(List(attrs, MANAGED_KEY) + [Str(MANAGED_VALUE)])])]
  }

  function Stamp(kind: Kind, payload: Fields): (r: Fields)
  {
    match kind
    case Realm | Client | ClientScope => StampString(payload)
    case RealmRole | Group => StampSlice(payload)
    case IdentityProvider => payload
  }

  predicate IsManaged(kind: Kind, remote: Fields)
  {
    var attrs := Nested(remote, "attributes");
    match kind
    case Realm | Client | ClientScope => MANAGED_KEY in attrs && attrs[MANAGED_KEY] == Str(MANAGED_VALUE)
    case RealmRole | Group => Str(MANAGED_VALUE) in List(attrs, MANAGED_KEY)
    case IdentityProvider => false
  }

  predicate CarriesMarker(kind: Kind)
  {
    !kind.IdentityProvider?
  }

  // ------------------------------------------------------------- Injection

  // What reading the referenced Secret gave: nothing is referenced, the
  // Secret or one of its keys is missing, or the values. A client reads one
  // value, realms and identity providers a map.
  datatype Secret = NotReferenced | NotFound | Values(single: string, keyed: map<string, string>)

  function Texts(values: map<string, string>): (r: Fields)
  {
    map k | k in values :: Str(values[k])
  }

  function InjectKeyed(payload: Fields, key: string, values: map<string, string>): (r: Fields)
  {
    payload[key := Obj(Nested(payload, key) + Texts(values))]
  }

  // None when the values are needed and cannot be read.
  function Prepare(kind: Kind, secret: Secret, payload: Fields): (r: Option<Fields>)
  {
    match kind
    case ClientScope | RealmRole | Group => Some(payload)
    case Realm | Client | IdentityProvider =>
      match secret
      case NotReferenced => Some(payload)
      case NotFound => None
      case Values(single, keyed) =>
        if kind.Client? then Some(payload["secret" := Str(single)])
        else Some(InjectKeyed(payload, if kind.Realm? then "smtpServer" else "config", keyed))
  }

  // The mapped keys of a Secret, under the names they are mapped to; None as
  // soon as one is missing.
  method ReadSecretValues(data: map<string, string>, keys: map<string, string>)
    returns (values: Option<map<string, string>>)
    ensures values.None? <==> exists t :: t in keys && keys[t] !in data
    ensures values.Some? ==> values.value.Keys == keys.Keys
    ensures values.Some? ==> forall t :: t in keys ==> keys[t] in data && values.value[t] == data[keys[t]]
  {
    var out: map<string, string> := map[];
    var todo := keys.Keys;
    while todo != {}
      invariant todo <= keys.Keys && out.Keys == keys.Keys - todo
      invariant forall t :: t in out ==> keys[t] in data && out[t] == data[keys[t]]
      decreases todo
    {
      var target :| target in todo;
      if keys[target] !in data {
        return None;
      }
      out := out[target := data[keys[target]]];
      todo := todo - {target};
    }
    return Some(out);
  }

  // The loop over a list-valued marker.
  method HoldsMarker(list: seq<Json>) returns (r: bool)
    ensures r <==> Str("true") in list
  {
    for i := 0 to |list|
      invariant Str("true") !in list[..i]
    {
      if list[i].Str? && list[i].s == MANAGED_VALUE {
        return true;
      }
    }
    assert list[..|list|] == list;
    return false;
  }

  // -------------------------------------------------------------- Pipelines

  // Create injects first and stamps second.
  function CreatePayload(kind: Kind, secret: Secret, payload: Fields): (r: Option<Fields>)
  {
    var prepared := Prepare(kind, secret, payload);
    if prepared.None? then None else Some(Stamp(kind, prepared.value))
  }

  // Update stamps first and injects second.
  function UpdatePayload(kind: Kind, secret: Secret, payload: Fields): (r: Option<Fields>)
  {
    Prepare(kind, secret, Stamp(kind, payload))
  }

  // The two orders give the same payload, for every kind and every input.
  lemma PipelinesAgree(kind: Kind, secret: Secret, payload: Fields)
    ensures CreatePayload(kind, secret, payload) == UpdatePayload(kind, secret, payload)
  {
    var stamped := Stamp(kind, payload);
    assert Nested(stamped, "smtpServer") == Nested(payload, "smtpServer");
    var prepared := Prepare(kind, secret, payload);
    if prepared.Some? {
      assert CarriesMarker(kind) ==> Nested(prepared.value, "attributes") == Nested(payload, "attributes");
      assert CreatePayload(kind, secret, payload).value == UpdatePayload(kind, secret, payload).value;
    }
  }

  // The only top-level keys the pipeline writes itself.
  function OwnKeys(kind: Kind): (r: set<string>)
  {
    (if CarriesMarker(kind) then {"attributes"} else {}) +
    match kind
    case Realm => {"smtpServer"}
    case Client => {"secret"}
    case IdentityProvider => {"config"}
    case _ => {}
  }

  // Every other key passes through both steps untouched.
  lemma PipelineFrame(kind: Kind, secret: Secret, payload: Fields)
    requires UpdatePayload(kind, secret, payload).Some?
    ensures var r := UpdatePayload(kind, secret, payload).value;
            forall k :: k !in OwnKeys(kind) ==> (k in r <==> k in payload) && (k in r ==> r[k] == payload[k])
  {
  }

  // The keys it does write are never null.
  lemma PipelineNulls(kind: Kind, secret: Secret, payload: Fields, k: string)
    requires UpdatePayload(kind, secret, payload).Some?
    requires k in UpdatePayload(kind, secret, payload).value && UpdatePayload(kind, secret, payload).value[k].Null?
    ensures k in payload && payload[k].Null?
  {
  }

  // A payload that went through the pipeline carries the marker, whatever the
  // spec says about attributes, and so does every representation it is laid
  // over: later passes recognise the resource.
  lemma WrittenIsManaged(kind: Kind, secret: Secret, payload: Fields, remote: Fields)
    requires CarriesMarker(kind)
    requires UpdatePayload(kind, secret, payload).Some?
    ensures var p := UpdatePayload(kind, secret, payload).value;
            IsManaged(kind, p) && IsManaged(kind, Overlay(remote, p))
  {
    var stamped, p := Stamp(kind, payload), UpdatePayload(kind, secret, payload).value;
    assert p["attributes"] == stamped["attributes"];
    if kind.RealmRole? || kind.Group? {
      var attrs := Nested(p, "attributes");
      assert attrs[MANAGED_KEY].items[|List(Nested(payload, "attributes"), MANAGED_KEY)|] == Str(MANAGED_VALUE);
    }
    assert Overlay(remote, p)["attributes"] == p["attributes"];
  }
}
