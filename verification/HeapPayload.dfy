// Payload building on the heap. The operator's maps and lists are shared by
// reference, so the value laws only apply if the payload it mutates shares no
// node with the spec snapshot it later records.

module HeapPayload {
  import opened Wrappers
  import opened Json
  import LastApplied
  import Drivers

  // A decoded value as a program holds it: scalars by value, lists and maps
  // by reference.
  datatype Val =
    | VNull
    | VBool(b: bool)
    | VNum(n: real)
    | VStr(s: string)
    | VList(list: ListNode)
    | VMap(node: MapNode)

  class ListNode {
    var items: seq<Val>
    ghost var repr: set<object>

    constructor (items: seq<Val>, ghost below: set<object>)
      ensures this.items == items && repr == {this} + below && fresh(this)
    {
      this.items := items;
      this.repr := {this} + below;
    }
  }

  class MapNode {
    var fields: map<string, Val>
    ghost var repr: set<object>

    constructor (fields: map<string, Val>, ghost below: set<object>)
      ensures this.fields == fields && repr == {this} + below && fresh(this)
    {
      this.fields := fields;
      this.repr := {this} + below;
    }
  }

  // The node a value refers to, if any.
  ghost function Root(v: Val): set<object>
  {
    match v
    case VList(list) => {list}
    case VMap(node) => {node}
    case _ => {}
  }

  // All nodes a value reaches.
  ghost function Foot(v: Val): set<object>
    reads Root(v)
  {
    match v
    case VList(list) => list.repr
    case VMap(node) => node.repr
    case _ => {}
  }

  // The value v stands for j, as a tree: no node is reached twice.
  ghost predicate Denotes(v: Val, j: Json)
    reads Root(v), Foot(v)
    decreases j
  {
    match j
    case Null => v.VNull?
    case Bool(b) => v == VBool(b)
    case Num(n) => v == VNum(n)
    case Str(s) => v == VStr(s)
    case Arr(items) => v.VList? && ListDenotes(v.list, items)
    case Obj(fields) => v.VMap? && MapDenotes(v.node, fields)
  }

  ghost predicate ListDenotes(l: ListNode, items: seq<Json>)
    reads l, l.repr
    decreases Arr(items), 0
  {
    && l in l.repr
    && |l.items| == |items|
    && (forall i :: 0 <= i < |items| ==> Root(l.items[i]) <= l.repr)
    && (forall i :: 0 <= i < |items| ==> Foot(l.items[i]) <= l.repr - {l})
    && (forall i, k :: 0 <= i < k < |items| ==> Foot(l.items[i]) !! Foot(l.items[k]))
    && (forall i :: 0 <= i < |items| ==> Denotes(l.items[i], items[i]))
  }

  ghost predicate MapDenotes(m: MapNode, fields: Fields)
    reads m, m.repr
    decreases Obj(fields), 1
  {
    m in m.repr && Forest(m.fields, fields, m.repr - {m})
  }

  // The entries stand for the fields, one disjoint tree for each, all of them
  // within the given nodes.
  ghost predicate Forest(vals: map<string, Val>, fields: Fields, nodes: set<object>)
    reads nodes
    decreases Obj(fields), 0
  {
    && vals.Keys == fields.Keys
    && (forall k :: k in vals ==> Root(vals[k]) <= nodes)
    && (forall k :: k in vals ==> Root(vals[k]) <= Foot(vals[k]) <= nodes)
    && (forall k, k' :: k in vals && k' in vals && k != k' ==> Foot(vals[k]) !! Foot(vals[k']))
    && (forall k :: k in vals ==> Denotes(vals[k], fields[k]))
  }

  // -------------------------------------------------------------- Deep copy

  lemma ForestAdd(vals: map<string, Val>, fields: Fields, nodes: set<object>, k: string, v: Val, j: Json)
    requires Forest(vals, fields, nodes)
    requires Denotes(v, j) && Root(v) <= Foot(v)
    requires forall k' :: k' in vals && k' != k ==> Foot(v) !! Foot(vals[k'])
    ensures Forest(vals[k := v], fields[k := j], nodes + Foot(v))
  {
  }

  method DeepCopyMap(m: MapNode, ghost j: Fields) returns (c: MapNode)
    requires MapDenotes(m, j)
    ensures MapDenotes(c, j) && fresh(c.repr)
    decreases Obj(j), 1
  {
    var out, below := DeepCopyEntries(m, j);
    c := new MapNode(out, below);
    assert c.repr - {c} == below;
  }

  // The loop over the map, into the entries of the copy.
  method DeepCopyEntries(m: MapNode, ghost j: Fields) returns (out: map<string, Val>, ghost below: set<object>)
    requires MapDenotes(m, j)
    ensures Forest(out, j, below) && fresh(below)
    decreases Obj(j), 0
  {
    out, below := map[], {};
    ghost var done: Fields := map[];
    var todo := m.fields.Keys;
    while todo != {}
      invariant todo <= j.Keys && done.Keys == j.Keys - todo
      invariant forall k :: k in done ==> done[k] == j[k]
      invariant fresh(below) && Forest(out, done, below)
      decreases todo
    {
      var k :| k in todo;
      todo := todo - {k};
      var v := DeepCopyValue(m.fields[k], j[k]);
      ForestAdd(out, done, below, k, v, j[k]);
      out, done, below := out[k := v], done[k := j[k]], below + Foot(v);
    }
    assert done == j;
  }

  method DeepCopyValue(v: Val, ghost j: Json) returns (c: Val)
    requires Denotes(v, j)
    ensures Denotes(c, j) && Root(c) <= Foot(c) && fresh(Foot(c))
    decreases j, 2
  {
    match v
    case VMap(node) =>
      var copy := DeepCopyMap(node, j.fields);
      c := VMap(copy);
    case VList(list) =>
      var out: seq<Val> := [];
      ghost var below: set<object> := {};
      while |out| < |list.items|
        invariant |out| <= |j.items|
        invariant fresh(below)
        invariant forall i :: 0 <= i < |out| ==> Root(out[i]) <= below
        invariant forall i :: 0 <= i < |out| ==> Foot(out[i]) <= below
        invariant forall i, k :: 0 <= i < k < |out| ==> Foot(out[i]) !! Foot(out[k])
        invariant forall i :: 0 <= i < |out| ==> Denotes(out[i], j.items[i])
      {
        var item := DeepCopyValue(list.items[|out|], j.items[|out|]);
        out := out + [item];
        below := below + Foot(item);
      }
      var copy := new ListNode(out, below);
      c := VList(copy);
    case _ =>
      c := v;
  }

  // --------------------------------------------------------- Writes in place

  // Assigns one entry of a map node.
  method SetEntry(m: MapNode, ghost j: Fields, k: string, v: Val, ghost jv: Json)
    requires MapDenotes(m, j)
    requires Denotes(v, jv) && Root(v) <= Foot(v) && m !in Foot(v)
    requires forall k' :: k' in m.fields && k' != k ==> Foot(v) !! Foot(m.fields[k'])
    modifies m
    ensures MapDenotes(m, j[k := jv])
    ensures m.fields == old(m.fields)[k := v]
    ensures m.repr == old(m.repr) + old(Foot(v))
  {
    ForestAdd(m.fields, j, m.repr - {m}, k, v, jv);
    ghost var nodes := m.repr - {m} + Foot(v);
    m.fields := m.fields[k := v];
    m.repr := m.repr + Foot(v);
    assert m.repr - {m} == nodes;
  }

  // The map stored under a key, created when the key holds anything else.
  method EnsureNested(m: MapNode, ghost j: Fields, key: string) returns (child: MapNode)
    requires MapDenotes(m, j)
    modifies m
    ensures MapDenotes(m, j[key := Obj(Drivers.Nested(j, key))])
    ensures key in m.fields && m.fields[key] == VMap(child)
    ensures fresh(m.repr - old(m.repr)) && old(m.repr) <= m.repr
  {
    if key in m.fields && m.fields[key].VMap? {
      assert Denotes(m.fields[key], j[key]);
      child := m.fields[key].node;
      assert j[key := Obj(Drivers.Nested(j, key))] == j;
    } else {
      if key in m.fields { assert Denotes(m.fields[key], j[key]); }
      child := new MapNode(map[], {});
      SetEntry(m, j, key, VMap(child), Obj(map[]));
    }
  }

  // The entries other than one, without the nodes of that one.
  lemma ForestSplit(vals: map<string, Val>, fields: Fields, nodes: set<object>, key: string)
    requires Forest(vals, fields, nodes) && key in vals
    ensures Forest(vals - {key}, fields - {key}, nodes - Foot(vals[key]))
  {
  }

  lemma ForestReplace(vals: map<string, Val>, fields: Fields, nodes: set<object>, key: string, j: Json)
    requires key in vals && Forest(vals - {key}, fields - {key}, nodes)
    requires Denotes(vals[key], j) && Root(vals[key]) <= Foot(vals[key])
    requires forall k :: k in vals && k != key ==> Foot(vals[key]) !! Foot(vals[k])
    ensures Forest(vals, fields[key := j], nodes + Foot(vals[key]))
  {
    ForestAdd(vals - {key}, fields - {key}, nodes, key, vals[key], j);
    assert (vals - {key})[key := vals[key]] == vals;
    assert (fields - {key})[key := j] == fields[key := j];
  }

  // Assigns one entry of the map stored under a key of another map.
  method SetNestedEntry(m: MapNode, ghost j: Fields, key: string, child: MapNode,
                        k: string, v: Val, ghost jv: Json)
    requires MapDenotes(m, j)
    requires key in j && j[key].Obj? && key in m.fields && m.fields[key] == VMap(child)
    requires Denotes(v, jv) && Root(v) <= Foot(v) && child !in Foot(v) && m !in Foot(v)
    requires forall k' :: k' in child.fields && k' != k ==> Foot(v) !! Foot(child.fields[k'])
    requires forall k' :: k' in m.fields && k' != key ==> Foot(v) !! Foot(m.fields[k'])
    modifies m, child
    ensures MapDenotes(m, j[key := Obj(j[key].fields[k := jv])])
    ensures m.fields == old(m.fields)
    ensures m.repr == old(m.repr) + old(Foot(v))
  {
    assert Denotes(m.fields[key], j[key]);
    ghost var nodes := m.repr - {m} - child.repr;
    ForestSplit(m.fields, j, m.repr - {m}, key);
    SetEntry(child, j[key].fields, k, v, jv);
    ForestReplace(m.fields, j, nodes, key, Obj(j[key].fields[k := jv]));
    m.repr := m.repr + old(Foot(v));
    assert m.repr - {m} == nodes + child.repr;
  }

  // ------------------------------------------------------ Marker, injection

  method StampStringAttribute(m: MapNode, ghost j: Fields)
    requires MapDenotes(m, j)
    modifies m.repr
    ensures MapDenotes(m, Drivers.StampString(j)) && fresh(m.repr - old(m.repr))
  {
    var attrs := EnsureNested(m, j, "attributes");
    ghost var j1 := j["attributes" := Obj(Drivers.Nested(j, "attributes"))];
    SetNestedEntry(m, j1, "attributes", attrs, Drivers.MANAGED_KEY, VStr(Drivers.MANAGED_VALUE),
      Str(Drivers.MANAGED_VALUE));
    assert Drivers.StampString(j) ==
           j1["attributes" := Obj(j1["attributes"].fields[Drivers.MANAGED_KEY := Str(Drivers.MANAGED_VALUE)])];
  }

  lemma ListAppend(list: ListNode, items: seq<Json>, node: ListNode, text: string)
    requires ListDenotes(list, items)
    requires node.items == list.items + [VStr(text)]
    requires node.repr == {node} + (list.repr - {list}) && node !in list.repr
    ensures ListDenotes(node, items + [Str(text)])
  {
    forall i | 0 <= i < |node.items| ensures Denotes(node.items[i], (items + [Str(text)])[i]) {
      if i < |items| { assert node.items[i] == list.items[i]; }
    }
  }

  // The appended list is a new node over the old elements.
  method AppendText(attrs: MapNode, ghost j: Fields, key: string, text: string) returns (v: Val)
    requires MapDenotes(attrs, j)
    ensures Denotes(v, Arr(Drivers.List(j, key) + [Str(text)])) && Root(v) <= Foot(v)
    ensures fresh(Foot(v) - attrs.repr) && attrs !in Foot(v)
    ensures forall k :: k in attrs.fields && k != key ==> Foot(v) !! Foot(attrs.fields[k])
  {
    if key in attrs.fields && attrs.fields[key].VList? {
      var list := attrs.fields[key].list;
      assert Denotes(attrs.fields[key], j[key]);
      var node := new ListNode(list.items + [VStr(text)], list.repr - {list});
      v := VList(node);
      ListAppend(list, j[key].items, node, text);
    } else {
      if key in attrs.fields { assert Denotes(attrs.fields[key], j[key]); }
      var node := new ListNode([VStr(text)], {});
      assert ListDenotes(node, [] + [Str(text)]);
      v := VList(node);
    }
  }

  method StampSliceAttribute(m: MapNode, ghost j: Fields)
    requires MapDenotes(m, j)
    modifies m.repr
    ensures MapDenotes(m, Drivers.StampSlice(j)) && fresh(m.repr - old(m.repr))
  {
    var attrs := EnsureNested(m, j, "attributes");
    ghost var ja := Drivers.Nested(j, "attributes");
    ghost var j1 := j["attributes" := Obj(ja)];
    assert Denotes(m.fields["attributes"], Obj(ja));
    var v := AppendText(attrs, ja, Drivers.MANAGED_KEY, Drivers.MANAGED_VALUE);
    ghost var jv := Arr(Drivers.List(ja, Drivers.MANAGED_KEY) + [Str(Drivers.MANAGED_VALUE)]);
    SetNestedEntry(m, j1, "attributes", attrs, Drivers.MANAGED_KEY, v, jv);
    assert Drivers.StampSlice(j) == j1["attributes" := Obj(j1["attributes"].fields[Drivers.MANAGED_KEY := jv])];
  }

  // One injected value more.
  method InjectOne(m: MapNode, ghost j: Fields, key: string, child: MapNode,
                   ghost done: map<string, string>, k: string, value: string)
    requires MapDenotes(m, Drivers.InjectKeyed(j, key, done))
    requires key in m.fields && m.fields[key] == VMap(child)
    modifies m, child
    ensures MapDenotes(m, Drivers.InjectKeyed(j, key, done[k := value]))
    ensures m.fields == old(m.fields) && m.repr == old(m.repr)
  {
    ghost var now := Drivers.InjectKeyed(j, key, done);
    assert Denotes(m.fields[key], now[key]);
    SetNestedEntry(m, now, key, child, k, VStr(value), Str(value));
    InjectStep(j, key, done, k, value);
  }

  lemma InjectStep(j: Fields, key: string, done: map<string, string>, k: string, value: string)
    ensures var now := Drivers.InjectKeyed(j, key, done);
            now[key := Obj(now[key].fields[k := Str(value)])] == Drivers.InjectKeyed(j, key, done[k := value])
  {
    assert (Drivers.Nested(j, key) + Drivers.Texts(done))[k := Str(value)] ==
           Drivers.Nested(j, key) + Drivers.Texts(done[k := value]);
  }

  method InjectValues(m: MapNode, ghost j: Fields, key: string, values: map<string, string>)
    requires MapDenotes(m, j)
    modifies m.repr
    ensures MapDenotes(m, Drivers.InjectKeyed(j, key, values)) && fresh(m.repr - old(m.repr))
  {
    var child := EnsureNested(m, j, key);
    assert Drivers.Nested(j, key) + Drivers.Texts(map[]) == Drivers.Nested(j, key);
    assert child in m.repr by {
      assert Denotes(m.fields[key], Obj(Drivers.Nested(j, key)));
    }
    InjectAll(m, j, key, child, values);
  }

  method InjectAll(m: MapNode, ghost j: Fields, key: string, child: MapNode, values: map<string, string>)
    requires MapDenotes(m, Drivers.InjectKeyed(j, key, map[]))
    requires key in m.fields && m.fields[key] == VMap(child)
    modifies m, child
    ensures MapDenotes(m, Drivers.InjectKeyed(j, key, values)) && m.repr == old(m.repr)
  {
    ghost var done: map<string, string> := map[];
    var todo := values.Keys;
    hide MapDenotes, Drivers.InjectKeyed;
    while todo != {}
      invariant todo <= values.Keys && done.Keys == values.Keys - todo
      invariant forall k :: k in done ==> done[k] == values[k]
      invariant MapDenotes(m, Drivers.InjectKeyed(j, key, done))
      invariant m.fields == old(m.fields) && m.repr == old(m.repr)
      decreases todo
    {
      var k :| k in todo;
      InjectOne(m, j, key, child, done, k, values[k]);
      todo, done := todo - {k}, done[k := values[k]];
    }
    assert done == values;
  }

  // --------------------------------------------------------- Whole pipeline

  method NewZero(zero: Json) returns (v: Val)
    requires LastApplied.IsZeroValue(zero)
    ensures Denotes(v, zero) && Root(v) <= Foot(v) && fresh(Foot(v))
  {
    match zero
    case Str(_) => v := VStr("");
    case Bool(_) => v := VBool(false);
    case Arr(_) =>
      var node := new ListNode([], {});
      v := VList(node);
    case Obj(_) =>
      var node := new MapNode(map[], {});
      v := VMap(node);
  }

  // Adds the reset of every removed field.
  method AddResets(m: MapNode, ghost spec: Fields, last: Fields)
    requires MapDenotes(m, spec)
    modifies m
    ensures MapDenotes(m, spec + LastApplied.Resets(spec, last)) && fresh(m.repr - old(m.repr))
  {
    ghost var done: Fields := map[];
    var todo := last.Keys;
    assert spec + LastApplied.Resets(spec, done) == spec;
    while todo != {}
      invariant todo <= last.Keys && done.Keys == last.Keys - todo
      invariant forall k :: k in done ==> done[k] == last[k]
      invariant MapDenotes(m, spec + LastApplied.Resets(spec, done)) && fresh(m.repr - old(m.repr))
      decreases todo
    {
      var k :| k in todo;
      LastApplied.ResetsStep(spec, done, k, last[k]);
      var zero := LastApplied.ZeroFor(last[k]);
      if k !in m.fields && zero.Some? {
        var v := NewZero(zero.value);
        SetEntry(m, spec + LastApplied.Resets(spec, done), k, v, zero.value);
      }
      todo, done := todo - {k}, done[k := last[k]];
    }
    assert done == last;
  }

  method EffectiveCopy(spec: MapNode, ghost j: Fields, annotation: LastApplied.Annotation)
    returns (payload: MapNode?)
    requires MapDenotes(spec, j)
    ensures payload == null <==> LastApplied.Effective(j, annotation).None?
    ensures payload != null ==>
      fresh(payload.repr) && MapDenotes(payload, LastApplied.Effective(j, annotation).value)
  {
    if annotation.Undecodable? {
      return null;
    }
    payload := DeepCopyMap(spec, j);
    if annotation.Snapshot? {
      AddResets(payload, j, annotation.last);
    }
  }

  method ManagedMarker(kind: Drivers.Kind, m: MapNode, ghost j: Fields)
    requires MapDenotes(m, j)
    modifies m.repr
    ensures MapDenotes(m, Drivers.Stamp(kind, j)) && fresh(m.repr - old(m.repr))
  {
    match kind
    case Realm | Client | ClientScope => StampStringAttribute(m, j);
    case RealmRole | Group => StampSliceAttribute(m, j);
    case IdentityProvider =>
  }

  method PreparePayload(kind: Drivers.Kind, secret: Drivers.Secret, m: MapNode, ghost j: Fields) returns (ok: bool)
    requires MapDenotes(m, j)
    modifies m.repr
    ensures ok <==> Drivers.Prepare(kind, secret, j).Some?
    ensures ok ==> MapDenotes(m, Drivers.Prepare(kind, secret, j).value) && fresh(m.repr - old(m.repr))
  {
    if kind.ClientScope? || kind.RealmRole? || kind.Group? || secret.NotReferenced? {
      return true;
    }
    if secret.NotFound? {
      return false;
    }
    if kind.Client? {
      SetEntry(m, j, "secret", VStr(secret.single), Str(secret.single));
    } else {
      InjectValues(m, j, if kind.Realm? then "smtpServer" else "config", secret.keyed);
    }
    return true;
  }

  // The body of a create request: copy, reset, inject, stamp. The snapshot is
  // not among what may change, and the payload reaches none of its nodes.
  method CreateBody(spec: MapNode, ghost j: Fields, annotation: LastApplied.Annotation,
                    kind: Drivers.Kind, secret: Drivers.Secret) returns (payload: MapNode?)
    requires MapDenotes(spec, j)
    ensures MapDenotes(spec, j)
    ensures payload != null <==>
      LastApplied.Effective(j, annotation).Some? &&
      Drivers.CreatePayload(kind, secret, LastApplied.Effective(j, annotation).value).Some?
    ensures payload != null ==>
      && fresh(payload.repr)
      && MapDenotes(payload, Drivers.CreatePayload(kind, secret, LastApplied.Effective(j, annotation).value).value)
  {
    hide MapDenotes, LastApplied.Effective, Drivers.Prepare, Drivers.Stamp;
    payload := EffectiveCopy(spec, j, annotation);
    if payload == null {
      return;
    }
    ghost var je := LastApplied.Effective(j, annotation).value;
    var ok := PreparePayload(kind, secret, payload, je);
    if !ok {
      return null;
    }
    ManagedMarker(kind, payload, Drivers.Prepare(kind, secret, je).value);
  }

  // The payload an existing resource is compared with: copy, reset, stamp,
  // inject.
  method UpdateBody(spec: MapNode, ghost j: Fields, annotation: LastApplied.Annotation,
                    kind: Drivers.Kind, secret: Drivers.Secret) returns (payload: MapNode?)
    requires MapDenotes(spec, j)
    ensures MapDenotes(spec, j)
    ensures payload != null <==>
      LastApplied.Effective(j, annotation).Some? &&
      Drivers.UpdatePayload(kind, secret, LastApplied.Effective(j, annotation).value).Some?
    ensures payload != null ==>
      && fresh(payload.repr)
      && MapDenotes(payload, Drivers.UpdatePayload(kind, secret, LastApplied.Effective(j, annotation).value).value)
  {
    hide MapDenotes, LastApplied.Effective, Drivers.Prepare, Drivers.Stamp;
    payload := EffectiveCopy(spec, j, annotation);
    if payload == null {
      return;
    }
    ghost var je := LastApplied.Effective(j, annotation).value;
    ManagedMarker(kind, payload, je);
    var ok := PreparePayload(kind, secret, payload, Drivers.Stamp(kind, je));
    if !ok {
      return null;
    }
  }

  // ----------------------------------------------------------- Update body

  // A map with the same entries: only the top node is new.
  method CloneMap(m: MapNode, ghost j: Fields) returns (c: MapNode)
    requires MapDenotes(m, j)
    ensures fresh(c) && c.fields == m.fields && c.repr == {c} + (m.repr - {m})
    ensures MapDenotes(c, j)
  {
    var out: map<string, Val> := map[];
    var todo := m.fields.Keys;
    while todo != {}
      invariant todo <= m.fields.Keys && out.Keys == m.fields.Keys - todo
      invariant forall k :: k in out ==> out[k] == m.fields[k]
      decreases todo
    {
      var k :| k in todo;
      out, todo := out[k := m.fields[k]], todo - {k};
    }
    assert out == m.fields;
    c := new MapNode(out, m.repr - {m});
    assert c.repr - {c} == m.repr - {m};
  }

  method DeleteEntry(m: MapNode, ghost j: Fields, k: string)
    requires MapDenotes(m, j)
    modifies m
    ensures MapDenotes(m, j - {k}) && m.repr == old(m.repr) && m.fields == old(m.fields) - {k}
  {
    ghost var nodes := m.repr - {m};
    assert Forest(m.fields - {k}, j - {k}, nodes);
    m.fields := m.fields - {k};
  }

  // Lays the payload over the clone of the remote representation, in place.
  // Neither of the two may change: what PostApply later reads is what was
  // fetched.
  method MergedBody(remote: MapNode, ghost jr: Fields, payload: MapNode, ghost jp: Fields) returns (merged: MapNode)
    requires MapDenotes(remote, jr) && MapDenotes(payload, jp)
    requires remote.repr !! payload.repr
    ensures fresh(merged) && MapDenotes(merged, LastApplied.Overlay(jr, jp))
    ensures MapDenotes(remote, jr) && MapDenotes(payload, jp)
  {
    merged := CloneMap(remote, jr);
    assert LastApplied.Overlay(jr, map[]) == jr;
    MergeInto(merged, remote, jr, payload, jp);
  }

  // Part of the payload has been laid over the clone so far.
  ghost predicate Merging(merged: MapNode, remote: MapNode, jr: Fields, payload: MapNode, jp: Fields, done: Fields)
    reads merged, merged.repr, remote, remote.repr, payload, payload.repr
  {
    && MapDenotes(remote, jr) && MapDenotes(payload, jp) && remote.repr !! payload.repr
    && merged !in remote.repr && merged !in payload.repr
    && MapDenotes(merged, LastApplied.Overlay(jr, done))
    && FromEither(merged.fields, remote, payload, done.Keys)
  }

  method MergeInto(merged: MapNode, remote: MapNode, ghost jr: Fields, payload: MapNode, ghost jp: Fields)
    requires MapDenotes(payload, jp) && Merging(merged, remote, jr, payload, jp, map[])
    modifies merged
    ensures MapDenotes(merged, LastApplied.Overlay(jr, jp))
  {
    var todo := payload.fields.Keys;
    ghost var done: Fields := map[];
    assert payload != merged && payload.fields.Keys == jp.Keys;
    hide MapDenotes, LastApplied.Overlay, Merging;
    while todo != {}
      invariant todo <= jp.Keys && done.Keys == jp.Keys - todo
      invariant forall k :: k in done ==> done[k] == jp[k]
      invariant Merging(merged, remote, jr, payload, jp, done)
      decreases todo
    {
      var k :| k in todo;
      MergeEntry(merged, remote, jr, payload, jp, done, k);
      todo, done := todo - {k}, done[k := jp[k]];
    }
    assert done == jp;
    MergingDone(merged, remote, jr, payload, jp);
  }

  lemma MergingDone(merged: MapNode, remote: MapNode, jr: Fields, payload: MapNode, jp: Fields)
    requires Merging(merged, remote, jr, payload, jp, jp)
    ensures MapDenotes(merged, LastApplied.Overlay(jr, jp))
  {
  }

  // Every entry is one of the payload already taken, or one of the remote map.
  ghost predicate FromEither(vals: map<string, Val>, remote: MapNode, payload: MapNode, done: set<string>)
    reads remote, payload
  {
    forall k :: k in vals ==>
      || (k in done && k in payload.fields && vals[k] == payload.fields[k])
      || (k !in done && k in remote.fields && vals[k] == remote.fields[k])
  }

  // An entry of the payload shares nothing with what is already in place.
  lemma EntryApart(merged: MapNode, remote: MapNode, jr: Fields, payload: MapNode, jp: Fields, done: Fields, k: string)
    requires Merging(merged, remote, jr, payload, jp, done)
    requires k in jp && k !in done && k in payload.fields
    ensures var v := payload.fields[k];
            && Denotes(v, jp[k]) && Root(v) <= Foot(v) && merged !in Foot(v)
            && forall k' :: k' in merged.fields && k' != k ==> Foot(v) !! Foot(merged.fields[k'])
  {
    assert Forest(payload.fields, jp, payload.repr - {payload}) && Forest(remote.fields, jr, remote.repr - {remote});
    hide LastApplied.Overlay, Denotes;
  }

  method MergeEntry(merged: MapNode, remote: MapNode, ghost jr: Fields, payload: MapNode, ghost jp: Fields,
                    ghost done: Fields, k: string)
    requires Merging(merged, remote, jr, payload, jp, done)
    requires k in jp && k !in done && k in payload.fields
    modifies merged
    ensures Merging(merged, remote, jr, payload, jp, done[k := jp[k]])
  {
    ghost var before := LastApplied.Overlay(jr, done);
    LastApplied.OverlayStep(jr, done, k, jp[k]);
    EntryApart(merged, remote, jr, payload, jp, done, k);
    var v := payload.fields[k];
    assert v.VNull? <==> jp[k].Null?;
    assert remote in remote.repr && payload in payload.repr;
    hide LastApplied.Overlay, MapDenotes, Denotes;
    if v.VNull? {
      DeleteEntry(merged, before, k);
    } else {
      SetEntry(merged, before, k, v, jp[k]);
    }
    assert FromEither(merged.fields, remote, payload, done[k := jp[k]].Keys);
  }
}
