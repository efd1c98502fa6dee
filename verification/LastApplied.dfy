// The payload algebra of internal/controller/lastapplied.go: what to enforce,
// how it is laid over the remote representation, and when the remote
// representation already agrees with it.

module LastApplied {
  import opened Wrappers
  import opened Json
  import opened ListMatching

  // What the Admin API returns in place of a value it does not disclose.
  const MASKED: string := "**********"

  // ------------------------------------------------------------ Comparison

  // One of the values a removed field is reset to.
  predicate IsZeroValue(v: Json)
  {
    v == Str("") || v == Bool(false) || v == Arr([]) || v == Obj(map[])
  }

  // A desired value is met by a remote value. Objects are compared on the
  // desired keys only, lists up to order, scalars exactly or against a mask.
  predicate Matches(want: Json, got: Json)
    decreases want, 1
  {
    match want
    case Obj(w) => got.Obj? && !Differs(got.fields, w)
    case Arr(w) => got.Arr? && |w| == |got.items| && Greedy(MatchMatrix(w, got.items), {}).Some?
    case _ => got == Str(MASKED) || want == got
  }

  // Which desired elements meet which remote elements.
  function MatchMatrix(w: seq<Json>, g: seq<Json>): (m: Matrix)
    ensures |m| == |w| && forall i :: 0 <= i < |m| ==> |m[i]| == |g|
    decreases Arr(w), 0
  {
    seq(|w|, i requires 0 <= i < |w| => seq(|g|, j requires 0 <= j < |g| => Matches(w[i], g[j])))
  }

  // Some key the payload manages is not as the payload wants it.
  predicate Differs(remote: Fields, payload: Fields)
    decreases Obj(payload), 0
  {
    exists k :: k in payload &&
      if payload[k].Null? then !Missing(remote, k)
      else if IsZeroValue(payload[k]) then !Missing(remote, k) && !Matches(payload[k], remote[k])
      else Missing(remote, k) || !Matches(payload[k], remote[k])
  }

  // The same, for one key.
  predicate FieldAgrees(remote: Fields, k: string, want: Json)
  {
    if want.Null? then Missing(remote, k)
    else if IsZeroValue(want) then Missing(remote, k) || Matches(want, remote[k])
    else !Missing(remote, k) && Matches(want, remote[k])
  }

  lemma DiffersByField(remote: Fields, payload: Fields)
    ensures Differs(remote, payload) <==> exists k :: k in payload && !FieldAgrees(remote, k, payload[k])
  {
  }

  // ----------------------------------------------------------- Composition

  predicate SameType(a: Json, b: Json)
  {
    (a.Str? <==> b.Str?) && (a.Bool? <==> b.Bool?) && (a.Arr? <==> b.Arr?) && (a.Obj? <==> b.Obj?)
  }

  // The reset value of a previously applied value; numbers and null have none.
  function ZeroFor(previous: Json): (r: Option<Json>)
    ensures r.Some? <==> !previous.Num? && !previous.Null?
    ensures r.Some? ==> IsZeroValue(r.value) && SameType(r.value, previous)
  {
    match previous
    case Str(_) => Some(Str(""))
    case Bool(_) => Some(Bool(false))
    case Arr(_) => Some(Arr([]))
    case Obj(_) => Some(Obj(map[]))
    case _ => None
  }

  // The keys that a removal resets.
  function Resets(spec: Fields, last: Fields): (r: Fields)
    ensures r.Keys !! spec.Keys
    ensures forall k :: k in r <==> k in last && k !in spec && ZeroFor(last[k]).Some?
    ensures forall k :: k in r ==> Some(r[k]) == ZeroFor(last[k])
  {
    map k | k in last && k !in spec && ZeroFor(last[k]).Some? :: ZeroFor(last[k]).value
  }

  // The stored last-applied annotation: never written, a decoded snapshot, or
  // text that does not decode.
  datatype Annotation = Unset | Snapshot(last: Fields) | Undecodable

  // What to enforce: the spec plus the resets of what it no longer mentions.
  function Effective(spec: Fields, annotation: Annotation): (r: Option<Fields>)
  {
    match annotation
    case Unset => Some(spec)
    case Undecodable => None
    case Snapshot(last) => Some(spec + Resets(spec, last))
  }

  // The payload laid over a representation; null removes the key.
  function Overlay(remote: Fields, payload: Fields): (r: Fields)
    ensures forall k :: k in r <==> (k in payload && !payload[k].Null?) || (k in remote && k !in payload)
    ensures forall k :: k in r ==> r[k] == if k in payload then payload[k] else remote[k]
  {
    map k | k in remote.Keys + payload.Keys && (k in payload ==> !payload[k].Null?) ::
      if k in payload then payload[k] else remote[k]
  }

  // ------------------------------------------------------------ The code

  // Laying one more entry over the result of the entries before it.
  lemma OverlayStep(remote: Fields, part: Fields, k: string, v: Json)
    ensures Overlay(remote, part[k := v]) ==
            if v.Null? then Overlay(remote, part) - {k} else Overlay(remote, part)[k := v]
  {
  }

  method MergePayload(remote: Fields, payload: Fields) returns (merged: Fields)
    ensures merged == Overlay(remote, payload)
  {
    merged := remote;
    var todo := payload.Keys;
    ghost var done: Fields := map[];
    while todo != {}
      invariant todo <= payload.Keys && done.Keys == payload.Keys - todo
      invariant forall k :: k in done ==> done[k] == payload[k]
      invariant merged == Overlay(remote, done)
      decreases |todo|
    {
      var k :| k in todo;
      OverlayStep(remote, done, k, payload[k]);
      todo, done := todo - {k}, done[k := payload[k]];
      if payload[k].Null? {
        merged := merged - {k};
      } else {
        merged := merged[k := payload[k]];
      }
    }
    assert done == payload;
  }

  // One more entry of the snapshot taken into account.
  lemma ResetsStep(spec: Fields, part: Fields, k: string, v: Json)
    requires k !in part
    ensures spec + Resets(spec, part[k := v]) ==
            if k !in spec && ZeroFor(v).Some? then (spec + Resets(spec, part))[k := ZeroFor(v).value]
            else spec + Resets(spec, part)
  {
  }

  method EffectivePayload(spec: Fields, annotation: Annotation) returns (payload: Option<Fields>)
    ensures payload == Effective(spec, annotation)
  {
    if annotation.Unset? {
      return Some(spec);
    }
    if annotation.Undecodable? {
      return None;
    }
    var last, p := annotation.last, spec;
    var todo := last.Keys;
    ghost var done: Fields := map[];
    while todo != {}
      invariant todo <= last.Keys && done.Keys == last.Keys - todo
      invariant forall k :: k in done ==> done[k] == last[k]
      invariant p == spec + Resets(spec, done)
      decreases |todo|
    {
      var k :| k in todo;
      ResetsStep(spec, done, k, last[k]);
      todo, done := todo - {k}, done[k := last[k]];
      if k !in p {
        var zero := ZeroFor(last[k]);
        if zero.Some? {
          p := p[k := zero.value];
        }
      }
    }
    assert done == last;
    return Some(p);
  }

  method PayloadDiffers(remote: Fields, payload: Fields) returns (differs: bool)
    ensures differs == Differs(remote, payload)
    decreases Obj(payload), 0
  {
    var todo := payload.Keys;
    while todo != {}
      invariant todo <= payload.Keys
      invariant forall k :: k in payload && k !in todo ==> FieldAgrees(remote, k, payload[k])
      decreases |todo|
    {
      var k :| k in todo;
      todo := todo - {k};
      var want := payload[k];
      var present := k in remote && !remote[k].Null?;
      if want.Null? {
        if present { return true; }
      } else if IsZeroValue(want) {
        if present {
          var equal := ManagedValueEqual(want, remote[k]);
          if !equal { return true; }
        }
      } else {
        if !present { return true; }
        var equal := ManagedValueEqual(want, remote[k]);
        if !equal { return true; }
      }
    }
    return false;
  }

  method ManagedValueEqual(want: Json, got: Json) returns (equal: bool)
    ensures equal == Matches(want, got)
    decreases want, 1
  {
    match want
    case Obj(w) =>
      if !got.Obj? { return false; }
      var differs := PayloadDiffers(got.fields, w);
      return !differs;
    case Arr(w) =>
      if !got.Arr? || |w| != |got.items| { return false; }
      equal := ListsEqual(w, got.items);
    case _ =>
      return got == Str(MASKED) || want == got;
  }

  // The loop over the desired list with its array of consumed positions.
  method ListsEqual(w: seq<Json>, g: seq<Json>) returns (equal: bool)
    ensures equal == Greedy(MatchMatrix(w, g), {}).Some?
    decreases Arr(w), 0
  {
    ghost var m := MatchMatrix(w, g);
    var used := new bool[|g|](_ => false);
    assert Taken(used) == {};
    for i := 0 to |w|
      invariant Greedy(m, {}).Some? <==> Greedy(m[i..], Taken(used)).Some?
    {
      GreedyStep(m, i, Taken(used));
      var j := FindUnused(w[i], g, used, m[i]);
      if j == |g| { return false; }
      ghost var before := Taken(used);
      used[j] := true;
      assert Taken(used) == before + {j};
    }
    return true;
  }

  lemma GreedyStep(m: Matrix, i: nat, used: set<nat>)
    requires i < |m|
    ensures var c := FirstFree(m[i], used, 0);
            Greedy(m[i..], used).Some? <==> c < |m[i]| && Greedy(m[i + 1..], used + {c}).Some?
  {
    assert m[i..][0] == m[i] && m[i..][1..] == m[i + 1..];
  }

  // The inner loop: the first position not consumed that meets the element.
  method FindUnused(want: Json, g: seq<Json>, used: array<bool>, ghost row: seq<bool>) returns (j: nat)
    requires used.Length == |g| == |row|
    requires forall c :: 0 <= c < |g| ==> row[c] == Matches(want, g[c])
    ensures j == FirstFree(row, Taken(used), 0)
    decreases want, 2
  {
    j := 0;
    while j < |g|
      invariant 0 <= j <= |g|
      invariant forall c :: 0 <= c < j ==> !row[c] || c in Taken(used)
    {
      if !used[j] {
        var same := ManagedValueEqual(want, g[j]);
        if same { return; }
      }
      j := j + 1;
    }
  }

  // The positions marked in the array.
  ghost function Taken(used: array<bool>): (s: set<nat>)
    reads used
  {
    set j | 0 <= j < used.Length && used[j]
  }
}
