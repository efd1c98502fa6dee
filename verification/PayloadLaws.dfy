// Laws of the payload algebra.

module PayloadLaws {
  import opened Wrappers
  import opened Json
  import opened ListMatching
  import opened LastApplied

  // ----------------------------------------------------------- Reflexivity

  // Every value meets itself.
  lemma {:induction false} MatchesItself(v: Json)
    ensures Matches(v, v)
  {
    match v
    case Obj(fields) =>
      forall k | k in fields ensures FieldAgrees(fields, k, fields[k]) {
        MatchesItself(fields[k]);
      }
      DiffersByField(fields, fields);
    case Arr(items) =>
      forall i | 0 <= i < |items| ensures MatchMatrix(items, items)[i][i] {
        MatchesItself(items[i]);
      }
      DiagonalSucceeds(MatchMatrix(items, items));
    case _ =>
  }

  lemma DiagonalSucceeds(m: Matrix)
    requires Rectangular(m, |m|)
    requires forall i :: 0 <= i < |m| ==> m[i][i]
    ensures Greedy(m, {}).Some?
  {
    var d := Identity(|m|);
    forall i, c | 0 <= i < |d| && 0 <= c < d[i] && m[i][c] ensures c in d[..i] {
      assert d[..i][c] == c;
    }
    GreedyFollows(m, {}, d);
  }

  // A representation that was just laid over with a payload agrees with it.
  lemma OverlayAgrees(remote: Fields, payload: Fields)
    ensures !Differs(Overlay(remote, payload), payload)
  {
    var merged := Overlay(remote, payload);
    forall k | k in payload ensures FieldAgrees(merged, k, payload[k]) {
      if !payload[k].Null? {
        MatchesItself(payload[k]);
      }
    }
    DiffersByField(merged, payload);
  }

  // -------------------------------------------------------------- Shrinking

  // Fewer keys in objects at any depth, in list elements too.
  ghost predicate Shrinks(small: Json, big: Json)
  {
    || small == big
    || (&& small.Obj? && big.Obj? && small.fields.Keys <= big.fields.Keys
        && forall k :: k in small.fields ==> Shrinks(small.fields[k], big.fields[k]))
    || (&& small.Arr? && big.Arr? && |small.items| == |big.items|
        && forall i :: 0 <= i < |small.items| ==> Shrinks(small.items[i], big.items[i]))
  }

  // In every list that was shrunk, the smaller elements do not overlap on the
  // remote list they are compared with.
  ghost predicate Unambiguous(small: Json, big: Json, got: Json)
  {
    || small == big
    || (&& small.Obj? && big.Obj?
        && (got.Obj? ==>
              forall k :: k in small.fields && k in big.fields && k in got.fields ==>
                Unambiguous(small.fields[k], big.fields[k], got.fields[k])))
    || (&& small.Arr? && big.Arr? && |small.items| == |big.items|
        && (got.Arr? ==>
              && NoOverlap(small.items, got.items)
              && forall i, j :: 0 <= i < |small.items| && 0 <= j < |got.items| ==>
                   Unambiguous(small.items[i], big.items[i], got.items[j])))
  }

  // Asking for less creates no difference, unless elements of a list that ask
  // for less get in each other's way.
  lemma {:induction false} ShrinkKeepsMatch(small: Json, big: Json, got: Json)
    requires Shrinks(small, big) && Unambiguous(small, big, got) && Matches(big, got)
    ensures Matches(small, got)
    decreases big, 1
  {
    if small == big {
    } else if big.Obj? {
      DiffersByField(got.fields, big.fields);
      forall k | k in small.fields ensures FieldAgrees(got.fields, k, small.fields[k]) {
        assert FieldAgrees(got.fields, k, big.fields[k]);
        if !Missing(got.fields, k) && !big.fields[k].Null? {
          ShrinkKeepsMatch(small.fields[k], big.fields[k], got.fields[k]);
        }
      }
      DiffersByField(got.fields, small.fields);
    } else if big.Arr? {
      ShrunkPairable(small.items, big.items, got.items);
      ListMatchComplete(small.items, got.items);
    }
  }

  // A pairing of the larger elements is one of the smaller elements.
  lemma {:induction false} ShrunkPairable(small: seq<Json>, big: seq<Json>, got: seq<Json>)
    requires |small| == |big| && Matches(Arr(big), Arr(got))
    requires forall i :: 0 <= i < |small| ==> Shrinks(small[i], big[i])
    requires forall i, j :: 0 <= i < |small| && 0 <= j < |got| ==> Unambiguous(small[i], big[i], got[j])
    ensures Pairable(small, got)
    decreases Arr(big), 0
  {
    ListMatchSound(big, got);
    var p :| Paired(big, got, p);
    forall i | 0 <= i < |small| ensures Matches(small[i], got[p[i]]) {
      ShrinkKeepsMatch(small[i], big[i], got[p[i]]);
    }
    assert Paired(small, got, p);
  }

  lemma ShrinkKeepsAgreement(small: Fields, big: Fields, remote: Fields)
    requires Shrinks(Obj(small), Obj(big)) && Unambiguous(Obj(small), Obj(big), Obj(remote))
    requires !Differs(remote, big)
    ensures !Differs(remote, small)
  {
    ShrinkKeepsMatch(Obj(small), Obj(big), Obj(remote));
  }

  // For a list this is exact: after shrinking its elements it is met in every
  // order of the two lists, if and only if the smaller elements do not overlap.
  lemma ListShrinkIff(small: seq<Json>, big: seq<Json>, got: seq<Json>)
    requires |small| == |big| && Matches(Arr(big), Arr(got))
    requires forall i :: 0 <= i < |small| ==> Shrinks(small[i], big[i])
    requires forall i, j :: 0 <= i < |small| && 0 <= j < |got| ==> Unambiguous(small[i], big[i], got[j])
    ensures MetInEveryOrder(small, got) <==> NoOverlap(small, got)
  {
    ShrunkPairable(small, big, got);
    OrderDoesNotMatterIff(small, got);
    if NoOverlap(small, got) {
      ListMatchComplete(small, got);
    }
    if MetInEveryOrder(small, got) {
      IdentityOrder(small, got);
    }
  }

  ghost predicate MetInEveryOrder(w: seq<Json>, g: seq<Json>)
    requires |w| == |g|
  {
    forall rp, cp :: IsOrder(rp, |w|) && IsOrder(cp, |w|) ==> Matches(Arr(Permute(w, rp)), Arr(Permute(g, cp)))
  }

  lemma IdentityOrder(w: seq<Json>, g: seq<Json>)
    requires |w| == |g| && MetInEveryOrder(w, g)
    ensures Matches(Arr(w), Arr(g))
  {
    var id := seq(|w|, i => i);
    assert IsOrder(id, |w|);
    assert Permute(w, id) == w && Permute(g, id) == g;
  }

  // Fewer keys in objects, lists unchanged: nothing can get in the way.
  ghost predicate ShrinksObjects(small: Json, big: Json)
  {
    if big.Obj? then
      && small.Obj?
      && small.fields.Keys <= big.fields.Keys
      && forall k :: k in small.fields ==> ShrinksObjects(small.fields[k], big.fields[k])
    else small == big
  }

  lemma {:induction false} ObjectsUnambiguous(small: Json, big: Json, got: Json)
    requires ShrinksObjects(small, big)
    ensures Shrinks(small, big) && Unambiguous(small, big, got)
    decreases big
  {
    if big.Obj? {
      forall k | k in small.fields ensures Shrinks(small.fields[k], big.fields[k]) {
        ObjectsUnambiguous(small.fields[k], big.fields[k], got);
      }
      if got.Obj? {
        forall k | k in small.fields && k in got.fields
          ensures Unambiguous(small.fields[k], big.fields[k], got.fields[k])
        {
          ObjectsUnambiguous(small.fields[k], big.fields[k], got.fields[k]);
        }
      }
    }
  }

  // The smallest case outside the condition: the element that asks for less
  // takes the position the other element needs.
  lemma ShrinkInsideListDiffers()
    ensures var one, b, c := Num(1.0), Obj(map["a" := Num(1.0), "b" := Num(1.0)]),
            Obj(map["a" := Num(1.0), "c" := Num(1.0)]);
            && Matches(Arr([b, c]), Arr([c, b]))
            && !Matches(Arr([Obj(map["a" := one]), c]), Arr([c, b]))
  {
    var one := Num(1.0);
    var a, b, c := Obj(map["a" := one]), Obj(map["a" := one, "b" := one]), Obj(map["a" := one, "c" := one]);
    MatchesItself(b);
    MatchesItself(c);
    assert !Matches(b, c) by { assert "b" in b.fields; }
    assert !Matches(c, b) by { assert "c" in c.fields; }
    assert Matches(a, c);
    var m := MatchMatrix([b, c], [c, b]);
    assert Pairing(m, [1, 0]);
    GreedyFollows(m, {}, [1, 0]);
    var m' := MatchMatrix([a, c], [c, b]);
    assert m'[1] == [true, false];
    assert FirstFree(m'[0], {}, 0) == 0;
    assert FirstFree(m'[1], {0}, 0) == 2;
    assert Greedy(m'[1..], {0}).None? by { assert m'[1..][0] == m'[1]; }
    assert {} + {0} == {0};
  }

  lemma ShrinkInsideListOverlaps()
    ensures var b, c := Obj(map["a" := Num(1.0), "b" := Num(1.0)]), Obj(map["a" := Num(1.0), "c" := Num(1.0)]);
            !NoOverlap([Obj(map["a" := Num(1.0)]), c], [c, b])
  {
    var one := Num(1.0);
    var a, b, c := Obj(map["a" := one]), Obj(map["a" := one, "b" := one]), Obj(map["a" := one, "c" := one]);
    MatchesItself(c);
    assert !Matches(c, b) by { assert "c" in c.fields; }
    assert Matches(a, c) && Matches(a, b);
    var w, g := [a, c], [c, b];
    assert Matches(w[0], g[0]) && Matches(w[1], g[0]) && Matches(w[0], g[1]) != Matches(w[1], g[1]);
  }

  // ---------------------------------------------------------- List verdicts

  // A one-to-one pairing of desired with remote elements, each pair matching.
  ghost predicate Paired(w: seq<Json>, g: seq<Json>, p: seq<nat>)
  {
    && |w| == |g| == |p|
    && Injective(p)
    && forall i :: 0 <= i < |w| ==> p[i] < |g| && Matches(w[i], g[p[i]])
  }

  ghost predicate Pairable(w: seq<Json>, g: seq<Json>)
  {
    exists p :: Paired(w, g, p)
  }

  // Desired elements that share a remote element are met by the same remote
  // elements.
  ghost predicate NoOverlap(w: seq<Json>, g: seq<Json>)
  {
    forall i, k, j :: 0 <= i < |w| && 0 <= k < |w| && 0 <= j < |g| && Matches(w[i], g[j]) && Matches(w[k], g[j])
      ==> forall c :: 0 <= c < |g| ==> Matches(w[i], g[c]) == Matches(w[k], g[c])
  }

  lemma PairableIsHasPairing(w: seq<Json>, g: seq<Json>)
    requires |w| == |g|
    ensures Pairable(w, g) <==> HasPairing(MatchMatrix(w, g))
  {
    var m := MatchMatrix(w, g);
    if p :| Paired(w, g, p) {
      assert Pairing(m, p);
    }
    if p :| Pairing(m, p) {
      assert Paired(w, g, p);
    }
  }

  lemma NoOverlapIsSeparated(w: seq<Json>, g: seq<Json>)
    ensures NoOverlap(w, g) <==> Separated(MatchMatrix(w, g))
  {
    var m := MatchMatrix(w, g);
    if NoOverlap(w, g) {
      forall i, k, j | 0 <= i < |m| && 0 <= k < |m| && 0 <= j < |m[i]| && j < |m[k]| && m[i][j] && m[k][j]
        ensures m[i] == m[k]
      {
        assert forall c :: 0 <= c < |g| ==> m[i][c] == m[k][c];
      }
    }
    if Separated(m) {
      forall i, k, j | 0 <= i < |w| && 0 <= k < |w| && 0 <= j < |g| && Matches(w[i], g[j]) && Matches(w[k], g[j])
        ensures forall c :: 0 <= c < |g| ==> Matches(w[i], g[c]) == Matches(w[k], g[c])
      {
        assert m[i][j] && m[k][j] && m[i] == m[k];
        assert forall c :: 0 <= c < |g| ==> m[i][c] == Matches(w[i], g[c]) && m[k][c] == Matches(w[k], g[c]);
      }
    }
  }

  // A positive verdict always comes with a pairing.
  lemma ListMatchSound(w: seq<Json>, g: seq<Json>)
    requires Matches(Arr(w), Arr(g))
    ensures Pairable(w, g)
  {
    var m := MatchMatrix(w, g);
    assert Pairing(m, Greedy(m, {}).value);
    PairableIsHasPairing(w, g);
  }

  // Conversely a pairing is found whenever desired elements do not overlap.
  lemma ListMatchComplete(w: seq<Json>, g: seq<Json>)
    requires NoOverlap(w, g)
    ensures Matches(Arr(w), Arr(g)) <==> Pairable(w, g)
  {
    if Pairable(w, g) {
      PairableIsHasPairing(w, g);
      NoOverlapIsSeparated(w, g);
      SeparatedExact(MatchMatrix(w, g));
    } else if Matches(Arr(w), Arr(g)) {
      ListMatchSound(w, g);
    }
  }

  lemma AtMostOneNoOverlap(w: seq<Json>, g: seq<Json>)
    requires forall i, j, k :: 0 <= i < |w| && 0 <= j < k < |g| ==> !(Matches(w[i], g[j]) && Matches(w[i], g[k]))
    ensures NoOverlap(w, g)
  {
    forall i, k, j | 0 <= i < |w| && 0 <= k < |w| && 0 <= j < |g| && Matches(w[i], g[j]) && Matches(w[k], g[j])
      ensures forall c :: 0 <= c < |g| ==> Matches(w[i], g[c]) == Matches(w[k], g[c])
    {
      forall c | 0 <= c < |g| ensures Matches(w[i], g[c]) == Matches(w[k], g[c]) {
        if c < j { assert !Matches(w[i], g[c]) && !Matches(w[k], g[c]); }
        else if c > j { assert !Matches(w[i], g[c]) && !Matches(w[k], g[c]); }
      }
    }
  }

  // The verdict on two lists is the same however either list is ordered.
  ghost predicate OrderDoesNotMatter(w: seq<Json>, g: seq<Json>)
    requires |w| == |g|
  {
    forall rp, cp :: IsOrder(rp, |w|) && IsOrder(cp, |w|) ==>
      (Matches(Arr(Permute(w, rp)), Arr(Permute(g, cp))) <==> Matches(Arr(w), Arr(g)))
  }

  lemma MatrixOfPermuted(w: seq<Json>, g: seq<Json>, rp: seq<nat>, cp: seq<nat>)
    requires |w| == |g| && IsOrder(rp, |w|) && IsOrder(cp, |w|)
    ensures MatchMatrix(Permute(w, rp), Permute(g, cp)) == Reorder(MatchMatrix(w, g), rp, cp)
  {
    var a, b := MatchMatrix(Permute(w, rp), Permute(g, cp)), Reorder(MatchMatrix(w, g), rp, cp);
    forall i | 0 <= i < |a| ensures a[i] == b[i] {
      assert forall j :: 0 <= j < |a[i]| ==> a[i][j] == Matches(w[rp[i]], g[cp[j]]);
      assert forall j :: 0 <= j < |a[i]| ==> b[i][j] == MatchMatrix(w, g)[rp[i]][cp[j]];
    }
  }

  lemma VerdictOfPermuted(w: seq<Json>, g: seq<Json>, rp: seq<nat>, cp: seq<nat>)
    requires |w| == |g| && IsOrder(rp, |w|) && IsOrder(cp, |w|)
    ensures Matches(Arr(Permute(w, rp)), Arr(Permute(g, cp))) <==>
            Greedy(Reorder(MatchMatrix(w, g), rp, cp), {}).Some?
  {
    MatrixOfPermuted(w, g, rp, cp);
  }

  lemma OrderDoesNotMatterIsInsensitive(w: seq<Json>, g: seq<Json>)
    requires |w| == |g|
    ensures OrderDoesNotMatter(w, g) <==> OrderInsensitive(MatchMatrix(w, g))
  {
    var m := MatchMatrix(w, g);
    assert Matches(Arr(w), Arr(g)) <==> Greedy(m, {}).Some?;
    if OrderDoesNotMatter(w, g) {
      forall rp, cp | IsOrder(rp, |m|) && IsOrder(cp, |m|)
        ensures Greedy(Reorder(m, rp, cp), {}).Some? <==> Greedy(m, {}).Some?
      {
        VerdictOfPermuted(w, g, rp, cp);
      }
    }
    if OrderInsensitive(m) {
      forall rp, cp | IsOrder(rp, |w|) && IsOrder(cp, |w|)
        ensures Matches(Arr(Permute(w, rp)), Arr(Permute(g, cp))) <==> Matches(Arr(w), Arr(g))
      {
        VerdictOfPermuted(w, g, rp, cp);
      }
    }
  }

  // The comparison is order-insensitive exactly on the lists that admit no
  // pairing or whose desired elements do not overlap.
  lemma OrderDoesNotMatterIff(w: seq<Json>, g: seq<Json>)
    requires |w| == |g|
    ensures OrderDoesNotMatter(w, g) <==> !Pairable(w, g) || NoOverlap(w, g)
  {
    OrderDoesNotMatterIsInsensitive(w, g);
    OrderInsensitiveIff(MatchMatrix(w, g));
    PairableIsHasPairing(w, g);
    NoOverlapIsSeparated(w, g);
  }

  // The smallest case outside that condition: the same two lists, listed in
  // the other order, are reported as different.
  lemma GreedyIncomplete()
    ensures var x, y := Obj(map["a" := Num(1.0)]), Obj(map["a" := Num(1.0), "b" := Num(2.0)]);
            Matches(Arr([x, y]), Arr([x, y])) && !Matches(Arr([x, y]), Arr([y, x])) && Pairable([x, y], [y, x])
  {
    var x, y := Obj(map["a" := Num(1.0)]), Obj(map["a" := Num(1.0), "b" := Num(2.0)]);
    MatchesItself(Arr([x, y]));
    MatchesItself(x);
    MatchesItself(y);
    assert !Matches(y, x) by { assert "b" in y.fields; }
    assert Matches(x, y);
    var m := MatchMatrix([x, y], [y, x]);
    assert m[1] == [true, false];
    assert FirstFree(m[0], {}, 0) == 0;
    assert FirstFree(m[1], {0}, 0) == 2;
    assert Greedy(m[1..], {0}).None? by { assert m[1..][0] == m[1]; }
    assert {} + {0} == {0};
    assert Paired([x, y], [y, x], [1, 0]);
  }

  // ------------------------------------------------------------ Scalar lists

  ghost predicate PlainLists(w: seq<Json>, g: seq<Json>)
  {
    (forall i :: 0 <= i < |w| ==> Scalar(w[i])) && Str(MASKED) !in g
  }

  lemma PlainMatchIsEquality(w: seq<Json>, g: seq<Json>, i: nat, j: nat)
    requires PlainLists(w, g) && i < |w| && j < |g|
    ensures Matches(w[i], g[j]) <==> w[i] == g[j]
  {
    assert g[j] in g;
  }

  // A sequence with one position taken out.
  ghost function Without<T>(s: seq<T>, j: nat): (r: seq<T>)
    requires j < |s|
    ensures |r| == |s| - 1
    ensures forall i :: 0 <= i < |r| ==> r[i] == if i < j then s[i] else s[i + 1]
    ensures multiset(s) == multiset(r) + multiset{s[j]}
  {
    assert s == s[..j] + [s[j]] + s[j + 1..];
    s[..j] + s[j + 1..]
  }

  lemma {:induction false} EqualPairingGivesMultiset(w: seq<Json>, g: seq<Json>, p: seq<nat>)
    requires |w| == |g| && IsOrder(p, |w|)
    requires forall i :: 0 <= i < |w| ==> w[i] == g[p[i]]
    ensures multiset(w) == multiset(g)
  {
    if w == [] {
      assert g == [];
    } else {
      // Drop the last remote element together with its partner.
      var n := |w| - 1;
      var i := Position(p, n + 1, n);
      var w', p', g' := Without(w, i), Without(p, i), g[..n];
      forall k | 0 <= k < n ensures p'[k] < n && w'[k] == g'[p'[k]] {
        var k' := if k < i then k else k + 1;
        assert p'[k] == p[k'] && p[k'] != p[i];
      }
      EqualPairingGivesMultiset(w', g', p');
      assert g == g' + [g[n]];
    }
  }

  // An order of one element fewer, made room for j at the front.
  ghost function InsertFirst(q: seq<nat>, n: nat, j: nat): (p: seq<nat>)
    requires IsOrder(q, n) && j <= n
    ensures IsOrder(p, n + 1) && p[0] == j
    ensures forall i :: 0 <= i < n ==> p[i + 1] == if q[i] < j then q[i] else q[i] + 1
  {
    [j] + seq(n, i requires 0 <= i < n => if q[i] < j then q[i] else q[i] + 1)
  }

  ghost predicate Renames(w: seq<Json>, g: seq<Json>, p: seq<nat>)
  {
    |w| == |g| && IsOrder(p, |w|) && forall i :: 0 <= i < |w| ==> w[i] == g[p[i]]
  }

  lemma LiftRenaming(w: seq<Json>, g: seq<Json>, j: nat, q: seq<nat>)
    requires 0 < |w| == |g| && j < |g| && g[j] == w[0]
    requires Renames(Without(w, 0), Without(g, j), q)
    ensures Renames(w, g, InsertFirst(q, |w| - 1, j))
  {
    var p := InsertFirst(q, |w| - 1, j);
    forall i | 0 <= i < |w| ensures w[i] == g[p[i]] {
      if i > 0 { assert Without(w, 0)[i - 1] == Without(g, j)[q[i - 1]]; }
    }
  }

  lemma DropCommon(w: seq<Json>, g: seq<Json>, j: nat)
    requires multiset(w) == multiset(g) && 0 < |w| && j < |g| && g[j] == w[0]
    ensures multiset(Without(w, 0)) == multiset(Without(g, j))
  {
    assert multiset(Without(w, 0)) == multiset(w) - multiset{w[0]};
    assert multiset(Without(g, j)) == multiset(g) - multiset{g[j]};
  }

  lemma {:induction false} MultisetGivesPairing(w: seq<Json>, g: seq<Json>) returns (p: seq<nat>)
    requires multiset(w) == multiset(g)
    ensures Renames(w, g, p)
    decreases |w|
  {
    assert |w| == |multiset(w)| == |multiset(g)| == |g|;
    if w == [] {
      p := [];
    } else {
      assert w[0] in multiset(g);
      var j :| 0 <= j < |g| && g[j] == w[0];
      DropCommon(w, g, j);
      var q := MultisetGivesPairing(Without(w, 0), Without(g, j));
      LiftRenaming(w, g, j, q);
      p := InsertFirst(q, |w| - 1, j);
    }
  }

  // On lists of scalars, without masked remote values, the comparison is
  // multiset equality.
  lemma ScalarListsAreMultisets(w: seq<Json>, g: seq<Json>)
    requires PlainLists(w, g)
    ensures Matches(Arr(w), Arr(g)) <==> multiset(w) == multiset(g)
  {
    forall i, j | 0 <= i < |w| && 0 <= j < |g| ensures Matches(w[i], g[j]) <==> w[i] == g[j] {
      PlainMatchIsEquality(w, g, i, j);
    }
    assert NoOverlap(w, g);
    ListMatchComplete(w, g);
    if p :| Paired(w, g, p) {
      EqualPairingGivesMultiset(w, g, p);
    }
    if multiset(w) == multiset(g) {
      var p := MultisetGivesPairing(w, g);
      assert Paired(w, g, p);
    }
  }

  // ---------------------------------------------------------------- Resets

  // A remote field that a removal has nothing left to do about.
  predicate IsReset(remote: Fields, k: string)
  {
    Missing(remote, k) || IsZeroValue(remote[k]) || remote[k] == Str(MASKED)
  }

  // Strings, booleans and lists: the kinds of field whose removal is enforced.
  predicate Enforceable(previous: Json)
  {
    previous.Str? || previous.Bool? || previous.Arr?
  }

  // Agreement with a reset means the field really is reset.
  lemma ResetAgreementIsReal(remote: Fields, k: string, previous: Json)
    requires Enforceable(previous)
    ensures FieldAgrees(remote, k, ZeroFor(previous).value) <==>
            || Missing(remote, k)
            || remote[k] == ZeroFor(previous).value
            || (remote[k] == Str(MASKED) && !previous.Arr?)
    ensures FieldAgrees(remote, k, ZeroFor(previous).value) ==> IsReset(remote, k)
  {
    if previous.Arr? && !Missing(remote, k) {
      if remote[k].Arr? && Matches(Arr([]), remote[k]) {
        assert remote[k].items == [];
      }
      MatchesItself(Arr([]));
    }
  }

  // For objects it means almost nothing: the reset value agrees with every
  // object, and with nothing else that is there.
  lemma ObjectResetAgreesIff(remote: Fields, k: string, previous: Json)
    requires previous.Obj?
    ensures FieldAgrees(remote, k, ZeroFor(previous).value) <==> Missing(remote, k) || remote[k].Obj?
  {
  }

  // Removing nothing but object-valued (or numeric, or null) fields from a
  // spec the server agreed with is not seen as a difference, whatever those
  // objects hold, as long as the server still stores them as objects.
  lemma ObjectRemovalUnseen(remote: Fields, spec: Fields, removed: Fields)
    requires spec.Keys !! removed.Keys
    requires !Differs(remote, spec + removed)
    requires forall k :: k in removed ==> removed[k].Obj? || removed[k].Num? || removed[k].Null?
    ensures !Differs(remote, Effective(spec, Snapshot(spec + removed)).value)
  {
    var last := spec + removed;
    var payload := spec + Resets(spec, last);
    DiffersByField(remote, last);
    forall k | k in payload ensures FieldAgrees(remote, k, payload[k]) {
      assert k in last && FieldAgrees(remote, k, last[k]);
      if k !in spec {
        assert last[k] == removed[k] && payload[k] == Obj(map[]);
      }
    }
    DiffersByField(remote, payload);
  }
}
