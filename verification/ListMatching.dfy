// First-fit matching of desired list elements against remote list elements.
//
// The comparison of two lists only depends on which desired element matches
// which remote element, so the algorithm is studied on that boolean matrix:
// row i says which remote elements desired element i matches.

module ListMatching {
  import opened Wrappers

  type Matrix = seq<seq<bool>>

  ghost predicate Rectangular(m: Matrix, n: nat)
  {
    forall i :: 0 <= i < |m| ==> |m[i]| == n
  }

  // ---------------------------------------------------------------- Greedy

  // The first column at or after j that is set and not used; |row| when there
  // is none.
  function FirstFree(row: seq<bool>, used: set<nat>, j: nat): (c: nat)
    requires j <= |row|
    ensures j <= c <= |row|
    ensures c < |row| ==> row[c] && c !in used
    ensures forall i :: j <= i < c ==> !row[i] || i in used
    decreases |row| - j
  {
    if j == |row| then j
    else if row[j] && j !in used then j
    else FirstFree(row, used, j + 1)
  }

  // Rows are served in order, each taking its first free column. The result
  // lists the column of every row, or None when some row finds none.
  function Greedy(m: Matrix, used: set<nat>): (r: Option<seq<nat>>)
    ensures r.Some? ==> Pairing(m, r.value) && forall i :: 0 <= i < |m| ==> r.value[i] !in used
  {
    if m == [] then Some([])
    else
      var c := FirstFree(m[0], used, 0);
      if c == |m[0]| then None
      else
        var rest := Greedy(m[1..], used + {c});
        if rest.None? then None
        else
          assert forall i :: 0 <= i < |rest.value| ==> rest.value[i] != c;
          Some([c] + rest.value)
  }

  // ------------------------------------------------------------ Reference

  predicate Injective(p: seq<nat>)
  {
    forall i, j :: 0 <= i < j < |p| ==> p[i] != p[j]
  }

  // A one-to-one choice of columns, one for each row, along set entries.
  predicate Pairing(m: Matrix, p: seq<nat>)
  {
    && |p| == |m|
    && Injective(p)
    && forall i :: 0 <= i < |m| ==> p[i] < |m[i]| && m[i][p[i]]
  }

  ghost predicate HasPairing(m: Matrix)
  {
    exists p :: Pairing(m, p)
  }

  // Two rows that share a set column are the same row.
  ghost predicate Separated(m: Matrix)
  {
    forall i, k, j :: 0 <= i < |m| && 0 <= k < |m| && 0 <= j < |m[i]| && j < |m[k]| && m[i][j] && m[k][j]
                      ==> m[i] == m[k]
  }

  // If every row's own column is its first free one, that is what Greedy finds.
  lemma {:induction false} GreedyFollows(m: Matrix, used: set<nat>, p: seq<nat>)
    requires Pairing(m, p)
    requires forall i :: 0 <= i < |p| ==> p[i] !in used
    requires forall i, c :: 0 <= i < |p| && 0 <= c < p[i] && m[i][c] ==> c in used || c in p[..i]
    ensures Greedy(m, used) == Some(p)
  {
    if m == [] {
    } else {
      assert FirstFree(m[0], used, 0) == p[0] by {
        assert p[..0] == [];
        assert m[0][p[0]] && p[0] !in used;
      }
      var rest := p[1..];
      forall i, c | 0 <= i < |rest| && 0 <= c < rest[i] && m[1..][i][c]
        ensures c in used + {p[0]} || c in rest[..i]
      {
        assert m[i + 1][c] && c < p[i + 1];
        assert p[..i + 1] == [p[0]] + rest[..i];
      }
      GreedyFollows(m[1..], used + {p[0]}, rest);
      assert p == [p[0]] + rest;
    }
  }

  lemma GreedyUnfold(m: Matrix, used: set<nat>)
    requires m != [] && Greedy(m, used).Some?
    ensures var g := Greedy(m, used).value;
            g[0] == FirstFree(m[0], used, 0) && Greedy(m[1..], used + {g[0]}) == Some(g[1..])
  {
    var rest := Greedy(m[1..], used + {FirstFree(m[0], used, 0)}).value;
    assert Greedy(m, used).value[1..] == rest;
  }

  // When the first row takes a column promised to row i + 1, and the two rows
  // are equal, row i + 1 can have the first row's column in exchange.
  lemma SwapPromise(m: Matrix, q: seq<nat>, i: nat)
    requires Pairing(m, q) && i + 1 < |m| && m[i + 1] == m[0]
    ensures Pairing(m[1..], q[1..][i := q[0]])
    ensures q[i + 1] !in q[1..][i := q[0]]
  {
    var swapped := q[1..][i := q[0]];
    forall k | 0 <= k < |swapped| ensures swapped[k] != q[i + 1] {
      if k != i { assert q[k + 1] != q[i + 1]; }
    }
  }

  // Where rows are equal or disjoint, first-fit never paints itself into a
  // corner: it succeeds as soon as any pairing exists.
  lemma {:induction false} GreedyComplete(m: Matrix, used: set<nat>, q: seq<nat>)
    requires Separated(m)
    requires Pairing(m, q)
    requires forall x :: x in q ==> x !in used
    ensures Greedy(m, used).Some?
  {
    if m == [] {
    } else {
      var c := FirstFree(m[0], used, 0);
      assert m[0][q[0]] && q[0] in q;
      var tail := q[1..];
      if c in tail {
        var i :| 0 <= i < |tail| && tail[i] == c;
        assert m[i + 1][c] && m[0][c];
        SwapPromise(m, q, i);
        GreedyComplete(m[1..], used + {c}, tail[i := q[0]]);
      } else {
        GreedyComplete(m[1..], used + {c}, tail);
      }
    }
  }

  // ----------------------------------------------------------- Reordering

  ghost predicate IsOrder(p: seq<nat>, n: nat)
  {
    |p| == n && Injective(p) && forall i :: 0 <= i < n ==> p[i] < n
  }

  function Permute<T>(s: seq<T>, p: seq<nat>): (r: seq<T>)
    requires forall i :: 0 <= i < |p| ==> p[i] < |s|
    ensures |r| == |p| && forall i :: 0 <= i < |p| ==> r[i] == s[p[i]]
  {
    seq(|p|, i requires 0 <= i < |p| => s[p[i]])
  }

  // The matrix seen after reordering the rows by rp and the columns by cp.
  ghost function Reorder(m: Matrix, rp: seq<nat>, cp: seq<nat>): (r: Matrix)
    requires Rectangular(m, |m|) && IsOrder(rp, |m|) && IsOrder(cp, |m|)
    ensures |r| == |m| && Rectangular(r, |m|)
    ensures forall i, j :: 0 <= i < |m| && 0 <= j < |m| ==> r[i][j] == m[rp[i]][cp[j]]
  {
    seq(|m|, i requires 0 <= i < |m| => Permute(m[rp[i]], cp))
  }

  // The verdict does not depend on the order of either list.
  ghost predicate OrderInsensitive(m: Matrix)
    requires Rectangular(m, |m|)
  {
    forall rp, cp :: IsOrder(rp, |m|) && IsOrder(cp, |m|) ==>
      (Greedy(Reorder(m, rp, cp), {}).Some? <==> Greedy(m, {}).Some?)
  }

  ghost function Identity(n: nat): (p: seq<nat>)
    ensures IsOrder(p, n)
    ensures forall i :: 0 <= i < n ==> p[i] == i
  {
    seq(n, i requires 0 <= i < n => i)
  }

  ghost function Image(p: seq<nat>): set<nat>
  {
    set i | 0 <= i < |p| :: p[i]
  }

  lemma {:induction false} ImageSize(p: seq<nat>)
    requires Injective(p)
    ensures |Image(p)| == |p|
  {
    if p == [] {
    } else {
      var front := p[..|p| - 1];
      ImageSize(front);
      assert Image(p) == Image(front) + {p[|p| - 1]};
      assert p[|p| - 1] !in Image(front);
    }
  }

  lemma SubsetSize(a: set<nat>, b: set<nat>)
    requires a <= b && |a| == |b|
    ensures a == b
  {
    assert b == a + (b - a);
    assert b - a == {};
  }

  // An order of 0..n-1 reaches every index.
  lemma OrderReaches(p: seq<nat>, n: nat, c: nat)
    requires IsOrder(p, n) && c < n
    ensures c in p
  {
    ImageSize(p);
    ImageSize(Identity(n));
    forall x | x in Image(p) ensures x in Image(Identity(n)) {
      assert Identity(n)[x] == x;
    }
    SubsetSize(Image(p), Image(Identity(n)));
    assert Identity(n)[c] == c;
    assert c in Image(p);
  }

  ghost function Position(p: seq<nat>, n: nat, c: nat): (i: nat)
    requires IsOrder(p, n) && c < n
    ensures i < n && p[i] == c
  {
    OrderReaches(p, n, c);
    var i :| 0 <= i < |p| && p[i] == c;
    i
  }

  ghost function Inverse(p: seq<nat>, n: nat): (q: seq<nat>)
    requires IsOrder(p, n)
    ensures IsOrder(q, n)
    ensures forall c :: 0 <= c < n ==> p[q[c]] == c
  {
    seq(n, c requires 0 <= c < n => Position(p, n, c))
  }

  // A pairing of the original lists is, renamed, a pairing of the reordered
  // ones.
  lemma ReorderKeepsPairing(m: Matrix, rp: seq<nat>, cp: seq<nat>, q: seq<nat>)
    requires Rectangular(m, |m|) && IsOrder(rp, |m|) && IsOrder(cp, |m|)
    requires Pairing(m, q)
    ensures HasPairing(Reorder(m, rp, cp))
  {
    var n := |m|;
    var back := Inverse(cp, n);
    var q' := seq(n, i requires 0 <= i < n => back[q[rp[i]]]);
    forall i, k | 0 <= i < k < n ensures q'[i] != q'[k] {
      assert rp[i] != rp[k];
      assert q[rp[i]] != q[rp[k]];
      assert cp[back[q[rp[i]]]] != cp[back[q[rp[k]]]];
    }
    assert Pairing(Reorder(m, rp, cp), q');
  }

  lemma ReorderUndo(m: Matrix, rp: seq<nat>, cp: seq<nat>)
    requires Rectangular(m, |m|) && IsOrder(rp, |m|) && IsOrder(cp, |m|)
    ensures Reorder(Reorder(m, rp, cp), Inverse(rp, |m|), Inverse(cp, |m|)) == m
  {
    var r := Reorder(Reorder(m, rp, cp), Inverse(rp, |m|), Inverse(cp, |m|));
    forall i | 0 <= i < |m| ensures r[i] == m[i] {
      assert forall j :: 0 <= j < |m| ==> r[i][j] == m[i][j];
    }
  }

  lemma ReorderHasPairing(m: Matrix, rp: seq<nat>, cp: seq<nat>)
    requires Rectangular(m, |m|) && IsOrder(rp, |m|) && IsOrder(cp, |m|)
    ensures HasPairing(Reorder(m, rp, cp)) <==> HasPairing(m)
  {
    var r := Reorder(m, rp, cp);
    if q :| Pairing(m, q) {
      ReorderKeepsPairing(m, rp, cp, q);
    }
    if q :| Pairing(r, q) {
      ReorderKeepsPairing(r, Inverse(rp, |m|), Inverse(cp, |m|), q);
      ReorderUndo(m, rp, cp);
    }
  }

  lemma ReorderKeepsSeparated(m: Matrix, rp: seq<nat>, cp: seq<nat>)
    requires Rectangular(m, |m|) && IsOrder(rp, |m|) && IsOrder(cp, |m|)
    requires Separated(m)
    ensures Separated(Reorder(m, rp, cp))
  {
    var r := Reorder(m, rp, cp);
    forall i, k, j | 0 <= i < |r| && 0 <= k < |r| && 0 <= j < |r[i]| && j < |r[k]| && r[i][j] && r[k][j]
      ensures r[i] == r[k]
    {
      assert m[rp[i]][cp[j]] && m[rp[k]][cp[j]];
    }
  }

  // Listing the remote elements in the order of a pairing makes first-fit
  // find exactly that pairing.
  lemma PairingGivesGoodOrder(m: Matrix, q: seq<nat>)
    requires Rectangular(m, |m|)
    requires Pairing(m, q)
    ensures IsOrder(q, |m|)
    ensures Greedy(Reorder(m, Identity(|m|), q), {}).Some?
  {
    var r := Reorder(m, Identity(|m|), q);
    var d := Identity(|m|);
    forall i, c | 0 <= i < |d| && 0 <= c < d[i] && r[i][c] ensures c in d[..i] {
      assert d[..i][c] == c;
    }
    GreedyFollows(r, {}, d);
  }

  // Rows a and b share column j, column k separates them.
  ghost predicate Clash(m: Matrix, a: nat, b: nat, j: nat, k: nat)
  {
    && a < |m| && b < |m| && j < |m[a]| && k < |m[a]| && |m[a]| == |m[b]|
    && m[a][j] && m[b][j] && !m[a][k] && m[b][k]
  }

  lemma FindClash(m: Matrix) returns (a: nat, b: nat, j: nat, k: nat)
    requires Rectangular(m, |m|)
    requires !Separated(m)
    ensures Clash(m, a, b, j, k)
  {
    a, b, j :| 0 <= a < |m| && 0 <= b < |m| && 0 <= j < |m[a]| && j < |m[b]|
               && m[a][j] && m[b][j] && m[a] != m[b];
    k :| 0 <= k < |m| && m[a][k] != m[b][k];
    if m[a][k] {
      a, b := b, a;
    }
  }

  // Puts x and y first and the other indices after them.
  ghost function TwoFirst(n: nat, x: nat, y: nat): (p: seq<nat>)
    requires x < n && y < n && x != y
    ensures IsOrder(p, n) && p[0] == x && p[1] == y
  {
    var d := Identity(n);
    var d1 := d[0 := x][x := 0];
    var at := if y == 0 then x else y;
    assert d1[at] == y;
    d1[1 := y][at := d1[1]]
  }

  // Every row of a successful run took its first column not taken before it.
  lemma {:induction false} GreedyTakesFirst(m: Matrix, used: set<nat>, g: seq<nat>, i: nat)
    requires Greedy(m, used) == Some(g) && i < |m|
    ensures FirstFree(m[i], used + Image(g[..i]), 0) == g[i]
  {
    GreedyUnfold(m, used);
    if i == 0 {
      assert used + Image(g[..0]) == used;
    } else {
      GreedyTakesFirst(m[1..], used + {g[0]}, g[1..], i - 1);
      ImageCons(g, i);
      assert used + Image(g[..i]) == used + {g[0]} + Image(g[1..][..i - 1]);
    }
  }

  lemma ImageCons(p: seq<nat>, i: nat)
    requires 0 < i <= |p|
    ensures Image(p[..i]) == {p[0]} + Image(p[1..][..i - 1])
  {
    assert p[..i] == [p[0]] + p[1..][..i - 1];
  }

  // What a successful run leaves behind.
  ghost predicate FirstFit(m: Matrix, g: seq<nat>)
  {
    Pairing(m, g) && forall i {:trigger g[i]} :: 0 <= i < |m| ==> FirstFree(m[i], Image(g[..i]), 0) == g[i]
  }

  lemma GreedyIsFirstFit(m: Matrix, g: seq<nat>)
    requires Greedy(m, {}) == Some(g)
    ensures FirstFit(m, g)
  {
    forall i | 0 <= i < |m| ensures FirstFree(m[i], Image(g[..i]), 0) == g[i] {
      GreedyTakesFirst(m, {}, g, i);
      assert {} + Image(g[..i]) == Image(g[..i]);
    }
  }

  // A set diagonal is taken entry by entry.
  lemma {:induction false} DiagonalForced(m: Matrix, g: seq<nat>, i: nat)
    requires FirstFit(m, g) && i < |m|
    requires forall k :: 0 <= k <= i ==> k < |m[k]| && m[k][k]
    ensures g[i] == i
  {
    forall k | 0 <= k < i ensures g[..i][k] == k {
      DiagonalForced(m, g, k);
    }
    assert i !in Image(g[..i]);
    assert g[i] <= i;
    if g[i] < i {
      DiagonalForced(m, g, g[i]);
      assert false;
    }
  }

  // With the diagonal set in all rows but the last, only the last column is
  // left for the last row.
  lemma LastRowTakesLast(m: Matrix, g: seq<nat>)
    requires m != [] && Rectangular(m, |m|) && FirstFit(m, g)
    requires forall i :: 0 <= i < |m| - 1 ==> m[i][i]
    ensures m[|m| - 1][|m| - 1]
  {
    var n := |m|;
    if g[n - 1] < n - 1 {
      DiagonalForced(m, g, g[n - 1]);
      assert false;
    }
  }

  ghost predicate Fails(m: Matrix)
  {
    Greedy(m, {}).None?
  }

  // Some order of the two lists makes first-fit fail.
  ghost predicate FailsSomewhere(m: Matrix)
    requires Rectangular(m, |m|)
  {
    exists rp, cp :: IsOrder(rp, |m|) && IsOrder(cp, |m|) && Fails(Reorder(m, rp, cp))
  }

  lemma LastRowStuck(m: Matrix)
    requires m != [] && Rectangular(m, |m|)
    requires forall i :: 0 <= i < |m| - 1 ==> m[i][i]
    requires !m[|m| - 1][|m| - 1]
    ensures Fails(m)
  {
    if Greedy(m, {}).Some? {
      GreedyIsFirstFit(m, Greedy(m, {}).value);
      LastRowTakesLast(m, Greedy(m, {}).value);
      assert false;
    }
  }

  // Moves the first two entries to the end.
  ghost function Rotate(p: seq<nat>, n: nat, x: nat, y: nat): (r: seq<nat>)
    requires IsOrder(p, n) && n >= 2 && ((x == p[0] && y == p[1]) || (x == p[1] && y == p[0]))
    ensures IsOrder(r, n) && r[n - 2] == x && r[n - 1] == y
    ensures forall i :: 0 <= i < n - 2 ==> r[i] == p[i + 2]
  {
    p[2..] + [x, y]
  }

  // Given a pairing that serves the two clashing rows first, serve them last:
  // the others take the same columns as before, row b takes the shared column
  // and row a is left with the column it does not match.
  lemma StuckOrder(m: Matrix, rp: seq<nat>, cp: seq<nat>, p: seq<nat>)
    requires |m| >= 2 && Rectangular(m, |m|) && IsOrder(rp, |m|) && IsOrder(cp, |m|)
    requires Clash(m, rp[0], rp[1], cp[0], cp[1])
    requires Pairing(Reorder(m, rp, cp), p) && p[0] == 0 && p[1] == 1
    ensures FailsSomewhere(m)
  {
    var n := |m|;
    var rows := Rotate(rp, n, rp[1], rp[0]);
    assert IsOrder(p, n);
    var late := Rotate(p, n, 0, 1);
    var cols := Permute(cp, late);
    assert IsOrder(cols, n);
    var r := Reorder(m, rows, cols);
    forall i | 0 <= i < n - 1 ensures r[i][i] {
      if i < n - 2 { assert Reorder(m, rp, cp)[i + 2][p[i + 2]]; }
    }
    LastRowStuck(r);
  }

  lemma ClashFails(m: Matrix, a: nat, b: nat, j: nat, k: nat)
    requires Rectangular(m, |m|) && Clash(m, a, b, j, k)
    ensures FailsSomewhere(m)
  {
    var rp, cp := TwoFirst(|m|, a, b), TwoFirst(|m|, j, k);
    var r := Reorder(m, rp, cp);
    if Greedy(r, {}).Some? {
      var p := Greedy(r, {}).value;
      GreedyIsFirstFit(r, p);
      DiagonalForced(r, p, 0);
      DiagonalForced(r, p, 1);
      StuckOrder(m, rp, cp, p);
    }
  }

  // The verdict of first-fit is the same for every order of the two lists
  // exactly when no pairing exists at all, or rows that overlap are equal.
  lemma OrderInsensitiveIff(m: Matrix)
    requires Rectangular(m, |m|)
    ensures OrderInsensitive(m) <==> !HasPairing(m) || Separated(m)
  {
    if !HasPairing(m) {
      forall rp, cp | IsOrder(rp, |m|) && IsOrder(cp, |m|)
        ensures Greedy(Reorder(m, rp, cp), {}).Some? <==> Greedy(m, {}).Some?
      {
        ReorderHasPairing(m, rp, cp);
      }
    } else if Separated(m) {
      SeparatedExact(m);
      forall rp, cp | IsOrder(rp, |m|) && IsOrder(cp, |m|) ensures Greedy(Reorder(m, rp, cp), {}).Some? {
        ReorderHasPairing(m, rp, cp);
        ReorderKeepsSeparated(m, rp, cp);
        SeparatedExact(Reorder(m, rp, cp));
      }
    } else {
      var q :| Pairing(m, q);
      PairingGivesGoodOrder(m, q);
      var a, b, j, k := FindClash(m);
      ClashFails(m, a, b, j, k);
      var rp, cp :| IsOrder(rp, |m|) && IsOrder(cp, |m|) && Fails(Reorder(m, rp, cp));
    }
  }

  // First-fit decides the existence of a pairing where overlapping rows agree.
  lemma SeparatedExact(m: Matrix)
    requires Separated(m)
    ensures Greedy(m, {}).Some? <==> HasPairing(m)
  {
    if q :| Pairing(m, q) {
      GreedyComplete(m, {}, q);
    }
  }
}
