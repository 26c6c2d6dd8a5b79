/**
 What the planes read of the move order: nothing beyond the coloured stone set and a small signature. And what moves
 with the position: everything, under translation.
 */
module PlaneSignature {
  import opened Lattice
  import opened Planes
  import opened Wrappers

  /** Every stone with its colour. */
  function Coloured(moves: seq<Cell>): set<(Cell, Player)> {
    set k | 0 <= k < |moves| :: (moves[k], PlayerForStone(k))
  }

  /**
   Four stones back from the end, the stone this turn has placed if any, and the turn before it; the unordered parts
   are compared as sorted lists, that is as multisets.
   */
  datatype Signature = Signature(last4: multiset<Cell>, first: Option<Cell>, opponent: multiset<Cell>)

  function SixSignature(moves: seq<Cell>): Signature {
    var n := |moves|;
    var start := TurnStart(n);
    Signature(
      multiset(Last(moves, 4)),
      if Second(n) then Some(moves[n - 1]) else None,
      multiset(moves[if start < 2 then 0 else start - 2..start]))
  }

  // ---------------------------------------------------------------- sums over an unordered part

  lemma {:induction false} SumsAppend(s: seq<Cell>, t: seq<Cell>)
    ensures SumQ(s + t) == SumQ(s) + SumQ(t) && SumR(s + t) == SumR(s) + SumR(t)
    decreases |t|
  {
    if t == [] {
      assert s + t == s;
    } else {
      assert (s + t)[..|s + t| - 1] == s + t[..|t| - 1];
      SumsAppend(s, t[..|t| - 1]);
    }
  }

  lemma SumsOfOne(c: Cell)
    ensures SumQ([c]) == c.q && SumR([c]) == c.r
  {
    assert [c][..0] == [];
  }

  /** A sum does not depend on the order. */
  lemma {:induction false} SumsUnordered(s: seq<Cell>, t: seq<Cell>)
    requires multiset(s) == multiset(t)
    ensures |s| == |t| && SumQ(s) == SumQ(t) && SumR(s) == SumR(t)
    decreases |s|
  {
    assert |s| == |multiset(s)| && |t| == |multiset(t)|;
    if s != [] {
      var c := s[0];
      assert c in multiset(t);
      var k :| 0 <= k < |t| && t[k] == c;
      SumsWithout(s, 0);
      SumsWithout(t, k);
      SumsUnordered(s[..0] + s[1..], t[..k] + t[k + 1..]);
    }
  }

  /** Taking one cell out of a list takes it out of the sums. */
  lemma SumsWithout(s: seq<Cell>, k: nat)
    requires k < |s|
    ensures SumQ(s) == s[k].q + SumQ(s[..k] + s[k + 1..]) && SumR(s) == s[k].r + SumR(s[..k] + s[k + 1..])
    ensures multiset(s[..k] + s[k + 1..]) == multiset(s) - multiset{s[k]}
  {
    hide SumQ, SumR;
    assert s == s[..k] + [s[k]] + s[k + 1..];
    SumsOfOne(s[k]);
    SumsAppend(s[..k] + [s[k]], s[k + 1..]);
    SumsAppend(s[..k], [s[k]]);
    SumsAppend(s[..k], s[k + 1..]);
  }

  // ---------------------------------------------------------------- the factorisation

  lemma {:induction false} ColouredSize(moves: seq<Cell>)
    requires Distinct(moves)
    ensures |Coloured(moves)| == |moves|
  {
    if moves != [] {
      var n := |moves| - 1;
      var before, last := moves[..n], (moves[n], PlayerForStone(n));
      ColouredSize(before);
      assert last !in Coloured(before);
      assert Coloured(moves) == Coloured(before) + {last} by {
        forall x ensures x in Coloured(moves) <==> x in Coloured(before) || x == last {
          if x in Coloured(before) {
            var k :| 0 <= k < n && x == (before[k], PlayerForStone(k));
            assert x == (moves[k], PlayerForStone(k));
          }
          if x in Coloured(moves) {
            var k :| 0 <= k <= n && x == (moves[k], PlayerForStone(k));
            if k < n {
              assert x == (before[k], PlayerForStone(k));
            }
          }
          assert last == (moves[n], PlayerForStone(n));
        }
      }
    }
  }

  /** The same coloured stones, and the same signature. */
  ghost predicate SameReading(a: seq<Cell>, b: seq<Cell>) {
    Distinct(a) && Distinct(b) && Coloured(a) == Coloured(b) && SixSignature(a) == SixSignature(b)
  }

  lemma SameReadingSize(a: seq<Cell>, b: seq<Cell>)
    requires Distinct(a) && Distinct(b) && Coloured(a) == Coloured(b)
    ensures |a| == |b|
  {
    ColouredSize(a);
    ColouredSize(b);
  }

  lemma SameCenter(a: seq<Cell>, b: seq<Cell>)
    requires SameReading(a, b)
    ensures CropCenter(a) == CropCenter(b)
  {
    SameReadingSize(a, b);
    SumsUnordered(Last(a, 4), Last(b, 4));
  }

  lemma HoldsFollows(a: seq<Cell>, b: seq<Cell>, who: Player, i: int)
    requires CropCenter(a) == CropCenter(b) && Coloured(a) == Coloured(b) && Holds(a, who, i)
    ensures Holds(b, who, i)
  {
    var k :| 0 <= k < |a| && PlayerForStone(k) == who && CropIndex(a[k], CropCenter(a)) == i;
    assert (a[k], who) in Coloured(b);
    var j :| 0 <= j < |b| && (b[j], PlayerForStone(j)) == (a[k], who);
  }

  lemma NearFollows(a: seq<Cell>, b: seq<Cell>, c: Cell, radius: int)
    requires Coloured(a) == Coloured(b) && |a| == |b| && Near(c, a, radius)
    ensures Near(c, b, radius)
  {
    if a != [] {
      var k :| 0 <= k < |a| && HexDistance(c, a[k]) <= radius;
      assert (a[k], PlayerForStone(k)) in Coloured(b);
      var j :| 0 <= j < |b| && (b[j], PlayerForStone(j)) == (a[k], PlayerForStone(k));
    }
  }

  /** The opponent's last turn is all the opponent's. */
  lemma OpponentsTurn(n: nat, k: nat)
    requires TurnStart(n) - 2 <= k < TurnStart(n)
    ensures PlayerForStone(k) != PlayerForStone(n)
  {
  }

  lemma LastTurnFollows(a: seq<Cell>, b: seq<Cell>, i: int)
    requires |a| == |b| && CropCenter(a) == CropCenter(b)
    requires SixSignature(a).opponent == SixSignature(b).opponent && LastTurn(a, i)
    ensures LastTurn(b, i)
  {
    hide CropIndex, CropCenter, TurnStart, Second, PlayerForStone, Last;
    var start := TurnStart(|a|);
    TurnStartWithin(|a|);
    var k :| start - 2 <= k < start && 0 <= k < |a| && PlayerForStone(k) != PlayerForStone(|a|) &&
             CropIndex(a[k], CropCenter(a)) == i;
    var j := InSlice(a, b, if start < 2 then 0 else start - 2, start, k);
    OpponentsTurn(|b|, j);
    assert CropIndex(b[j], CropCenter(b)) == i;
  }

  lemma TurnStartWithin(n: nat)
    ensures TurnStart(n) <= n
  {
  }

  lemma InSlice(a: seq<Cell>, b: seq<Cell>, lo: nat, hi: nat, k: nat) returns (j: nat)
    requires lo <= k < hi <= |a| == |b| && multiset(a[lo..hi]) == multiset(b[lo..hi])
    ensures lo <= j < hi && b[j] == a[k]
  {
    assert a[lo..hi][k - lo] == a[k];
    assert a[k] in multiset(b[lo..hi]);
    var m :| 0 <= m < |b[lo..hi]| && b[lo..hi][m] == a[k];
    j := lo + m;
  }

  /**
   The planes factor through the signature: two orders of the same coloured stones with one signature give the same crop
   centre and, at every radius, the same eight planes.
   */
  lemma PlanesFactor(a: seq<Cell>, b: seq<Cell>, radius: int)
    requires SameReading(a, b)
    ensures CropCenter(a) == CropCenter(b)
    ensures forall p, i | 0 <= p < PLANES && 0 <= i < CELLS :: Lit(a, radius, p, i) == Lit(b, radius, p, i)
  {
    SameReadingSize(a, b);
    SameCenter(a, b);
    forall p, i | 0 <= p < PLANES && 0 <= i < CELLS ensures Lit(a, radius, p, i) == Lit(b, radius, p, i) {
      LitFollows(a, b, radius, p, i);
      LitFollows(b, a, radius, p, i);
    }
  }

  lemma LitFollows(a: seq<Cell>, b: seq<Cell>, radius: int, p: nat, i: nat)
    requires SameReading(a, b) && |a| == |b| && CropCenter(a) == CropCenter(b) && p < PLANES && i < CELLS
    ensures Lit(a, radius, p, i) ==> Lit(b, radius, p, i)
  {
    var mover := PlayerForStone(|a|);
    if Lit(a, radius, p, i) {
      match p
      case 1 => HoldsFollows(a, b, mover, i);
      case 2 => HoldsFollows(a, b, Other(mover), i);
      case 3 =>
        NearFollows(a, b, CropCell(i, CropCenter(a)), radius);
        if Holds(b, mover, i) { HoldsFollows(b, a, mover, i); }
        if Holds(b, Other(mover), i) { HoldsFollows(b, a, Other(mover), i); }
      case 4 => assert SixSignature(a).first == SixSignature(b).first;
      case 5 => LastTurnFollows(a, b, i);
      case _ =>
    }
  }

  // ---------------------------------------------------------------- how far the coloured set alone suffices

  /** With three stones or fewer, who stands where decides the signature. */
  lemma ThreeStonesFixSignature(a: seq<Cell>, b: seq<Cell>)
    requires Distinct(a) && Distinct(b) && Coloured(a) == Coloured(b) && |a| <= 3
    ensures SixSignature(a) == SixSignature(b)
  {
    SameReadingSize(a, b);
    if |a| == 1 {
      OnlyOf(a, b, 0);
      assert a == b;
    } else if |a| == 2 {
      OnlyOf(a, b, 0);
      OnlyOf(a, b, 1);
      assert a == b;
    } else if |a| == 3 {
      SecondTurnSwaps(a, b);
    } else {
      assert a == b;
    }
  }

  lemma SecondTurnSwaps(a: seq<Cell>, b: seq<Cell>)
    requires Distinct(a) && Coloured(a) == Coloured(b) && |a| == |b| == 3
    ensures SixSignature(a) == SixSignature(b)
  {
    hide SixSignature;
    OnlyOf(a, b, 0);
    var j := Twin(a, b, 1);
    var l := Twin(a, b, 2);
    var u, v, w := a[0], a[1], a[2];
    assert a == [u, v, w];
    assert v != w && j != l && j != 0 && l != 0;
    assert b == if j == 1 then [u, v, w] else [u, w, v];
    SignatureOfThree(u, v, w);
    SignatureOfThree(u, w, v);
    Swapped(u, v, w);
  }

  lemma Swapped(u: Cell, v: Cell, w: Cell)
    ensures multiset([v, w]) == multiset([w, v]) && multiset([u, v, w]) == multiset([u, w, v])
  {
    assert [u, v, w] == [u] + [v, w] && [u, w, v] == [u] + [w, v];
    assert [v, w] == [v] + [w] && [w, v] == [w] + [v];
  }

  lemma SignatureOfThree(u: Cell, v: Cell, w: Cell)
    ensures SixSignature([u, v, w]) == Signature(multiset([u, v, w]), None, multiset([v, w]))
  {
    assert [u, v, w][1..3] == [v, w];
    assert TurnStart(3) == 3 && !Second(3);
  }

  /** A stone of one order stands somewhere in the other, with its colour. */
  lemma Twin(a: seq<Cell>, b: seq<Cell>, k: nat) returns (j: nat)
    requires Coloured(a) == Coloured(b) && k < |a|
    ensures j < |b| && b[j] == a[k] && PlayerForStone(j) == PlayerForStone(k)
  {
    assert (a[k], PlayerForStone(k)) in Coloured(b);
    j :| 0 <= j < |b| && (b[j], PlayerForStone(j)) == (a[k], PlayerForStone(k));
  }

  lemma OnlyOf(a: seq<Cell>, b: seq<Cell>, k: nat)
    requires Coloured(a) == Coloured(b) && |a| == |b| && k < |a|
    requires forall j | 0 <= j < |a| && j != k :: PlayerForStone(j) != PlayerForStone(k)
    ensures a[k] == b[k]
  {
    var j := Twin(a, b, k);
  }

  lemma SumOfFour(a: Cell, b: Cell, c: Cell, d: Cell)
    ensures SumQ([a, b, c, d]) == a.q + b.q + c.q + d.q && SumR([a, b, c, d]) == a.r + b.r + c.r + d.r
  {
    SumsOfOne(a);
    SumsOfOne(b);
    SumsOfOne(c);
    SumsOfOne(d);
    SumsAppend([a], [b]);
    SumsAppend([a] + [b], [c]);
    SumsAppend([a] + [b] + [c], [d]);
    assert [a] + [b] + [c] + [d] == [a, b, c, d];
  }

  const FOUR := [Cell(0, 0), Cell(1, 0), Cell(2, 0), Cell(3, 0)]
  const FOUR_SWAPPED := [Cell(3, 0), Cell(1, 0), Cell(2, 0), Cell(0, 0)]

  lemma FourColoured()
    ensures Coloured(FOUR) == Coloured(FOUR_SWAPPED)
  {
    forall k | 0 <= k < 4
      ensures (FOUR[k], PlayerForStone(k)) in Coloured(FOUR_SWAPPED) &&
              (FOUR_SWAPPED[k], PlayerForStone(k)) in Coloured(FOUR)
    {
      var j := if k == 0 then 3 else if k == 3 then 0 else k;
      assert (FOUR_SWAPPED[j], PlayerForStone(j)) == (FOUR[k], PlayerForStone(k));
      assert (FOUR[j], PlayerForStone(j)) == (FOUR_SWAPPED[k], PlayerForStone(k));
    }
  }

  lemma FourCenters()
    ensures CropCenter(FOUR) == Cell(2, 0) == CropCenter(FOUR_SWAPPED)
  {
    SumOfFour(FOUR[0], FOUR[1], FOUR[2], FOUR[3]);
    SumOfFour(FOUR_SWAPPED[0], FOUR_SWAPPED[1], FOUR_SWAPPED[2], FOUR_SWAPPED[3]);
    assert FOUR == [FOUR[0], FOUR[1], FOUR[2], FOUR[3]];
    assert FOUR_SWAPPED == [FOUR_SWAPPED[0], FOUR_SWAPPED[1], FOUR_SWAPPED[2], FOUR_SWAPPED[3]];
  }

  /** Three is sharp: four stones in two orders, one coloured set, but another signature and another plane 4. */
  lemma FourStonesDoNot(radius: int)
    ensures Distinct(FOUR) && Distinct(FOUR_SWAPPED) && Coloured(FOUR) == Coloured(FOUR_SWAPPED)
    ensures SixSignature(FOUR).first != SixSignature(FOUR_SWAPPED).first
    ensures Lit(FOUR, radius, 4, 313) && !Lit(FOUR_SWAPPED, radius, 4, 313)
  {
    hide CropCenter;
    FourColoured();
    FourCenters();
  }

  // ---------------------------------------------------------------- translation

  lemma {:induction false} SumsShift(cells: seq<Cell>, t: Cell)
    ensures SumQ(Shifted(cells, t)) == SumQ(cells) + |cells| * t.q
    ensures SumR(Shifted(cells, t)) == SumR(cells) + |cells| * t.r
  {
    if cells != [] {
      var before := cells[..|cells| - 1];
      assert Shifted(cells, t)[..|cells| - 1] == Shifted(before, t);
      SumsShift(before, t);
      assert |cells| * t.q == |before| * t.q + t.q && |cells| * t.r == |before| * t.r + t.r;
    }
  }

  lemma DivShift(x: int, n: int, k: int)
    requires 1 <= n <= 4
    ensures (x + 2 * (n * k)) / (2 * n) == x / (2 * n) + k
  {
    if n == 1 {
      assert (x + 2 * k) / 2 == x / 2 + k;
    } else if n == 2 {
      assert (x + 4 * k) / 4 == x / 4 + k;
    } else if n == 3 {
      assert (x + 6 * k) / 6 == x / 6 + k;
    } else {
      assert (x + 8 * k) / 8 == x / 8 + k;
    }
  }

  /** Moving every stone of a non-empty position moves the centre with it and changes no plane. */
  lemma PlanesShift(moves: seq<Cell>, t: Cell, radius: int)
    requires moves != []
    ensures CropCenter(Shifted(moves, t)) == Moved(CropCenter(moves), t)
    ensures forall p, i | 0 <= p < PLANES && 0 <= i < CELLS ::
      Lit(Shifted(moves, t), radius, p, i) == Lit(moves, radius, p, i)
  {
    var recent, n := Last(moves, RECENT), |Last(moves, RECENT)|;
    assert Last(Shifted(moves, t), RECENT) == Shifted(recent, t);
    SumsShift(recent, t);
    DivShift(2 * SumQ(recent) + n, n, t.q);
    DivShift(2 * SumR(recent) + n, n, t.r);
    forall p, i | 0 <= p < PLANES && 0 <= i < CELLS
      ensures Lit(Shifted(moves, t), radius, p, i) == Lit(moves, radius, p, i)
    {
      LitShifts(moves, t, radius, p, i);
    }
  }

  lemma LitShifts(moves: seq<Cell>, t: Cell, radius: int, p: nat, i: nat)
    requires moves != [] && CropCenter(Shifted(moves, t)) == Moved(CropCenter(moves), t)
    ensures Lit(Shifted(moves, t), radius, p, i) == Lit(moves, radius, p, i)
  {
    var s, a, b := Shifted(moves, t), CropCenter(moves), CropCenter(Shifted(moves, t));
    assert forall k | 0 <= k < |moves| :: CropIndex(s[k], b) == CropIndex(moves[k], a);
    hide CropIndex, CropCenter;
    HoldsShifts(moves, t, P1, i);
    HoldsShifts(moves, t, P2, i);
    if p == 3 {
      NearShifts(moves, t, CropCell(i, a), radius);
      assert CropCell(i, b) == Moved(CropCell(i, a), t);
    } else if p == 5 {
      LastTurnShifts(moves, t, i);
    }
    hide Near, Holds, LastTurn;
  }

  lemma LastTurnShifts(moves: seq<Cell>, t: Cell, i: nat)
    requires CropCenter(Shifted(moves, t)) == Moved(CropCenter(moves), t)
    ensures LastTurn(Shifted(moves, t), i) == LastTurn(moves, i)
  {
    var s, a, b := Shifted(moves, t), CropCenter(moves), CropCenter(Shifted(moves, t));
    assert forall k | 0 <= k < |moves| :: CropIndex(s[k], b) == CropIndex(moves[k], a);
    hide CropIndex, CropCenter, TurnStart, PlayerForStone;
  }

  lemma HoldsShifts(moves: seq<Cell>, t: Cell, who: Player, i: int)
    requires CropCenter(Shifted(moves, t)) == Moved(CropCenter(moves), t)
    ensures Holds(Shifted(moves, t), who, i) == Holds(moves, who, i)
  {
    hide CropCenter;
    var s, a, b := Shifted(moves, t), CropCenter(moves), CropCenter(Shifted(moves, t));
    assert forall k | 0 <= k < |moves| :: CropIndex(s[k], b) == CropIndex(moves[k], a);
  }

  lemma NearShifts(moves: seq<Cell>, t: Cell, c: Cell, radius: int)
    requires moves != []
    ensures Near(Moved(c, t), Shifted(moves, t), radius) == Near(c, moves, radius)
  {
    var s, d := Shifted(moves, t), Moved(c, t);
    assert forall k | 0 <= k < |moves| :: HexDistance(d, s[k]) == HexDistance(c, moves[k]);
    if Near(c, moves, radius) {
      var k :| 0 <= k < |moves| && HexDistance(c, moves[k]) <= radius;
      assert HexDistance(d, s[k]) <= radius;
    }
    if Near(d, s, radius) {
      var k :| 0 <= k < |s| && HexDistance(d, s[k]) <= radius;
      assert HexDistance(c, moves[k]) <= radius;
    }
  }
}
