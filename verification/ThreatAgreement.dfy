/** The two threat scanners, written apart from each other, agree wherever a turn has two stones left. */
module ThreatAgreement {
  import opened Lattice
  import opened Windows
  import opened RootTactics
  import opened ArenaDraw
  import Planes

  /** A move list as the arena's stones: each with the owner its ply gives it. */
  function StonesOf(moves: seq<Cell>): seq<Stone> {
    seq(|moves|, i requires 0 <= i < |moves| => Stone(moves[i], if OwnerOfPly(i) == 0 then P1 else P2))
  }

  lemma {:induction false} ColourOfMoves(moves: seq<Cell>, c: Cell)
    ensures c in ColourOf(moves) <==> c in moves
  {
    if moves != [] {
      ColourOfMoves(moves[..|moves| - 1], c);
      assert moves == moves[..|moves| - 1] + [moves[|moves| - 1]];
    }
  }

  /** Counting stones in a list and counting coloured cells of a window come to the same. */
  lemma {:induction false} CountsAgree(moves: seq<Cell>, a: int, start: Cell, who: Player)
    requires Distinct(moves)
    ensures CountStones(StonesOf(moves), a, start, who) == Count(ColourOf(moves), a, start, who)
  {
    if moves == [] {
      NothingCounted(a, start, who, WIN);
    } else {
      var n := |moves| - 1;
      var before, c := moves[..n], moves[n];
      CountsAgree(before, a, start, who);
      CadencesAgree(n);
      assert StonesOf(moves)[..n] == StonesOf(before);
      ColourOfMoves(before, c);
      CountOneMore(ColourOf(before), c, PlayerForStone(n), a, start, who);
    }
  }

  lemma {:induction false} NothingCounted(a: int, start: Cell, who: Player, n: nat)
    ensures CountFirst(map[], a, start, who, n) == 0
  {
    if n > 0 {
      NothingCounted(a, start, who, n - 1);
    }
  }

  lemma ThreatIsCount(moves: seq<Cell>, a: int, start: Cell)
    requires Distinct(moves)
    ensures ThreatAt(StonesOf(moves), a, start) <==>
      IsThreat(Count(ColourOf(moves), a, start, P1), Count(ColourOf(moves), a, start, P2))
  {
    CountsAgree(moves, a, start, P1);
    CountsAgree(moves, a, start, P2);
  }

  /**
   Between turns, which is at every odd length, the tactics screen acts exactly when the opening is out of balance.
   */
  lemma ScannersAgree(moves: seq<Cell>)
    requires Distinct(moves) && |moves| % 2 == 1
    ensures Acts(moves) <==> !Balanced(StonesOf(moves))
  {
    var colour, mover := ColourOf(moves), PlayerForStone(|moves|);
    assert StonesLeftBefore(|moves|) == 2;
    forall a, start ensures ActsInWindow(colour, mover, 2, a, start) <==> ThreatAt(StonesOf(moves), a, start) {
      ThreatIsCount(moves, a, start);
    }
  }

  /**
   Within a turn the screen is the stricter one: at every even length it acts only out of balance, and what it lets pass
   is exactly a mover's window of four.
   */
  lemma ScreenStricterMidTurn(moves: seq<Cell>)
    requires Distinct(moves) && |moves| % 2 == 0
    ensures Acts(moves) ==> !Balanced(StonesOf(moves))
    ensures !Balanced(StonesOf(moves)) && !Acts(moves) ==>
      exists a, start :: 0 <= a < 3 && Count(ColourOf(moves), a, start, PlayerForStone(|moves|)) == 4 &&
                         Count(ColourOf(moves), a, start, Other(PlayerForStone(|moves|))) == 0
  {
    var colour, mover := ColourOf(moves), PlayerForStone(|moves|);
    assert StonesLeftBefore(|moves|) == 1;
    forall a, start
      ensures ActsInWindow(colour, mover, 1, a, start) ==> ThreatAt(StonesOf(moves), a, start)
      ensures ThreatAt(StonesOf(moves), a, start) && !ActsInWindow(colour, mover, 1, a, start) ==>
                Count(colour, a, start, mover) == 4 && Count(colour, a, start, Other(mover)) == 0
    {
      ThreatIsCount(moves, a, start);
    }
  }

  /** A drawn opening's cells, in ply order. */
  function CellsIn(stones: seq<Stone>): seq<Cell> {
    seq(|stones|, i requires 0 <= i < |stones| => stones[i].cell)
  }

  /** An opening the draw accepts never makes the screen override the network. */
  lemma DrawnOpeningIsQuiet(stones: seq<Stone>, plies: nat)
    requires WellDrawn(stones, plies) && plies % 2 == 1 && Balanced(stones)
    ensures !Acts(CellsIn(stones))
  {
    assert StonesOf(CellsIn(stones)) == stones;
    ScannersAgree(CellsIn(stones));
  }

  /** The planes' distance and the arena's, one a maximum and one a halved sum, are the same. */
  lemma DistancesAgree(a: Cell, b: Cell)
    ensures Planes.HexDistance(a, b) == HexDistance(a, b)
  {
    var dq, dr := a.q - b.q, a.r - b.r;
    if dq >= 0 && dr >= 0 {
    } else if dq < 0 && dr < 0 {
    } else if Abs(dq) >= Abs(dr) {
    } else {
    }
  }
}
