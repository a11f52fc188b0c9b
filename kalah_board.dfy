/** The board object of src/algorithm/Board.java: one seed count per piece
    and the `turn` field, updated in place. */
module KalahBoard {
  import opened KalahRules
  import SowingFacts

  /** The board object: one count per piece and the `turn` field. */
  class Board {
    var pits: array<int>
    var turn: int

    ghost predicate Valid()
      reads this, pits
    {
      pits.Length == 14 && NonNegative(pits[..])
    }

    /** The opening position, with player 1 to move. */
    constructor ()
      ensures Valid() && fresh(pits)
      ensures pits[..] == Start() && turn == 1
    {
      var a := new int[14];
      var i := 0;
      while i < 14
        invariant 0 <= i <= 14
        invariant forall k :: 0 <= k < i ==> a[k] == Start()[k]
      {
        if i == 6 || i == 13 {
          a[i] := 0;
        } else {
          a[i] := StartSeeds;
        }
        i := i + 1;
      }
      pits := a;
      turn := 1;
    }

    /** Looks for a non-empty small pit on each side. */
    method IsGameOver() returns (over: bool)
      requires Valid()
      ensures over <==> GameOver(pits[..])
    {
      var pl1, pl2 := true, true;
      var i := 0;
      while i < 14
        invariant 0 <= i <= 14
        invariant pl1 <==> forall k :: 0 <= k < i && IsSmallPit(k) && Owner(k) == 1 ==> pits[k] == 0
        invariant pl2 <==> forall k :: 0 <= k < i && IsSmallPit(k) && Owner(k) == 2 ==> pits[k] == 0
      {
        if IsSmallPit(i) && pits[i] != 0 {
          if Owner(i) == 1 && pl1 {
            pl1 := false;
          }
          if Owner(i) == 2 && pl2 {
            pl2 := false;
          }
        }
        i := i + 1;
      }
      over := pl1 || pl2;
    }

    /** Rebuilds every piece from the counts in entries 0..13 of `board`. */
    method SetBoard(board: seq<int>)
      requires Valid() && |board| >= 14
      modifies pits
      ensures Valid() && pits[..] == Load(board)
    {
      var i := 0;
      while i < 14
        invariant 0 <= i <= 14
        invariant forall k :: 0 <= k < i ==> pits[k] == Load(board)[k]
        invariant forall k :: i <= k < 14 ==> pits[k] == old(pits[k])
      {
        pits[i] := if board[i] < 0 then 0 else board[i];
        i := i + 1;
      }
    }

    /** The counts of pieces 0..13, in key order. */
    method ConvertToIntArray() returns (counts: array<int>)
      requires Valid()
      ensures fresh(counts) && counts[..] == pits[..]
    {
      counts := new int[14];
      var i := 0;
      while i < 14
        invariant 0 <= i <= 14
        invariant forall k :: 0 <= k < i ==> counts[k] == pits[k]
      {
        counts[i] := pits[i];
        i := i + 1;
      }
    }

    /** Moves seeds from every small pit to its owner's end zone, one at a time,
        with the loop bound read afresh on each iteration. */
    method Clear()
      requires Valid()
      modifies pits
      ensures Valid() && pits[..] == Sweep(old(pits[..]))
    {
      var p := 0;
      while p < 14
        invariant 0 <= p <= 14
        invariant pits[..] == SweepUpTo(old(pits[..]), p)
        invariant Valid()
      {
        if IsSmallPit(p) {
          var home := Owner(p) * 7 - 1;
          ghost var before := pits[..];
          ghost var n := pits[p];
          var i := 0;
          while i < pits[p]
            invariant 0 <= i <= (n + 1) / 2
            invariant pits[..] == before[p := n - i][home := before[home] + i]
            decreases pits[p] - i
          {
            pits[p] := pits[p] - 1;
            pits[home] := pits[home] + 1;
            i := i + 1;
          }
          assert i == (n + 1) / 2;
        }
        p := p + 1;
      }
    }

    /** The capture of `transfer`: one seed from the pit across from `dest`
        (the first loop is bounded by `dest`'s count, which stays 1), then the
        seeds of `dest` (a loop whose bound shrinks as it runs), into the
        mover's end zone. */
    method CaptureSeeds(dest: int, player: int)
      requires pits.Length == 14 && IsSmallPit(dest) && Owner(dest) == player && pits[dest] == 1
      modifies pits
      ensures pits[..] == Capture(old(pits[..]), dest, player)
    {
      ghost var landed := pits[..];
      var across := dest + (6 - dest) * 2;
      var home := player * 7 - 1;
      var j := 0;
      while j < pits[dest]
        invariant 0 <= j <= 1 && pits[dest] == 1
        invariant pits[..] == landed[across := landed[across] - j][home := landed[home] + j]
      {
        pits[across] := pits[across] - 1;
        pits[home] := pits[home] + 1;
        j := j + 1;
      }
      ghost var mid := pits[..];
      j := 0;
      while j < pits[dest]
        invariant 0 <= j <= 1 && pits[dest] == 1 - j
        invariant pits[..] == mid[dest := 1 - j][home := mid[home] + j]
        decreases pits[dest] - j
      {
        pits[dest] := pits[dest] - 1;
        pits[home] := pits[home] + 1;
        j := j + 1;
      }
    }

    /** One iteration of the loop of `transfer`: a seed leaves the source
        pit and lands in the next pit, then the last-seed rules are checked. */
    method SowSeed(src: int, destIndex: int, player: int) returns (nextIndex: int)
      requires pits.Length == 14 && 0 <= src < 14 && 0 <= destIndex <= 14
      modifies this`turn, pits
      ensures Sowing(pits[..], nextIndex, turn) == Step(old(Sowing(pits[..], destIndex, turn)), src, player)
    {
      var dest := destIndex;
      pits[src] := pits[src] - 1;
      if (dest == 6 && player == 2) || (dest == 13 && player == 1) {
        dest := dest + 1;
      }
      if dest > 13 {
        dest := 0;
      }
      pits[dest] := pits[dest] + 1;
      assert pits[..] == Shift(old(pits[..]), src, dest, 1);
      if pits[src] == 0 {
        if IsSmallPit(dest) {
          if Owner(dest) == player {
            if pits[dest] == 1 {
              var across := dest + (6 - dest) * 2;
              if pits[across] > 0 {
                CaptureSeeds(dest, player);
              }
            }
          }
          turn := if turn == 1 then 2 else 1;
        }
      }
      nextIndex := dest + 1;
    }

    /** Sows the pit `source` (in `player`'s own numbering) of `board` and
        returns the next player to move, or 0 when the game is over. */
    method Transfer(source: int, player: int, board: seq<int>) returns (next: int)
      requires Valid() && |board| >= 14 && IsSmallPit(SourceIndex(source, player))
      modifies this, pits
      ensures Valid() && pits == old(pits)
      ensures MoveResult(pits[..], turn) == Move(board, source, player)
      ensures next == turn
    {
      turn := player;
      SetBoard(board);
      var src := if player == 2 then source + (6 - source) * 2 else source;
      ghost var start := Sowing(pits[..], src + 1, player);
      var count := pits[src];
      var destIndex := src + 1;
      var i := 0;
      while i < count
        invariant pits == old(pits) && pits.Length == 14 && 0 <= i <= count
        invariant Sowing(pits[..], destIndex, turn) == Sow(start, src, player, i)
      {
        destIndex := SowSeed(src, destIndex, player);
        i := i + 1;
      }
      assert Sowing(pits[..], destIndex, turn) == Sown(Load(board), src, player);
      SowingFacts.SowNonNegative(start.pits, src, player);
      var over := IsGameOver();
      if over {
        Clear();
        turn := 0;
      }
      next := turn;
    }
  }
}
