/** The move evaluator object of src/algorithm/Player.java: the side it
    plays for, the board it simulates moves on, and the array it reads child
    positions from. */
module KalahPlayer {
  import opened KalahRules
  import opened KalahEvaluation
  import opened KalahBoard

  class Player {
    var playerID: int
    var tmpBoard: array<int>
    var simBoard: Board

    /** The simulation board is sound and is never the child-board array. */
    ghost predicate Valid()
      reads this, simBoard, simBoard.pits
    {
      tmpBoard.Length == 14 && simBoard.Valid() && tmpBoard != simBoard.pits
    }

    /** An evaluator for `player`, with an all-zero child board and a fresh
        simulation board in the opening position. */
    constructor (player: int)
      ensures Valid() && fresh(tmpBoard) && fresh(simBoard) && fresh(simBoard.pits)
      ensures playerID == player && tmpBoard[..] == Zeros()
    {
      playerID := player;
      tmpBoard := new int[14](_ => 0);
      simBoard := new Board();
    }

    /** Makes `board` (not a copy of it) the array child positions are read from. */
    method SetTmpBoard(board: array<int>)
      requires Valid() && board.Length == 14 && board != simBoard.pits
      modifies this`tmpBoard
      ensures Valid() && tmpBoard == board
    {
      tmpBoard := board;
    }

    /** The triple of trying `move` for `player` on `currBoard`: the marker
        triple for an empty pit; otherwise the move is simulated for its next
        player, and the child board is scored as a leaf when its small pits
        are empty, or else by aggregating its six children one level deeper. */
    method GetValueOfMove(move: int, player: int, currBoard: array<int>, fuel: nat) returns (r: Eval<Value>)
      requires Valid() && currBoard.Length == 14 && Tried(move, player) && currBoard != simBoard.pits
      modifies simBoard, simBoard.pits
      ensures Valid() && simBoard.pits == old(simBoard.pits)
      ensures r == ValueOfMove(playerID, tmpBoard[..], move, player, currBoard[..], fuel)
      decreases fuel, 1
    {
      if currBoard[move] == 0 {
        return Done(Sentinel());
      }
      TriedIsSowable(move, player);
      var newPlayer := simBoard.Transfer(move, player, currBoard[..]);
      var newBoard := tmpBoard;

      var sum := SumSmallPits(newBoard);
      if sum == 0 {
        r := ScoreLeaf(newBoard);
      } else if fuel == 0 {
        r := Overflow;
      } else {
        r := Aggregate(newBoard, newPlayer, fuel);
      }
    }

    /** The terminal test's sum: the twelve small pits, end zones left out. */
    static method SumSmallPits(newBoard: array<int>) returns (sum: int)
      requires newBoard.Length == 14
      ensures sum == SmallPitTotal(newBoard[..])
    {
      sum := 0;
      var i := 0;
      while i < 13
        invariant 0 <= i <= 13 && sum == SmallPitsBelow(newBoard[..], i)
      {
        if i != 6 {
          sum := sum + newBoard[i];
        }
        i := i + 1;
      }
    }

    /** The triple of a finished game, from the side of `playerID`. */
    method ScoreLeaf(newBoard: array<int>) returns (r: Eval<Value>)
      requires newBoard.Length == 14
      ensures r == Done(Leaf(newBoard[..], playerID))
    {
      var score, wins;
      if playerID == 1 {
        score := newBoard[6] - newBoard[13];
        if newBoard[6] > newBoard[13] {
          wins := 1.0;
        } else if newBoard[6] == newBoard[13] {
          wins := 0.5;
        } else {
          wins := 0.0;
        }
      } else {
        score := newBoard[13] - newBoard[6];
        if newBoard[13] > newBoard[6] {
          wins := 1.0;
        } else if newBoard[13] == newBoard[6] {
          wins := 0.5;
        } else {
          wins := 0.0;
        }
      }
      r := Done(Value(score, wins, 1));
    }

    /** The six children of a non-terminal position, tried for `newPlayer`
        one level deeper; only marker values are added up, and the first
        overflow aborts. */
    method Aggregate(newBoard: array<int>, newPlayer: int, fuel: nat) returns (r: Eval<Value>)
      requires Valid() && newBoard == tmpBoard && fuel > 0
      modifies simBoard, simBoard.pits
      ensures Valid() && simBoard.pits == old(simBoard.pits)
      ensures r == match ChildValues(playerID, newBoard[..], newPlayer, fuel, 6)
                     case Overflow => Overflow
                     case Done(children) => Done(Fold(children))
      decreases fuel, 0
    {
      var acc := Value(0, 0.0, 0);
      ghost var tmp := newBoard[..];
      ghost var children: seq<Value> := [];
      var k := 0;
      while k < 6
        invariant 0 <= k <= 6 && Valid() && simBoard.pits == old(simBoard.pits) && newBoard[..] == tmp
        invariant ChildValues(playerID, tmp, newPlayer, fuel, k) == Done(children)
        invariant acc == Fold(children)
      {
        var simMove := if newPlayer == 1 then k else 7 + k;
        assert simMove == ChildMove(newPlayer, k);
        var t := GetValueOfMove(simMove, newPlayer, newBoard, fuel - 1);
        if t.Overflow? {
          ChildOverflowPersists(playerID, tmp, newPlayer, fuel, k + 1, 6);
          return Overflow;
        }
        var v := t.value;
        ChildValuesStep(playerID, tmp, newPlayer, fuel, k, children, v);
        acc := AddMarkers(acc, v);
        children := children + [v];
        k := k + 1;
      }
      r := Done(acc);
    }

    /** One child's contribution: each slot of `v` is added only when it
        holds the marker. */
    static method AddMarkers(acc: Value, v: Value) returns (sum: Value)
      ensures sum == Absorb(acc, v)
    {
      sum := acc;
      if v.score == Marker {
        sum := sum.(score := sum.score + v.score);
      }
      if v.wins == Marker as real {
        sum := sum.(wins := sum.wins + v.wins);
      }
      if v.outcomes == Marker {
        sum := sum.(outcomes := sum.outcomes + v.outcomes);
      }
    }

    /** The move table of player 1: column `i` is the marker triple when pit
        `i` is empty, otherwise the value of sowing it. */
    method GetMoveArray(originalBoard: array<int>, fuel: nat) returns (r: Eval<seq<Value>>)
      requires Valid() && playerID == 1 && originalBoard.Length == 14 && originalBoard != simBoard.pits
      modifies simBoard, simBoard.pits
      ensures Valid() && simBoard.pits == old(simBoard.pits)
      ensures r == MoveTable(tmpBoard[..], originalBoard[..], fuel, 6)
    {
      var moveArray := new Value[6](_ => Value(0, 0.0, 0));
      var i := 0;
      while i < 6
        invariant 0 <= i <= 6 && Valid() && simBoard.pits == old(simBoard.pits)
        invariant MoveTable(tmpBoard[..], originalBoard[..], fuel, i) == Done(moveArray[..i])
      {
        if originalBoard[i] == 0 {
          moveArray[i] := Sentinel();
        } else {
          var t := GetValueOfMove(i, 1, originalBoard, fuel);
          if t.Overflow? {
            TableOverflowPersists(tmpBoard[..], originalBoard[..], fuel, i + 1, 6);
            return Overflow;
          }
          moveArray[i] := t.value;
        }
        assert moveArray[..i + 1] == moveArray[..i] + [moveArray[i]];
        i := i + 1;
      }
      assert moveArray[..] == moveArray[..6];
      r := Done(moveArray[..]);
    }

    /** The best move for player 1, 1-based, or 0 when no column beats the
        starting pair (marker ratio, marker score). */
    method MakePlay(originalBoard: array<int>, fuel: nat) returns (r: Eval<int>)
      requires Valid() && playerID == 1 && originalBoard.Length == 14 && originalBoard != simBoard.pits
      modifies simBoard, simBoard.pits
      ensures Valid() && simBoard.pits == old(simBoard.pits)
      ensures var t := MoveTable(tmpBoard[..], originalBoard[..], fuel, 6);
              r == if t.Overflow? then Overflow else Done(Select(t.value))
    {
      var movesArray := GetMoveArray(originalBoard, fuel);
      if movesArray.Overflow? {
        return Overflow;
      }
      var table := movesArray.value;
      var bestWinRatio := Num(Marker as real);
      var bestMove := 0;
      var bestScore := Marker;
      for i := 0 to 6
        invariant Best(bestWinRatio, bestScore, bestMove) == SelectUpTo(table, i)
      {
        var winRatio;
        if table[i].outcomes == Marker {
          winRatio := Num(Marker as real);
        } else {
          winRatio := Percent(table[i].wins, table[i].outcomes);
        }
        if Greater(winRatio, bestWinRatio) {
          bestWinRatio := winRatio;
          bestScore := table[i].score;
          bestMove := i + 1;
        } else if Same(winRatio, bestWinRatio) && table[i].score > bestScore {
          bestScore := table[i].score;
          bestMove := i + 1;
          bestWinRatio := winRatio;
        }
      }
      r := Done(bestMove);
    }
  }
}
