/** Properties of the sowing move of src/algorithm/Board.java, proved about
    the functions of KalahRules. The sowing loop is compared with a reference
    distribution, `Spread`, that drops one seed on each index of the path and
    applies no rule; the loop agrees with it on every iteration but the last. */
module SowingFacts {
  import opened KalahRules

  /** The end zone a mover never sows into. */
  function OpponentHome(player: int): int { HomeOf(Other(player)) }

  /** The index that receives the `j`-th seed of a sowing from `src`; index 0 of the path is `src` itself. */
  function Path(src: int, player: int, j: nat): (d: int)
    requires 0 <= src < 14
    ensures 0 <= d < 14
  {
    if j == 0 then src else Deposit(Path(src, player, j - 1) + 1, player)
  }

  /** How many of the first `k` seeds land in pit `i`. */
  function Visits(src: int, player: int, k: nat, i: int): (n: nat)
    requires 0 <= src < 14
    ensures n <= k
  {
    if k == 0 then 0 else Visits(src, player, k - 1, i) + (if Path(src, player, k) == i then 1 else 0)
  }

  /** Reference sowing: `k` seeds taken from `src`, one dropped on each index of the path, no rule applied. */
  function Spread(b: seq<int>, src: int, player: int, k: nat): (r: seq<int>)
    requires |b| == 14 && 0 <= src < 14
    ensures |r| == 14
  {
    if k == 0 then b else Shift(Spread(b, src, player, k - 1), src, Path(src, player, k), 1)
  }

  /** The path is the next index modulo 14, except that the opponent's end zone is passed over. */
  lemma PathSkipsOpponentHome(src: int, player: int, j: nat)
    requires 0 <= src < 14 && (player == 1 || player == 2) && j > 0
    ensures var next := (Path(src, player, j - 1) + 1) % 14;
            Path(src, player, j) == if next == OpponentHome(player) then (next + 1) % 14 else next
    ensures Path(src, player, j) != OpponentHome(player)
  {
  }

  /** Pit `i` after the reference sowing: the source lost `k` seeds and every pit gained one per visit. */
  lemma {:induction false} SpreadAt(b: seq<int>, src: int, player: int, k: nat, i: int)
    requires |b| == 14 && 0 <= src < 14 && 0 <= i < 14
    ensures Spread(b, src, player, k)[i] == b[i] - (if i == src then k else 0) + Visits(src, player, k, i)
  {
    if k > 0 {
      SpreadAt(b, src, player, k - 1, i);
    }
  }

  /** Before the last seed, the source pit is never empty, so no rule fires and
      the loop is exactly the reference sowing, with the turn untouched. */
  lemma {:induction false} SowBeforeLast(b: seq<int>, src: int, player: int, k: nat)
    requires |b| == 14 && 0 <= src < 14 && k < b[src]
    ensures Sow(Sowing(b, src + 1, player), src, player, k)
         == Sowing(Spread(b, src, player, k), Path(src, player, k) + 1, player)
  {
    if k > 0 {
      SowBeforeLast(b, src, player, k - 1);
      SpreadAt(b, src, player, k, src);
      LastSeedBeforeEmpty(Spread(b, src, player, k), src, Path(src, player, k), player, player);
    }
  }

  /** While the source pit still holds seeds, the last-seed rules do nothing. */
  lemma LastSeedBeforeEmpty(b: seq<int>, src: int, d: int, player: int, turn: int)
    requires |b| == 14 && 0 <= src < 14 && 0 <= d < 14 && b[src] != 0
    ensures LastSeed(b, src, d, player, turn) == Sowing(b, d + 1, turn)
  {
  }

  /** The whole sowing loop: the reference sowing of all the source's seeds,
      then the last-seed rules at the index the last seed reached. */
  lemma SownIsSpreadThenLastSeed(b: seq<int>, src: int, player: int)
    requires |b| == 14 && 0 <= src < 14 && b[src] > 0
    ensures Sown(b, src, player)
         == LastSeed(Spread(b, src, player, b[src]), src, Path(src, player, b[src]), player, player)
  {
    var n := b[src];
    var before := Sow(Sowing(b, src + 1, player), src, player, n - 1);
    SowBeforeLast(b, src, player, n - 1);
    assert Sown(b, src, player) == Step(before, src, player);
    assert Deposit(before.dest, player) == Path(src, player, n);
    assert Shift(before.pits, src, Path(src, player, n), 1) == Spread(b, src, player, n);
  }

  /** After the last seed the source pit holds exactly the seeds that wrapped back into it. */
  lemma SourceAfterSpread(b: seq<int>, src: int, player: int)
    requires |b| == 14 && 0 <= src < 14 && b[src] >= 0
    ensures Spread(b, src, player, b[src])[src] == Visits(src, player, b[src], src)
  {
    SpreadAt(b, src, player, b[src], src);
  }

  lemma SpreadNonNegative(b: seq<int>, src: int, player: int, k: nat)
    requires |b| == 14 && 0 <= src < 14 && NonNegative(b) && k <= b[src]
    ensures NonNegative(Spread(b, src, player, k))
  {
    forall i | 0 <= i < 14
      ensures Spread(b, src, player, k)[i] >= 0
    {
      SpreadAt(b, src, player, k, i);
    }
  }

  /** No pit count goes below zero while sowing. */
  lemma SowNonNegative(b: seq<int>, src: int, player: int)
    requires |b| == 14 && 0 <= src < 14 && NonNegative(b)
    ensures NonNegative(Sown(b, src, player).pits)
  {
    if b[src] > 0 {
      SownIsSpreadThenLastSeed(b, src, player);
      SpreadNonNegative(b, src, player, b[src]);
      LastSeedNonNegative(Spread(b, src, player, b[src]), src, Path(src, player, b[src]), player);
    }
  }

  /** The capture only takes seeds from pits that hold some. */
  lemma LastSeedNonNegative(b: seq<int>, src: int, d: int, player: int)
    requires |b| == 14 && 0 <= src < 14 && 0 <= d < 14 && NonNegative(b)
    ensures NonNegative(LastSeed(b, src, d, player, player).pits)
  {
  }

  /** Changing one count changes the total of the pits from `k` on by the
      difference, when the changed pit is among them. */
  lemma {:induction false} SumUpdate(b: seq<int>, i: int, v: int, k: nat)
    requires 0 <= i < |b| && k <= |b|
    ensures SumFrom(b[i := v], k) == SumFrom(b, k) + (if k <= i then v - b[i] else 0)
    decreases |b| - k
  {
    if k < |b| {
      SumUpdate(b, i, v, k + 1);
    }
  }

  /** Every movement of seeds pairs a removal with an addition. */
  lemma ShiftConserves(b: seq<int>, from: int, to: int, n: int)
    requires |b| == 14 && 0 <= from < 14 && 0 <= to < 14
    ensures Sum(Shift(b, from, to, n)) == Sum(b)
  {
    var taken := b[from := b[from] - n];
    SumUpdate(b, from, b[from] - n, 0);
    SumUpdate(taken, to, taken[to] + n, 0);
  }

  /** One iteration of the sowing loop neither creates nor destroys seeds. */
  lemma StepConserves(st: Sowing, src: int, player: int)
    requires WellFormed(st) && 0 <= src < 14
    ensures Sum(Step(st, src, player).pits) == Sum(st.pits)
  {
    var d := Deposit(st.dest, player);
    var landed := Shift(st.pits, src, d, 1);
    ShiftConserves(st.pits, src, d, 1);
    if landed[src] == 0 && IsSmallPit(d) && Owner(d) == player && landed[d] == 1 && landed[Opposite(d)] > 0 {
      ShiftConserves(landed, Opposite(d), HomeOf(player), 1);
      ShiftConserves(Shift(landed, Opposite(d), HomeOf(player), 1), d, HomeOf(player), 1);
    }
  }

  lemma {:induction false} SowConserves(st: Sowing, src: int, player: int, k: nat)
    requires WellFormed(st) && 0 <= src < 14
    ensures Sum(Sow(st, src, player, k).pits) == Sum(st.pits)
  {
    if k > 0 {
      SowConserves(st, src, player, k - 1);
      StepConserves(Sow(st, src, player, k - 1), src, player);
    }
  }

  lemma {:induction false} SweepConserves(b: seq<int>, p: nat)
    requires |b| == 14 && p <= 14
    ensures Sum(SweepUpTo(b, p)) == Sum(b)
  {
    if p > 0 {
      SweepConserves(b, p - 1);
      var c := SweepUpTo(b, p - 1);
      if IsSmallPit(p - 1) {
        ShiftConserves(c, p - 1, HomeOf(Owner(p - 1)), (c[p - 1] + 1) / 2);
      }
    }
  }

  /** Conservation: `transfer` leaves on the board exactly the seeds it
      loaded, which are those of entries 0..13 when none is negative. */
  lemma MoveConserves(board: seq<int>, source: int, player: int)
    requires |board| >= 14 && IsSmallPit(SourceIndex(source, player))
    ensures Sum(Move(board, source, player).pits) == Sum(Load(board))
    ensures NonNegative(board[..14]) ==> Sum(Move(board, source, player).pits) == Sum(board[..14])
  {
    var src := SourceIndex(source, player);
    var b := Load(board);
    SowConserves(Sowing(b, src + 1, player), src, player, b[src]);
    SweepConserves(Sown(b, src, player).pits, 14);
    if NonNegative(board[..14]) {
      assert forall i :: 0 <= i < 14 ==> b[i] == board[..14][i];
      assert b == board[..14];
    }
  }

  /** A sowing step never changes the opponent's end zone. */
  lemma StepKeepsOpponentHome(st: Sowing, src: int, player: int)
    requires WellFormed(st) && IsSmallPit(src) && (player == 1 || player == 2)
    ensures Step(st, src, player).pits[OpponentHome(player)] == st.pits[OpponentHome(player)]
  {
    var d := Deposit(st.dest, player);
    assert d != OpponentHome(player);
    var landed := Shift(st.pits, src, d, 1);
    assert landed[OpponentHome(player)] == st.pits[OpponentHome(player)];
    assert Step(st, src, player) == LastSeed(landed, src, d, player, st.turn);
  }

  lemma {:induction false} SowKeepsOpponentHome(st: Sowing, src: int, player: int, k: nat)
    requires WellFormed(st) && IsSmallPit(src) && (player == 1 || player == 2)
    ensures Sow(st, src, player, k).pits[OpponentHome(player)] == st.pits[OpponentHome(player)]
  {
    if k > 0 {
      SowKeepsOpponentHome(st, src, player, k - 1);
      StepKeepsOpponentHome(Sow(st, src, player, k - 1), src, player);
    }
  }

  /** The turn `transfer` returns: 0 when the game is over after sowing;
      otherwise the opponent exactly when there was a seed to sow, none of
      them wrapped back into the source pit, and the last one landed in a
      small pit; otherwise the mover again. */
  lemma MoveTurn(board: seq<int>, source: int, player: int)
    requires |board| >= 14 && IsSmallPit(SourceIndex(source, player))
    ensures var src := SourceIndex(source, player);
            var n := Load(board)[src];
            Move(board, source, player).turn
              == if GameOver(Sown(Load(board), src, player).pits) then 0
                 else if n > 0 && Visits(src, player, n, src) == 0 && IsSmallPit(Path(src, player, n)) then Other(player)
                 else player
  {
    var src := SourceIndex(source, player);
    var b := Load(board);
    if b[src] > 0 {
      SownIsSpreadThenLastSeed(b, src, player);
      SourceAfterSpread(b, src, player);
    }
  }

  /** Extra turn: when the last seed lands in the mover's own end zone the mover plays again, unless the game is over. */
  lemma ExtraTurn(board: seq<int>, source: int, player: int)
    requires |board| >= 14 && IsSmallPit(SourceIndex(source, player))
    requires Load(board)[SourceIndex(source, player)] > 0
    requires Path(SourceIndex(source, player), player, Load(board)[SourceIndex(source, player)]) == HomeOf(player)
    requires player == 1 || player == 2
    ensures Move(board, source, player).turn
         == if GameOver(Sown(Load(board), SourceIndex(source, player), player).pits) then 0 else player
  {
    MoveTurn(board, source, player);
  }

  /** A sowing that wraps back into its own source pit applies no rule: no
      capture, and the turn stays with the mover. */
  lemma WrapSkipsRules(b: seq<int>, src: int, player: int)
    requires |b| == 14 && 0 <= src < 14 && b[src] > 0
    requires Visits(src, player, b[src], src) > 0
    ensures Sown(b, src, player).pits == Spread(b, src, player, b[src])
    ensures Sown(b, src, player).turn == player
  {
    SownIsSpreadThenLastSeed(b, src, player);
    SourceAfterSpread(b, src, player);
  }

  /** The capture as written: when the last seed lands in the mover's own
      empty small pit `d` across from a non-empty pit, one seed (not all of
      them) leaves the opposite pit, `d` is emptied, and the mover's end zone
      gains two; every other pit is as the reference sowing left it. */
  lemma CaptureTakesOneSeed(b: seq<int>, src: int, player: int)
    requires |b| == 14 && 0 <= src < 14 && b[src] > 0
    requires Visits(src, player, b[src], src) == 0
    requires IsSmallPit(Path(src, player, b[src])) && Owner(Path(src, player, b[src])) == player
    requires Spread(b, src, player, b[src])[Path(src, player, b[src])] == 1
    requires Spread(b, src, player, b[src])[Opposite(Path(src, player, b[src]))] > 0
    ensures var d := Path(src, player, b[src]);
            var sp := Spread(b, src, player, b[src]);
            var s := Sown(b, src, player).pits;
            && s[d] == 0
            && s[Opposite(d)] == sp[Opposite(d)] - 1
            && s[HomeOf(player)] == sp[HomeOf(player)] + 2
            && (forall i :: 0 <= i < 14 && i != d && i != Opposite(d) && i != HomeOf(player) ==> s[i] == sp[i])
            && Sown(b, src, player).turn == Other(player)
  {
    SownIsSpreadThenLastSeed(b, src, player);
    SourceAfterSpread(b, src, player);
  }

  /** `clear` moves the rounded-up half of each small pit: the pit keeps the
      rounded-down half, so a pit with two or more seeds is not emptied. */
  lemma {:induction false} SweepUpToAt(b: seq<int>, p: nat, i: int)
    requires |b| == 14 && p <= 14 && IsSmallPit(i)
    ensures SweepUpTo(b, p)[i] == if i < p then b[i] - (b[i] + 1) / 2 else b[i]
  {
    if p > 0 {
      SweepUpToAt(b, p - 1, i);
    }
  }

  lemma SweepKeepsHalf(b: seq<int>)
    requires |b| == 14 && NonNegative(b)
    ensures forall i :: IsSmallPit(i) ==> Sweep(b)[i] == b[i] / 2
  {
    forall i | IsSmallPit(i)
      ensures Sweep(b)[i] == b[i] / 2
    {
      SweepUpToAt(b, 14, i);
    }
  }

  /** The seeds `clear` banks from the row of small pits `first..first+5`
      once it has visited pieces 0..p-1: the rounded-up half of each. */
  function Banked(b: seq<int>, first: int, p: nat): int
    requires |b| == 14 && p <= 14
  {
    if p == 0 then 0
    else Banked(b, first, p - 1) + (if first <= p - 1 < first + 6 then (b[p - 1] + 1) / 2 else 0)
  }

  /** Each end zone gains exactly the rounded-up halves of its own owner's
      small pits visited so far. */
  lemma {:induction false} SweepUpToHomes(b: seq<int>, p: nat)
    requires |b| == 14 && p <= 14
    ensures SweepUpTo(b, p)[6] == b[6] + Banked(b, 0, p)
    ensures SweepUpTo(b, p)[13] == b[13] + Banked(b, 7, p)
  {
    if p > 0 {
      SweepUpToHomes(b, p - 1);
      if IsSmallPit(p - 1) {
        SweepUpToAt(b, p - 1, p - 1);
      }
    }
  }

  /** After `clear`, end zone 6 holds its seeds plus the rounded-up halves of
      pits 0..5, and end zone 13 its seeds plus those of pits 7..12. */
  lemma SweepHomes(b: seq<int>)
    requires |b| == 14
    ensures Sweep(b)[6] == b[6] + Banked(b, 0, 14)
    ensures Sweep(b)[13] == b[13] + Banked(b, 7, 14)
  {
    SweepUpToHomes(b, 14);
  }
}
