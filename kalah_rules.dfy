/** The rules of the Kalah board as pure functions (src/algorithm/Board.java).

    Positions are numbered 0..13. Indices 0..5 are player 1's small pits and
    6 is player 1's end zone; 7..12 are player 2's small pits and 13 is player
    2's end zone. In the source the small pits are pieces of class `Store` and
    the end zones pieces of class `House`; a piece holds a stack of seeds, which
    is modelled here by its count.
 */
module KalahRules {

  /** Seeds placed in every small pit of a new board. */
  const StartSeeds := 3

  predicate IsEndZone(i: int) { i == 6 || i == 13 }

  /** A small pit (a `Store` piece of the source). */
  predicate IsSmallPit(i: int) { 0 <= i < 14 && !IsEndZone(i) }

  /** Owner of a position: indices below 7 belong to player 1, the others to player 2. */
  function Owner(i: int): int { if i < 7 then 1 else 2 }

  /** A player's end zone, `player * 7 - 1`. */
  function HomeOf(player: int): int { player * 7 - 1 }

  /** The pit across the board, `i + (6 - i) * 2`. */
  function Opposite(i: int): int { 12 - i }

  /** Player 2's pits are numbered from its own side: relative pit `s` is index `12 - s`. */
  function SourceIndex(source: int, player: int): int
  {
    if player == 2 then 12 - source else source
  }

  /** The turn after a switch: 1 becomes 2, anything else becomes 1. */
  function Other(turn: int): int { if turn == 1 then 2 else 1 }

  /** Total number of seeds in the pits `k` onwards. */
  function SumFrom(b: seq<int>, k: nat): int
    requires k <= |b|
    decreases |b| - k
  {
    if k == |b| then 0 else b[k] + SumFrom(b, k + 1)
  }

  /** Total number of seeds on a board. */
  function Sum(b: seq<int>): int
  {
    SumFrom(b, 0)
  }

  /** The opening position. */
  function Start(): (b: seq<int>)
  {
    seq(14, i => if IsEndZone(i) then 0 else StartSeeds)
  }

  /** The counts that `setBoard` rebuilds from an int array: a stack of
      `board[i]` fresh seeds for each position 0..13, so a negative entry
      gives an empty stack and entries past 13 are never read. */
  function Load(board: seq<int>): (b: seq<int>)
    requires |board| >= 14
    ensures |b| == 14
    ensures forall i :: 0 <= i < 14 ==> b[i] >= 0 && (board[i] >= 0 ==> b[i] == board[i])
    ensures forall i :: 0 <= i < 14 ==> board[i] < 0 ==> b[i] == 0
  {
    seq(14, i requires 0 <= i < 14 => if board[i] < 0 then 0 else board[i])
  }

  predicate NonNegative(b: seq<int>)
  {
    forall i :: 0 <= i < |b| ==> b[i] >= 0
  }

  /** Where the next seed goes when `destIndex` is `dest`: the opponent's end
      zone is skipped and an index past 13 wraps to 0. */
  function Deposit(dest: int, player: int): (d: int)
    ensures 0 <= dest <= 14 ==> 0 <= d < 14
  {
    var d := if (dest == 6 && player == 2) || (dest == 13 && player == 1) then dest + 1 else dest;
    if d > 13 then 0 else d
  }

  /** State of the sowing loop: the pit counts, `destIndex` and the `turn` field. */
  datatype Sowing = Sowing(pits: seq<int>, dest: int, turn: int)

  predicate WellFormed(st: Sowing)
  {
    |st.pits| == 14 && 0 <= st.dest <= 14
  }

  /** `n` seeds taken from pit `from` (`getItem`) and put into pit `to` (`putItem`). */
  function Shift(b: seq<int>, from: int, to: int, n: int): (r: seq<int>)
    requires 0 <= from < |b| && 0 <= to < |b|
    ensures |r| == |b|
  {
    var taken := b[from := b[from] - n];
    taken[to := taken[to] + n]
  }

  /** The capture as the source performs it: the first loop is bounded by the
      receiving pit's count, which is 1, so one seed moves from the opposite
      pit to the mover's end zone; then the receiving pit's one seed follows. */
  function Capture(b: seq<int>, d: int, player: int): seq<int>
    requires |b| == 14 && IsSmallPit(d) && Owner(d) == player
  {
    Shift(Shift(b, Opposite(d), HomeOf(player), 1), d, HomeOf(player), 1)
  }

  /** The rules checked after a seed lands in `d`: they fire only when the
      source pit is empty; a landing in a small pit switches the turn, and a
      landing in the mover's own small pit that now holds one seed, across from
      a non-empty pit, captures. */
  function LastSeed(b: seq<int>, src: int, d: int, player: int, turn: int): Sowing
    requires |b| == 14 && 0 <= src < 14 && 0 <= d < 14
  {
    if b[src] == 0 && IsSmallPit(d) then
      var c := if Owner(d) == player && b[d] == 1 && b[Opposite(d)] > 0 then Capture(b, d, player) else b;
      Sowing(c, d + 1, Other(turn))
    else
      Sowing(b, d + 1, turn)
  }

  /** One iteration of the sowing loop: take a seed from the source pit and put it into the next pit. */
  function Step(st: Sowing, src: int, player: int): (r: Sowing)
    requires WellFormed(st) && 0 <= src < 14
    ensures WellFormed(r)
  {
    var d := Deposit(st.dest, player);
    LastSeed(Shift(st.pits, src, d, 1), src, d, player, st.turn)
  }

  /** The sowing loop after `k` iterations. */
  function Sow(st: Sowing, src: int, player: int, k: nat): (r: Sowing)
    requires WellFormed(st) && 0 <= src < 14
    ensures WellFormed(r)
  {
    if k == 0 then st else Step(Sow(st, src, player, k - 1), src, player)
  }

  /** The whole sowing loop of `transfer`: as many iterations as the source pit holds seeds. */
  function Sown(b: seq<int>, src: int, player: int): (s: Sowing)
    requires |b| == 14 && 0 <= src < 14 && b[src] >= 0
    ensures WellFormed(s)
  {
    Sow(Sowing(b, src + 1, player), src, player, b[src])
  }

  /** `clear` on one piece: its loop `i < getCount()` runs while the count
      shrinks, so it moves `(n + 1) / 2` of a small pit's `n` seeds to the owner's end zone. */
  function SweepPit(b: seq<int>, i: int): (r: seq<int>)
    requires |b| == 14 && 0 <= i < 14
    ensures |r| == 14
  {
    if IsSmallPit(i) then
      Shift(b, i, HomeOf(Owner(i)), (b[i] + 1) / 2)
    else
      b
  }

  /** `clear` after visiting pieces 0..p-1. */
  function SweepUpTo(b: seq<int>, p: nat): (r: seq<int>)
    requires |b| == 14 && p <= 14
    ensures |r| == 14
  {
    if p == 0 then b else SweepPit(SweepUpTo(b, p - 1), p - 1)
  }

  function Sweep(b: seq<int>): (r: seq<int>)
    requires |b| == 14
    ensures |r| == 14
  {
    SweepUpTo(b, 14)
  }

  /** Six small pits starting at `first` are all empty. */
  predicate RowEmpty(b: seq<int>, first: int)
    requires |b| == 14 && 0 <= first && first + 6 <= 14
  {
    forall k :: first <= k < first + 6 ==> b[k] == 0
  }

  /** The game is over when either player's six small pits are all empty. */
  predicate GameOver(b: seq<int>)
    requires |b| == 14
  {
    RowEmpty(b, 0) || RowEmpty(b, 7)
  }

  datatype MoveResult = MoveResult(pits: seq<int>, turn: int)

  /** What `transfer(source, player, board)` leaves on the board and returns. */
  function Move(board: seq<int>, source: int, player: int): MoveResult
    requires |board| >= 14 && IsSmallPit(SourceIndex(source, player))
  {
    var src := SourceIndex(source, player);
    var s := Sown(Load(board), src, player);
    if GameOver(s.pits) then MoveResult(Sweep(s.pits), 0) else MoveResult(s.pits, s.turn)
  }
}
