/** The scoring and selection rules of the move evaluator of
    src/algorithm/Player.java, as functions over values.

    Every score triple the evaluator produces is a `Value`: a score
    difference, a win credit and an outcome count. The evaluator reads the
    board of each child position from its `tmpBoard` field, which the move
    simulation never writes; `ValueOfMove` follows that wiring, so the child
    board is the parameter `tmp`. The recursion of the source has no bound;
    here it carries a depth `fuel`, and exhausting it yields `Overflow`,
    standing for the stack overflow of the unbounded recursion. */
module KalahEvaluation {
  import opened KalahRules

  /** The marker the evaluator writes into all three slots of an unplayable move. */
  const Marker := -9999

  /** Score difference, win credit and outcome count of one move. The score
      and outcome slots only ever hold whole numbers. */
  datatype Value = Value(score: int, wins: real, outcomes: int)

  /** A computation that either finishes or runs out of stack. */
  datatype Eval<T> = Done(value: T) | Overflow

  function Sentinel(): Value { Value(Marker, Marker as real, Marker) }

  /** The triple of an empty pit is all markers. */
  predicate IsSentinel(v: Value) { v.score == Marker && v.wins == Marker as real && v.outcomes == Marker }

  /** Seeds in the small pits 0..`i`-1 (the end zone 6 excluded), for `i` up to 13. */
  function SmallPitsBelow(b: seq<int>, i: nat): int
    requires i <= 13 && |b| == 14
  {
    if i == 0 then 0 else SmallPitsBelow(b, i - 1) + (if i - 1 != 6 then b[i - 1] else 0)
  }

  /** The sum the evaluator uses as its terminal test: the twelve small pits. */
  function SmallPitTotal(b: seq<int>): int
    requires |b| == 14
  {
    SmallPitsBelow(b, 13)
  }

  /** Win credit of an end zone holding `own` seeds against one holding `other`. */
  function Credit(own: int, other: int): (w: real)
    ensures w == 1.0 <==> own > other
    ensures w == 0.5 <==> own == other
    ensures w == 0.0 <==> own < other
  {
    if own > other then 1.0 else if own == other then 0.5 else 0.0
  }

  /** The triple of a finished game, always seen from the side `id` the
      evaluator plays for: player 1's end zone is 6, every other id is scored
      as player 2 with end zone 13. */
  function Leaf(b: seq<int>, id: int): (v: Value)
    requires |b| == 14
    ensures v.outcomes == 1
    ensures id == 1 ==> v.score == b[6] - b[13] && v.wins == Credit(b[6], b[13])
    ensures id != 1 ==> v.score == b[13] - b[6] && v.wins == Credit(b[13], b[6])
  {
    var own := if id == 1 then b[6] else b[13];
    var other := if id == 1 then b[13] else b[6];
    Value(own - other, Credit(own, other), 1)
  }

  /** One slot of the aggregation: a child's value is added only when it is the marker. */
  function AbsorbSlot(acc: int, child: int): int
  {
    if child == Marker then acc + child else acc
  }

  /** The aggregation of one child triple into the running triple. */
  function Absorb(acc: Value, child: Value): Value
  {
    Value(AbsorbSlot(acc.score, child.score),
          if child.wins == Marker as real then acc.wins + child.wins else acc.wins,
          AbsorbSlot(acc.outcomes, child.outcomes))
  }

  /** The aggregation of a list of child triples, from a zero triple, left to right. */
  function Fold(children: seq<Value>): Value
  {
    if |children| == 0 then Value(0, 0.0, 0)
    else Absorb(Fold(children[..|children| - 1]), children[|children| - 1])
  }

  function Scores(children: seq<Value>): (s: seq<int>)
    ensures |s| == |children| && forall i :: 0 <= i < |s| ==> s[i] == children[i].score
  {
    seq(|children|, i requires 0 <= i < |children| => children[i].score)
  }

  function Credits(children: seq<Value>): (s: seq<real>)
    ensures |s| == |children| && forall i :: 0 <= i < |s| ==> s[i] == children[i].wins
  {
    seq(|children|, i requires 0 <= i < |children| => children[i].wins)
  }

  function Outcomes(children: seq<Value>): (s: seq<int>)
    ensures |s| == |children| && forall i :: 0 <= i < |s| ==> s[i] == children[i].outcomes
  {
    seq(|children|, i requires 0 <= i < |children| => children[i].outcomes)
  }

  /** The aggregation of one whole-number slot over a list of child values. */
  function SlotFold(s: seq<int>): int
  {
    if |s| == 0 then 0 else AbsorbSlot(SlotFold(s[..|s| - 1]), s[|s| - 1])
  }

  /** The aggregation of the win-credit slot over a list of child values. */
  function CreditFold(s: seq<real>): real
  {
    if |s| == 0 then 0.0
    else if s[|s| - 1] == Marker as real then CreditFold(s[..|s| - 1]) + s[|s| - 1]
    else CreditFold(s[..|s| - 1])
  }

  /** The slots of `Fold` are aggregated independently of each other. */
  lemma {:induction false} FoldBySlot(children: seq<Value>)
    ensures Fold(children) == Value(SlotFold(Scores(children)), CreditFold(Credits(children)), SlotFold(Outcomes(children)))
  {
    if |children| > 0 {
      var init := children[..|children| - 1];
      FoldBySlot(init);
      assert Scores(children)[..|children| - 1] == Scores(init);
      assert Credits(children)[..|children| - 1] == Credits(init);
      assert Outcomes(children)[..|children| - 1] == Outcomes(init);
    }
  }

  /** A slot aggregate is the marker times the number of markers in the slot. */
  lemma {:induction false} SlotFoldCounts(s: seq<int>)
    ensures SlotFold(s) == Marker * multiset(s)[Marker]
  {
    if |s| > 0 {
      SlotFoldCounts(s[..|s| - 1]);
      assert s == s[..|s| - 1] + [s[|s| - 1]];
    }
  }

  lemma {:induction false} CreditFoldCounts(s: seq<real>)
    ensures CreditFold(s) == (Marker * multiset(s)[Marker as real]) as real
  {
    if |s| > 0 {
      CreditFoldCounts(s[..|s| - 1]);
      assert s == s[..|s| - 1] + [s[|s| - 1]];
    }
  }

  /** The aggregation counts markers: each slot is the marker times the
      number of children whose slot holds the marker, and every other child
      value is dropped. */
  lemma FoldCountsMarkers(children: seq<Value>)
    ensures Fold(children).score == Marker * multiset(Scores(children))[Marker]
    ensures Fold(children).wins == (Marker * multiset(Credits(children))[Marker as real]) as real
    ensures Fold(children).outcomes == Marker * multiset(Outcomes(children))[Marker]
  {
    FoldBySlot(children);
    SlotFoldCounts(Scores(children));
    CreditFoldCounts(Credits(children));
    SlotFoldCounts(Outcomes(children));
  }

  /** Hence no aggregated slot is positive, and none is below six markers for six children. */
  lemma FoldBounds(children: seq<Value>)
    ensures Marker * |children| <= Fold(children).score <= 0
    ensures (Marker * |children|) as real <= Fold(children).wins <= 0.0
    ensures Marker * |children| <= Fold(children).outcomes <= 0
  {
    FoldCountsMarkers(children);
    assert |multiset(Scores(children))| == |children|;
    assert |multiset(Credits(children))| == |children|;
    assert |multiset(Outcomes(children))| == |children|;
  }

  /** The moves the evaluator tries for the side `player` at a child
      position: pits 0..5 for player 1, the absolute indices 7..12 for
      anyone else. */
  function ChildMove(player: int, k: int): int
  {
    if player == 1 then k else 7 + k
  }

  /** The moves the evaluator can ask about: those `ChildMove` produces. */
  predicate Tried(move: int, player: int)
  {
    if player == 1 then 0 <= move < 6 else 7 <= move < 13
  }

  /** Every move the evaluator tries is a small pit once `transfer` has
      mapped it; player 2's absolute indices 7..12 land on its opponent's
      pits 5..0. */
  lemma TriedIsSowable(move: int, player: int)
    requires Tried(move, player)
    ensures IsSmallPit(SourceIndex(move, player))
    ensures player == 2 ==> 0 <= SourceIndex(move, player) < 6
  {
  }

  /** The triple of trying `move` for `player` on `curr`, as the evaluator
      playing for `id` computes it, with `tmp` as the board of every child
      position. */
  function ValueOfMove(id: int, tmp: seq<int>, move: int, player: int, curr: seq<int>, fuel: nat): (r: Eval<Value>)
    requires |tmp| == 14 && |curr| == 14 && Tried(move, player)
    decreases fuel, 1
  {
    if curr[move] == 0 then Done(Sentinel())
    else
      assert IsSmallPit(SourceIndex(move, player)) by { TriedIsSowable(move, player); }
      var next := Move(curr, move, player).turn;
      if SmallPitTotal(tmp) == 0 then Done(Leaf(tmp, id))
      else if fuel == 0 then Overflow
      else match ChildValues(id, tmp, next, fuel, 6)
        case Overflow => Overflow
        case Done(children) => Done(Fold(children))
  }

  /** The triples of the first `k` moves tried for `player` at a child
      position, each evaluated one level deeper; the first overflow aborts. */
  function ChildValues(id: int, tmp: seq<int>, player: int, fuel: nat, k: nat): (r: Eval<seq<Value>>)
    requires |tmp| == 14 && fuel > 0 && k <= 6
    ensures r.Done? ==> |r.value| == k
    decreases fuel, 0, k
  {
    if k == 0 then Done([])
    else match ChildValues(id, tmp, player, fuel, k - 1)
      case Overflow => Overflow
      case Done(earlier) =>
        match ValueOfMove(id, tmp, ChildMove(player, k - 1), player, tmp, fuel - 1)
          case Overflow => Overflow
          case Done(v) => Done(earlier + [v])
  }

  /** The aggregation of one more child. */
  lemma ChildValuesStep(id: int, tmp: seq<int>, player: int, fuel: nat, k: nat, earlier: seq<Value>, v: Value)
    requires |tmp| == 14 && fuel > 0 && k < 6 && Tried(ChildMove(player, k), player)
    requires ChildValues(id, tmp, player, fuel, k) == Done(earlier)
    requires ValueOfMove(id, tmp, ChildMove(player, k), player, tmp, fuel - 1) == Done(v)
    ensures ChildValues(id, tmp, player, fuel, k + 1) == Done(earlier + [v])
    ensures Fold(earlier + [v]) == Absorb(Fold(earlier), v)
  {
    assert (earlier + [v])[..|earlier|] == earlier;
  }

  /** Once a child overflows, so does the whole aggregation. */
  lemma {:induction false} ChildOverflowPersists(id: int, tmp: seq<int>, player: int, fuel: nat, k: nat, j: nat)
    requires |tmp| == 14 && fuel > 0 && k <= j <= 6
    requires ChildValues(id, tmp, player, fuel, k) == Overflow
    ensures ChildValues(id, tmp, player, fuel, j) == Overflow
    decreases j
  {
    if j > k {
      ChildOverflowPersists(id, tmp, player, fuel, k, j - 1);
    }
  }

  /** A finished evaluation does not depend on the depth bound: with more
      fuel the recursion takes the same course and gives the same triple, so
      any result reached within the bound is the result of the unbounded
      recursion. */
  lemma {:induction false} ValueOfMoveFuel(id: int, tmp: seq<int>, move: int, player: int, curr: seq<int>, f: nat, g: nat)
    requires |tmp| == 14 && |curr| == 14 && Tried(move, player) && f <= g
    requires ValueOfMove(id, tmp, move, player, curr, f).Done?
    ensures ValueOfMove(id, tmp, move, player, curr, g) == ValueOfMove(id, tmp, move, player, curr, f)
    decreases f, 1
  {
    if curr[move] != 0 && SmallPitTotal(tmp) != 0 {
      TriedIsSowable(move, player);
      ChildValuesFuel(id, tmp, Move(curr, move, player).turn, f, g, 6);
    }
  }

  /** The same for the children of a position. */
  lemma {:induction false} ChildValuesFuel(id: int, tmp: seq<int>, player: int, f: nat, g: nat, k: nat)
    requires |tmp| == 14 && 0 < f <= g && k <= 6
    requires ChildValues(id, tmp, player, f, k).Done?
    ensures ChildValues(id, tmp, player, g, k) == ChildValues(id, tmp, player, f, k)
    decreases f, 0, k
  {
    if k > 0 {
      ChildValuesFuel(id, tmp, player, f, g, k - 1);
      ValueOfMoveFuel(id, tmp, ChildMove(player, k - 1), player, tmp, f - 1, g - 1);
    }
  }

  /** Every finished evaluation is one of three things: the marker triple
      of an empty pit, the leaf triple of `tmp`, or an aggregate whose slots
      are between six markers and zero. */
  lemma ValueOfMoveShape(id: int, tmp: seq<int>, move: int, player: int, curr: seq<int>, fuel: nat)
    requires |tmp| == 14 && |curr| == 14 && Tried(move, player)
    ensures var r := ValueOfMove(id, tmp, move, player, curr, fuel);
            r.Done? ==>
              (curr[move] == 0 && IsSentinel(r.value))
              || (curr[move] != 0 && SmallPitTotal(tmp) == 0 && r.value == Leaf(tmp, id))
              || (curr[move] != 0 && SmallPitTotal(tmp) != 0
                  && 6 * Marker <= r.value.score <= 0 && 6 * Marker <= r.value.outcomes <= 0
                  && (6 * Marker) as real <= r.value.wins <= 0.0)
  {
    var r := ValueOfMove(id, tmp, move, player, curr, fuel);
    if r.Done? && curr[move] != 0 && SmallPitTotal(tmp) != 0 {
      FoldBounds(ChildValues(id, tmp, Move(curr, move, player).turn, fuel, 6).value);
    }
  }

  /** The terminal test holds exactly when all twelve small pits are empty,
      on a board with no negative count. */
  lemma {:induction false} SmallPitsBelowZero(b: seq<int>, i: nat)
    requires i <= 13 && |b| == 14 && NonNegative(b)
    ensures SmallPitsBelow(b, i) >= 0
    ensures SmallPitsBelow(b, i) == 0 <==> forall k :: 0 <= k < i && k != 6 ==> b[k] == 0
  {
    if i > 0 {
      SmallPitsBelowZero(b, i - 1);
    }
  }

  lemma TerminalIffEmpty(b: seq<int>)
    requires |b| == 14 && NonNegative(b)
    ensures SmallPitTotal(b) == 0 <==> forall k :: IsSmallPit(k) ==> b[k] == 0
  {
    SmallPitsBelowZero(b, 13);
  }

  /** The evaluator's terminal test asks for both rows to be empty, which
      is stronger than the board's game-over test (either row). */
  lemma TerminalIsGameOver(b: seq<int>)
    requires |b| == 14 && NonNegative(b) && SmallPitTotal(b) == 0
    ensures GameOver(b)
  {
    TerminalIffEmpty(b);
    assert b[0] == 0 && b[1] == 0 && b[2] == 0 && b[3] == 0 && b[4] == 0 && b[5] == 0;
  }

  lemma GameOverNotTerminal()
    ensures var b := [0, 0, 0, 0, 0, 0, 20, 1, 0, 0, 0, 0, 0, 15];
            GameOver(b) && SmallPitTotal(b) != 0
  {
    var b := [0, 0, 0, 0, 0, 0, 20, 1, 0, 0, 0, 0, 0, 15];
    assert RowEmpty(b, 0);
  }

  /** A finished game scores the same for both sides with opposite sign,
      and the two win credits add up to one. */
  lemma LeafZeroSum(b: seq<int>)
    requires |b| == 14
    ensures Leaf(b, 1).score + Leaf(b, 2).score == 0
    ensures Leaf(b, 1).wins + Leaf(b, 2).wins == 1.0
  {
  }

  /** The board the evaluator is constructed with: fourteen zeros. */
  function Zeros(): (z: seq<int>)
    ensures |z| == 14 && forall i :: 0 <= i < 14 ==> z[i] == 0
  {
    seq(14, i => 0)
  }

  /** With the child board left as constructed (all zeros), every playable
      move is scored as a drawn finished game, whatever the position. */
  lemma ZeroChildBoardDraws(id: int, move: int, player: int, curr: seq<int>, fuel: nat)
    requires |curr| == 14 && Tried(move, player) && curr[move] != 0
    ensures ValueOfMove(id, Zeros(), move, player, curr, fuel) == Done(Value(0, 0.5, 1))
  {
    SmallPitsBelowZero(Zeros(), 13);
  }

  /** With a child board whose small pits are all non-empty, the recursion
      never reaches a leaf: whatever the depth, a playable move overflows. */
  lemma {:induction false} FullChildBoardOverflows(id: int, tmp: seq<int>, move: int, player: int, curr: seq<int>, fuel: nat)
    requires |tmp| == 14 && |curr| == 14 && Tried(move, player) && curr[move] != 0
    requires forall k :: IsSmallPit(k) ==> tmp[k] > 0
    ensures ValueOfMove(id, tmp, move, player, curr, fuel) == Overflow
    decreases fuel, 1
  {
    assert SmallPitTotal(tmp) != 0 by {
      assert SmallPitsBelow(tmp, 1) == tmp[0];
      SmallPitsBelowPositive(tmp, 13);
    }
    if fuel > 0 {
      assert IsSmallPit(SourceIndex(move, player)) by { TriedIsSowable(move, player); }
      ChildrenOverflow(id, tmp, Move(curr, move, player).turn, fuel, 6);
    }
  }

  lemma {:induction false} ChildrenOverflow(id: int, tmp: seq<int>, player: int, fuel: nat, k: nat)
    requires |tmp| == 14 && fuel > 0 && 0 < k <= 6
    requires forall i :: IsSmallPit(i) ==> tmp[i] > 0
    ensures ChildValues(id, tmp, player, fuel, k) == Overflow
    decreases fuel, 0, k
  {
    if k > 1 {
      ChildrenOverflow(id, tmp, player, fuel, k - 1);
    } else {
      assert IsSmallPit(ChildMove(player, 0));
      FullChildBoardOverflows(id, tmp, ChildMove(player, 0), player, tmp, fuel - 1);
    }
  }

  lemma {:induction false} SmallPitsBelowPositive(b: seq<int>, i: nat)
    requires 1 <= i <= 13 && |b| == 14
    requires forall k :: IsSmallPit(k) ==> b[k] > 0
    ensures SmallPitsBelow(b, i) > 0
  {
    if i > 1 {
      SmallPitsBelowPositive(b, i - 1);
    }
  }

  /** The move table for player 1: one column per pit 0..5, the marker
      triple for an empty pit, otherwise the value of sowing that pit. */
  function MoveTable(tmp: seq<int>, original: seq<int>, fuel: nat, k: nat): (r: Eval<seq<Value>>)
    requires |tmp| == 14 && |original| == 14 && k <= 6
    ensures r.Done? ==> |r.value| == k
  {
    if k == 0 then Done([])
    else match MoveTable(tmp, original, fuel, k - 1)
      case Overflow => Overflow
      case Done(earlier) =>
        if original[k - 1] == 0 then Done(earlier + [Sentinel()])
        else match ValueOfMove(1, tmp, k - 1, 1, original, fuel)
          case Overflow => Overflow
          case Done(v) => Done(earlier + [v])
  }

  /** Once a column overflows, so does the whole table. */
  lemma {:induction false} TableOverflowPersists(tmp: seq<int>, original: seq<int>, fuel: nat, k: nat, j: nat)
    requires |tmp| == 14 && |original| == 14 && k <= j <= 6
    requires MoveTable(tmp, original, fuel, k) == Overflow
    ensures MoveTable(tmp, original, fuel, j) == Overflow
    decreases j
  {
    if j > k {
      TableOverflowPersists(tmp, original, fuel, k, j - 1);
    }
  }

  /** The empty-pit check of the table is the one the evaluator makes
      itself: every column is the evaluator's value of its pit. */
  lemma {:induction false} MoveTableColumns(tmp: seq<int>, original: seq<int>, fuel: nat, k: nat)
    requires |tmp| == 14 && |original| == 14 && k <= 6
    ensures var t := MoveTable(tmp, original, fuel, k);
            t.Done? ==> forall i :: 0 <= i < k ==> ValueOfMove(1, tmp, i, 1, original, fuel) == Done(t.value[i])
  {
    if k > 0 {
      MoveTableColumns(tmp, original, fuel, k - 1);
      if original[k - 1] == 0 {
        EmptyPitColumn(tmp, k - 1, original, fuel);
      }
    }
  }

  /** The table overflows only when the evaluator overflows on one of its pits. */
  lemma {:induction false} MoveTableOverflow(tmp: seq<int>, original: seq<int>, fuel: nat, k: nat)
    requires |tmp| == 14 && |original| == 14 && k <= 6
    ensures MoveTable(tmp, original, fuel, k).Overflow? ==>
              exists i :: 0 <= i < k && ValueOfMove(1, tmp, i, 1, original, fuel).Overflow?
  {
    if k > 0 {
      MoveTableOverflow(tmp, original, fuel, k - 1);
      if original[k - 1] == 0 {
        EmptyPitColumn(tmp, k - 1, original, fuel);
      }
      if ValueOfMove(1, tmp, k - 1, 1, original, fuel).Overflow? {
        assert 0 <= k - 1 < k;
      }
    }
  }

  /** A finished table does not depend on the depth bound either. */
  lemma {:induction false} MoveTableFuel(tmp: seq<int>, original: seq<int>, f: nat, g: nat, k: nat)
    requires |tmp| == 14 && |original| == 14 && f <= g && k <= 6
    requires MoveTable(tmp, original, f, k).Done?
    ensures MoveTable(tmp, original, g, k) == MoveTable(tmp, original, f, k)
  {
    if k > 0 {
      MoveTableFuel(tmp, original, f, g, k - 1);
      if original[k - 1] != 0 {
        ValueOfMoveFuel(1, tmp, k - 1, 1, original, f, g);
      }
    }
  }

  /** The evaluator scores an empty pit with the marker triple. */
  lemma EmptyPitColumn(tmp: seq<int>, i: int, original: seq<int>, fuel: nat)
    requires |tmp| == 14 && |original| == 14 && 0 <= i < 6 && original[i] == 0
    ensures ValueOfMove(1, tmp, i, 1, original, fuel) == Done(Sentinel())
  {
  }

  /** The win percentage of `makePlay`: a real number, or what a division
      by zero gives in floating point. */
  datatype Ratio = Num(x: real) | PosInf | NegInf | NaN

  /** Win credit over outcome count, in percent. */
  function Percent(wins: real, outcomes: int): Ratio
  {
    if outcomes != 0 then Num(wins / outcomes as real * 100.0)
    else if wins > 0.0 then PosInf
    else if wins < 0.0 then NegInf
    else NaN
  }

  /** The ratio of a column: the marker itself when the outcome slot holds it. */
  function RatioOf(v: Value): Ratio
  {
    if v.outcomes == Marker then Num(Marker as real) else Percent(v.wins, v.outcomes)
  }

  /** Floating-point `>`: false whenever a NaN is involved. */
  predicate Greater(a: Ratio, b: Ratio)
  {
    match (a, b)
      case (Num(x), Num(y)) => x > y
      case (PosInf, Num(_)) => true
      case (PosInf, NegInf) => true
      case (Num(_), NegInf) => true
      case _ => false
  }

  /** Floating-point `==`: a NaN equals nothing. */
  predicate Same(a: Ratio, b: Ratio)
  {
    a == b && !a.NaN?
  }

  /** The best column so far: its ratio, its score and its 1-based index (0 for none). */
  datatype Best = Best(ratio: Ratio, score: int, move: int)

  function Initial(): Best { Best(Num(Marker as real), Marker, 0) }

  /** A column replaces the best one on a strictly higher ratio, or on an
      equal ratio with a strictly higher score. */
  predicate Beats(v: Value, best: Best)
  {
    Greater(RatioOf(v), best.ratio) || (Same(RatioOf(v), best.ratio) && v.score > best.score)
  }

  /** The selection of `makePlay` over the first `k` columns. */
  function SelectUpTo(table: seq<Value>, k: nat): (b: Best)
    requires k <= |table|
    ensures 0 <= b.move <= k
    ensures b.move == 0 ==> b == Initial()
    ensures b.move > 0 ==> b.ratio == RatioOf(table[b.move - 1]) && b.score == table[b.move - 1].score
  {
    if k == 0 then Initial()
    else
      var best := SelectUpTo(table, k - 1);
      if Beats(table[k - 1], best) then Best(RatioOf(table[k - 1]), table[k - 1].score, k) else best
  }

  /** The move `makePlay` returns for a table. */
  function Select(table: seq<Value>): (move: int)
    requires |table| == 6
    ensures 0 <= move <= 6
  {
    SelectUpTo(table, 6).move
  }

  /** The selection is an arg-max: a column with a NaN ratio is never
      chosen, no column is above the chosen (ratio, score) pair in
      lexicographic order, every earlier column without a NaN ratio is
      strictly below it, and 0 is returned exactly when no column is above
      the starting pair (marker ratio, marker score). */
  lemma {:induction false} SelectIsArgMax(table: seq<Value>, k: nat)
    requires k <= |table|
    ensures var b := SelectUpTo(table, k);
            b.move > 0 ==> !RatioOf(table[b.move - 1]).NaN?
    ensures var b := SelectUpTo(table, k);
            forall i :: 0 <= i < k ==> !Beats(table[i], b)
    ensures var b := SelectUpTo(table, k);
            forall i :: 0 <= i < b.move - 1 && !RatioOf(table[i]).NaN? ==>
              Beats(table[b.move - 1], Best(RatioOf(table[i]), table[i].score, i + 1))
    ensures SelectUpTo(table, k).move == 0 <==> forall i :: 0 <= i < k ==> !Beats(table[i], Initial())
  {
    if k > 0 {
      SelectIsArgMax(table, k - 1);
      var prev := SelectUpTo(table, k - 1);
      var v := table[k - 1];
      if Beats(v, prev) {
        forall i | 0 <= i < k - 1 && !RatioOf(table[i]).NaN?
          ensures Beats(v, Best(RatioOf(table[i]), table[i].score, i + 1))
        {
          BeatsTransitive(table[i], prev, v);
        }
        forall i | 0 <= i < k
          ensures !Beats(table[i], SelectUpTo(table, k))
        {
          if i < k - 1 && !RatioOf(table[i]).NaN? {
            NotBeatsTransitive(table[i], prev, v);
          }
        }
        if prev.move == 0 {
          assert Beats(table[k - 1], Initial());
        }
      } else {
        if prev.move == 0 {
          assert !Beats(v, Initial());
        }
      }
    }
  }

  /** A column below-or-level with the best, which a new column beats, is
      strictly below the new column. */
  lemma BeatsTransitive(u: Value, best: Best, v: Value)
    requires !RatioOf(u).NaN? && !best.ratio.NaN?
    requires !Beats(u, best) && Beats(v, best)
    ensures Beats(v, Best(RatioOf(u), u.score, 0))
  {
  }

  /** A column not above the best is not above a column that beats the best. */
  lemma NotBeatsTransitive(u: Value, best: Best, v: Value)
    requires !RatioOf(u).NaN? && !best.ratio.NaN?
    requires !Beats(u, best) && Beats(v, best)
    ensures !Beats(u, Best(RatioOf(v), v.score, 0))
  {
  }

  /** A table of marker columns (every pit empty) selects move 0. */
  lemma {:induction false} AllEmptySelectsNone(table: seq<Value>, k: nat)
    requires k <= |table| && forall i :: 0 <= i < k ==> IsSentinel(table[i])
    ensures SelectUpTo(table, k).move == 0
  {
    if k > 0 {
      AllEmptySelectsNone(table, k - 1);
    }
  }

  /** The first pit (0-based) among 0..`k`-1 holding seeds, or `k`. */
  function FirstNonEmpty(original: seq<int>, k: nat): (i: nat)
    requires k <= |original|
    ensures i <= k && (i < k ==> original[i] != 0)
    ensures forall j :: 0 <= j < i ==> original[j] == 0
  {
    if k == 0 then 0
    else
      var i := FirstNonEmpty(original, k - 1);
      if i < k - 1 then i else if original[k - 1] != 0 then k - 1 else k
  }

  /** With the child board left as constructed, the table holds the marker
      triple for an empty pit and a drawn finished game for any other. */
  lemma {:induction false} ZeroChildBoardTable(original: seq<int>, fuel: nat, k: nat)
    requires |original| == 14 && k <= 6
    ensures var t := MoveTable(Zeros(), original, fuel, k);
            t.Done? && forall i :: 0 <= i < k ==> t.value[i] == if original[i] == 0 then Sentinel() else Value(0, 0.5, 1)
  {
    if k > 0 {
      ZeroChildBoardTable(original, fuel, k - 1);
      if original[k - 1] != 0 {
        ZeroChildBoardDraws(1, k - 1, 1, original, fuel);
      }
    }
  }

  /** On such a table the selection is the leftmost non-empty pit (1-based),
      or 0 when all the pits looked at are empty. */
  lemma {:induction false} DrawTableSelectsFirst(table: seq<Value>, original: seq<int>, k: nat)
    requires |original| == 14 && k <= 6 && k <= |table|
    requires forall i :: 0 <= i < k ==> table[i] == if original[i] == 0 then Sentinel() else Value(0, 0.5, 1)
    ensures SelectUpTo(table, k).move == if FirstNonEmpty(original, k) < k then FirstNonEmpty(original, k) + 1 else 0
  {
    if k > 0 {
      DrawTableSelectsFirst(table, original, k - 1);
      assert RatioOf(Value(0, 0.5, 1)) == Num(50.0);
    }
  }

  /** With the child board left as constructed, `makePlay` for player 1
      chooses the leftmost non-empty pit (1-based), or 0 when all six are
      empty, whatever the rest of the position. */
  lemma ZeroChildBoardPicksFirst(original: seq<int>, fuel: nat)
    requires |original| == 14
    ensures MoveTable(Zeros(), original, fuel, 6).Done?
    ensures Select(MoveTable(Zeros(), original, fuel, 6).value)
         == if FirstNonEmpty(original, 6) < 6 then FirstNonEmpty(original, 6) + 1 else 0
  {
    ZeroChildBoardTable(original, fuel, 6);
    DrawTableSelectsFirst(MoveTable(Zeros(), original, fuel, 6).value, original, 6);
  }

  lemma {:induction false} SelectSamePrefix(a: seq<Value>, b: seq<Value>, k: nat)
    requires k <= |a| && k <= |b| && a[..k] == b[..k]
    ensures SelectUpTo(a, k) == SelectUpTo(b, k)
  {
    if k > 0 {
      assert a[..k - 1] == b[..k - 1];
      assert a[k - 1] == a[..k][k - 1];
      SelectSamePrefix(a, b, k - 1);
    }
  }
}
