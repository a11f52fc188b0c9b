/** Worked positions of src/algorithm/Board.java, each checked against the
    rules of KalahRules. */
module KalahExamples {
  import opened KalahRules

  const Opening := [3, 3, 3, 3, 3, 3, 0, 3, 3, 3, 3, 3, 3, 0]

  /** The seeds of the opening position from pit `k` on: three per small pit. */
  lemma {:induction false} StartSuffix(k: nat)
    requires k <= 14
    ensures SumFrom(Opening, k) == if k == 14 then 0 else 3 * (13 - k - (if k <= 6 then 1 else 0))
    decreases 14 - k
  {
    if k < 14 {
      StartSuffix(k + 1);
    }
  }

  /** The opening position holds three seeds in each of the twelve small
      pits and none in the end zones: 36 seeds in all. */
  lemma StartPosition()
    ensures forall i :: IsSmallPit(i) ==> Start()[i] == StartSeeds
    ensures forall i :: IsEndZone(i) ==> Start()[i] == 0
    ensures Sum(Start()) == 36
  {
    assert Start() == Opening;
    StartSuffix(0);
  }

  const AfterOpening := [3, 3, 0, 4, 4, 4, 0, 3, 3, 3, 3, 3, 3, 0]

  /** The three iterations of the sowing loop for pit 2 of the opening position. */
  lemma OpeningSteps()
    ensures Step(Sowing(Opening, 3, 1), 2, 1) == Sowing([3, 3, 2, 4, 3, 3, 0, 3, 3, 3, 3, 3, 3, 0], 4, 1)
    ensures Step(Sowing([3, 3, 2, 4, 3, 3, 0, 3, 3, 3, 3, 3, 3, 0], 4, 1), 2, 1)
         == Sowing([3, 3, 1, 4, 4, 3, 0, 3, 3, 3, 3, 3, 3, 0], 5, 1)
    ensures Step(Sowing([3, 3, 1, 4, 4, 3, 0, 3, 3, 3, 3, 3, 3, 0], 5, 1), 2, 1) == Sowing(AfterOpening, 6, 2)
  {
    assert Shift(Opening, 2, 3, 1) == [3, 3, 2, 4, 3, 3, 0, 3, 3, 3, 3, 3, 3, 0];
    assert Shift([3, 3, 2, 4, 3, 3, 0, 3, 3, 3, 3, 3, 3, 0], 2, 4, 1) == [3, 3, 1, 4, 4, 3, 0, 3, 3, 3, 3, 3, 3, 0];
    assert Shift([3, 3, 1, 4, 4, 3, 0, 3, 3, 3, 3, 3, 3, 0], 2, 5, 1) == AfterOpening;
  }

  /** Player 1 sows pit 2 of the opening position: pits 3, 4 and 5 gain a
      seed each, and player 2 moves next. */
  lemma OpeningMove()
    ensures Move(Start(), 2, 1) == MoveResult(AfterOpening, 2)
  {
    assert Start() == Opening;
    assert Load(Opening) == Opening;
    OpeningSteps();
    AfterOpeningNotOver();
    var s0 := Sowing(Opening, 3, 1);
    assert Sow(s0, 2, 1, 3) == Sowing(AfterOpening, 6, 2) by {
      assert Sow(s0, 2, 1, 1) == Step(s0, 2, 1);
    }
  }

  lemma AfterOpeningNotOver()
    ensures !GameOver(AfterOpening)
  {
    assert AfterOpening[3] == 4 && AfterOpening[7] == 3;
  }

  const BeforeCapture := [1, 0, 3, 3, 3, 3, 0, 3, 3, 3, 3, 3, 3, 0]
  const AfterCapture := [0, 0, 3, 3, 3, 3, 2, 3, 3, 3, 3, 2, 3, 0]

  /** Player 1's single seed from pit 0 lands in the empty pit 1, across
      from three seeds in pit 11: one of those three and the landing seed go
      to end zone 6, two stay in pit 11, and player 2 moves next. */
  lemma CaptureExample()
    ensures Move(BeforeCapture, 0, 1) == MoveResult(AfterCapture, 2)
  {
    assert Load(BeforeCapture) == BeforeCapture;
    var landed := [0, 1, 3, 3, 3, 3, 0, 3, 3, 3, 3, 3, 3, 0];
    assert Shift(BeforeCapture, 0, 1, 1) == landed;
    assert Capture(landed, 1, 1) == AfterCapture;
    assert Sown(BeforeCapture, 0, 1) == Sowing(AfterCapture, 2, 2);
    AfterCaptureNotOver();
  }

  lemma AfterCaptureNotOver()
    ensures !GameOver(AfterCapture)
  {
    assert AfterCapture[2] == 3 && AfterCapture[7] == 3;
  }
}
