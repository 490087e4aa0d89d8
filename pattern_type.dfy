/** The spending-pattern type enum: a cycle length in days and a 25% tolerance
    around it. */
module PatternTypes {
  import opened Int32s

  datatype PatternType = Daily | Weekly | Monthly | Seasonal {

    /** `getCycleDays`. */
    function CycleDays(): (r: Int32)
      ensures r in {1, 7, 30, 90}
      ensures this == Daily <==> r == 1
      ensures this == Weekly <==> r == 7
      ensures this == Monthly <==> r == 30
      ensures this == Seasonal <==> r == 90
    {
      match this
      case Daily => 1
      case Weekly => 7
      case Monthly => 30
      case Seasonal => 90
    }

    /** `matchesCycle` as written: on 32-bit `int`, `Math.abs(daysBetween - cycleDays)`
        compared with `cycleDays / 4`. It agrees with the quarter-cycle window at
        every day count but `Integer.MIN_VALUE + cycleDays`, which it accepts. */
    function MatchesCycleAsWritten(daysBetween: Int32): (r: bool)
      ensures daysBetween != MIN + CycleDays() ==>
        (r <==> CycleDays() - CycleDays() / 4 <= daysBetween <= CycleDays() + CycleDays() / 4)
      ensures daysBetween == MIN + CycleDays() ==> r
    {
      Abs(Sub(daysBetween, CycleDays())) <= CycleDays() / 4
    }

    /** `matchesCycle` as intended: the day count lies within a quarter cycle (rounded
        down) of the cycle length. */
    function MatchesCycle(daysBetween: int): (r: bool)
      ensures r <==> CycleDays() - CycleDays() / 4 <= daysBetween <= CycleDays() + CycleDays() / 4
      ensures this == Daily ==> (r <==> daysBetween == 1)
      ensures this == Weekly ==> (r <==> 6 <= daysBetween <= 8)
      ensures this == Monthly ==> (r <==> 23 <= daysBetween <= 37)
      ensures this == Seasonal ==> (r <==> 68 <= daysBetween <= 112)
    {
      var d := daysBetween - CycleDays();
      (if d < 0 then -d else d) <= CycleDays() / 4
    }
  }

  /** Each pattern type matches its own cycle length. */
  lemma MatchesOwnCycle(p: PatternType)
    ensures p.MatchesCycle(p.CycleDays()) && p.MatchesCycleAsWritten(p.CycleDays())
  {
  }

  /** The 32-bit version and the intended one disagree at exactly one day count,
      `Integer.MIN_VALUE + cycleDays`: there the difference is `MIN_VALUE`, whose
      `Math.abs` is itself and negative, so the far-off day count is taken as a match. */
  lemma {:induction false} MatchesCycleOverflow(p: PatternType, d: Int32)
    ensures p.MatchesCycleAsWritten(d) != p.MatchesCycle(d) <==> d == MIN + p.CycleDays()
    ensures d == MIN + p.CycleDays() ==> p.MatchesCycleAsWritten(d) && !p.MatchesCycle(d)
  {
    var c := p.CycleDays();
    if d == MIN + c {
      assert Sub(d, c) == MIN;
    } else if d - c < MIN {
      assert Sub(d, c) == d - c + 0x1_0000_0000;
    } else {
      assert Sub(d, c) == d - c;
    }
  }

  /** `DAILY.matchesCycle(Integer.MIN_VALUE + 1)` holds as written, yet the day count
      is about two billion days away from one day. */
  lemma DailyOverflowWitness()
    ensures Daily.MatchesCycleAsWritten(MIN + 1)
    ensures !Daily.MatchesCycle(MIN + 1)
  {
    MatchesCycleOverflow(Daily, MIN + 1);
  }
}
