/**
 * Session statistics and spawn cadence: the running words-per-minute average
 * (Shipwrecked.get_avg_wpm), the pace at which bottles are admitted (Shipwrecked.set_wpm and
 * the interval test in Shipwrecked.update), and the per-level figure end_level shows.
 */
module Stats {
  import opened Wrappers

  /** Python's `int(x)` on a float: truncation toward zero. */
  function Trunc(x: real): (k: int)
    ensures x >= 0.0 ==> k as real <= x < k as real + 1.0
    ensures x < 0.0 ==> k as real - 1.0 < x <= k as real
  {
    if x >= 0.0 then x.Floor else -((-x).Floor)
  }

  /** `int(q * 10) / 10`: `q` cut to one decimal, toward zero. */
  function OneDecimal(q: real): real
  {
    Trunc(q * 10.0) as real / 10.0
  }

  /** For a non-negative rate, one-decimal truncation is a multiple of 0.1 at most 0.1 below it. */
  lemma OneDecimalBounds(q: real)
    requires q >= 0.0
    ensures 0.0 <= OneDecimal(q) <= q < OneDecimal(q) + 0.1
    ensures OneDecimal(q) * 10.0 == (OneDecimal(q) * 10.0).Floor as real
  {
    var k := Trunc(q * 10.0);
    assert k as real / 10.0 * 10.0 == k as real;
  }

  /**
   * The average words per minute over the levels played: words * 60 / seconds cut to one
   * decimal, and 0 while no time has been logged (the ZeroDivisionError branch).
   */
  function AvgWpm(totalWords: int, totalTime: real): real
  {
    if totalTime == 0.0 then 0.0 else OneDecimal(totalWords as real * 60.0 / totalTime)
  }

  lemma AvgWpmBounds(totalWords: nat, totalTime: real)
    requires totalTime >= 0.0
    ensures totalTime == 0.0 ==> AvgWpm(totalWords, totalTime) == 0.0
    ensures totalTime > 0.0 ==>
      var exact := totalWords as real * 60.0 / totalTime;
      0.0 <= AvgWpm(totalWords, totalTime) <= exact < AvgWpm(totalWords, totalTime) + 0.1
    ensures AvgWpm(totalWords, totalTime) * 10.0 == (AvgWpm(totalWords, totalTime) * 10.0).Floor as real
  {
    if totalTime > 0.0 {
      var exact := totalWords as real * 60.0 / totalTime;
      assert exact >= 0.0 by { PositiveQuotient(totalWords as real * 60.0, totalTime); }
      OneDecimalBounds(exact);
    }
  }

  lemma PositiveQuotient(a: real, b: real)
    requires a >= 0.0 && b > 0.0
    ensures a / b >= 0.0
  {
    assert a / b * b == a;
  }

  /**
   * The words per minute shown at the end of a level: the same one-decimal figure, with no
   * guard, so a zero time is a ZeroDivisionError (`None`).
   */
  function LevelWpm(correct: nat, time: real): (r: Option<real>)
    ensures r.None? <==> time == 0.0
  {
    if time == 0.0 then None else Some(OneDecimal(correct as real * 60.0 / time))
  }

  /** After the first level, the session average equals the figure that level showed. */
  lemma FirstLevelAverage(correct: nat, time: real)
    requires time > 0.0
    ensures LevelWpm(correct, time) == Some(AvgWpm(0 + correct, 0.0 + time))
  {
  }

  /**
   * The pace bottles are admitted at: the level's word count, raised to the player's
   * average when that is higher.
   */
  function TargetWpm(bottleCount: nat, avg: real): (w: real)
    ensures w >= bottleCount as real && w >= avg
    ensures w == bottleCount as real || w == avg
  {
    if (bottleCount as real) < avg then avg else bottleCount as real
  }

  /** `wpm + wpm // 10 - 1`, Python's floor division on the (float or int) pace. */
  function Denominator(wpm: real): real
  {
    wpm + (wpm / 10.0).Floor as real - 1.0
  }

  /** Seconds between admissions, `60 / (wpm + wpm // 10 - 1)`; `None` where that divides by zero. */
  function SpawnInterval(wpm: real): Option<real>
  {
    if Denominator(wpm) == 0.0 then None else Some(60.0 / Denominator(wpm))
  }

  /** At 20 words per minute a bottle is admitted every 60/21 seconds. */
  lemma TwentyWpmInterval()
    ensures SpawnInterval(20.0) == Some(60.0 / 21.0)
  {
    assert (20.0 / 10.0).Floor == 2;
  }

  /** A pace above one word per minute has a positive interval. */
  lemma {:induction false} IntervalPositive(wpm: real)
    requires wpm > 1.0
    ensures SpawnInterval(wpm).Some? && SpawnInterval(wpm).value > 0.0
  {
    assert (wpm / 10.0).Floor >= 0;
    PositiveQuotient(60.0, Denominator(wpm));
    assert 60.0 / Denominator(wpm) != 0.0 by {
      assert 60.0 / Denominator(wpm) * Denominator(wpm) == 60.0;
    }
  }

  /** A faster pace never admits bottles more slowly. */
  lemma {:induction false} IntervalShrinks(w1: real, w2: real)
    requires 1.0 < w1 <= w2
    ensures SpawnInterval(w2).Some? && SpawnInterval(w1).Some?
    ensures SpawnInterval(w2).value <= SpawnInterval(w1).value
  {
    IntervalPositive(w1);
    IntervalPositive(w2);
    assert (w1 / 10.0).Floor <= (w2 / 10.0).Floor by {
      assert w1 / 10.0 <= w2 / 10.0;
    }
    var d1, d2 := Denominator(w1), Denominator(w2);
    assert 0.0 < d1 <= d2;
    var i1, i2 := 60.0 / d1, 60.0 / d2;
    assert i1 * d1 == 60.0 && i2 * d2 == 60.0;
    assert i1 * d2 >= i1 * d1 by {
      assert i1 * (d2 - d1) >= 0.0;
    }
    assert i2 * d2 <= i1 * d2;
    assert (i1 - i2) * d2 >= 0.0;
  }

  /**
   * The admission test of the game's update on a running game: more than the interval has
   * passed since the last admission at `since`, with `save` seconds banked across pauses.
   * `None` where the interval divides by zero.
   */
  function AdmissionDue(since: real, save: real, wpm: real, now: real): Option<bool>
  {
    match SpawnInterval(wpm)
    case None => None
    case Some(interval) => Some(now - since + save > interval)
  }

  /** Right after an admission nothing is due, at any pace above one word per minute. */
  lemma JustAdmittedNotDue(wpm: real, now: real)
    requires wpm > 1.0
    ensures AdmissionDue(now, 0.0, wpm, now) == Some(false)
  {
    IntervalPositive(wpm);
  }

  /** Once a full interval has run on the admission clock, the next admission is due. */
  lemma DueAfterInterval(since: real, save: real, wpm: real, now: real)
    requires wpm > 1.0 && save >= 0.0
    requires now > since + 60.0 / Denominator(wpm)
    ensures AdmissionDue(since, save, wpm, now) == Some(true)
  {
    IntervalPositive(wpm);
  }

  /** An admission that is due stays due as time passes. */
  lemma DueStaysDue(since: real, save: real, wpm: real, t1: real, t2: real)
    requires t1 <= t2 && AdmissionDue(since, save, wpm, t1) == Some(true)
    ensures AdmissionDue(since, save, wpm, t2) == Some(true)
  {
  }
}
