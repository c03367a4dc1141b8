/**
 What the priority arithmetic computes, told without its divisions: the score as a share, what
 throttling and forking keep of a history, how ticks fade, and how priority follows niceness,
 use and score.
 */
module PriorityLaws {
  import opened Prelude
  import opened Arith
  import opened Priority

  // ----- the score -----

  /** `part` is what is left of `x` when it is counted in units of `d`. */
  predicate CountsIn(part: int, x: nat, d: nat) {
    part * d <= x < (part + 1) * d
  }

  lemma QuotientCounts(x: nat, d: nat)
    requires d > 0
    ensures CountsIn(x / d, x, d)
  {
    var q, r := Arith.Quotient(x, d);
    MulNext(q, d);
  }

  /** A fiftieth of a time, rounded down, but not nothing. */
  predicate Fiftieth(d: nat, x: nat) {
    if x < 50 then d == 1 else CountsIn(d, x, 50)
  }

  lemma FiftiethIs(x: nat)
    ensures Fiftieth(Max(1, x / 50), x)
  {
  }

  /** A sleeper scores what it ran, in fiftieths of what it slept. */
  lemma SleeperScore(t: Times, interact: int) returns (d: nat)
    requires t.slp > t.run
    ensures Fiftieth(d, t.slp) && CountsIn(Score(t, interact), t.run, d)
  {
    d := Max(1, t.slp / 50);
    FiftiethIs(t.slp);
    QuotientCounts(t.run, d);
  }

  /**
   A runner scores half when the threshold is half or less, and else a hundred less what it
   slept in fiftieths of what it ran.
   */
  lemma RunnerScore(t: Times, interact: int) returns (d: nat)
    requires t.run > t.slp
    ensures interact <= 50 ==> Score(t, interact) == 50
    ensures interact > 50 ==> Fiftieth(d, t.run) && CountsIn(100 - Score(t, interact), t.slp, d)
  {
    d := Max(1, t.run / 50);
    FiftiethIs(t.run);
    QuotientCounts(t.slp, d);
  }

  /** A thread that ran and slept alike scores half, unless it has done neither and the threshold is above half. */
  lemma EvenScore(n: nat, interact: int)
    ensures Score(Times(n, n), interact) == if n > 0 || interact <= 50 then 50 else 0
  {
  }

  // ----- throttling -----

  /** The five seconds of history that are kept, in the units of the times. */
  function Kept(hz: nat): nat { 5 * 1024 * hz }

  lemma KeptIs(hz: nat)
    ensures SlpRunMax(hz) == Kept(hz) && (SlpRunMax(hz) / 5) * 6 * 5 == 6 * Kept(hz)
  {
    DivUnique(SlpRunMax(hz), 1024 * hz, 0, 5);
  }

  /** A short history is left alone; one more than twice too long is cut to its larger part. */
  lemma ThrottlesExtremes(t: Times, hz: nat)
    requires ClockOk(hz) && t.run + t.slp < TWO32
    ensures t.run + t.slp < Kept(hz) ==> Throttled(t, hz) == t
    ensures t.run + t.slp > 2 * Kept(hz)
            ==> Throttled(t, hz) == if t.run > t.slp then Times(Kept(hz), 1) else Times(1, Kept(hz))
  {
    KeptIs(hz);
  }

  /** A time has lost a fifth, up to a few units, or half. */
  predicate LostAFifth(now: nat, was: nat) {
    5 * now <= 4 * was < 5 * now + 20
  }

  predicate LostHalf(now: nat, was: nat) {
    2 * now <= was < 2 * now + 2
  }

  /** One in between loses the same share of both times: half when it is more than a fifth too long, else a fifth. */
  lemma ThrottlesEvenly(t: Times, hz: nat)
    requires ClockOk(hz) && t.run + t.slp < TWO32 && Kept(hz) <= t.run + t.slp <= 2 * Kept(hz)
    ensures var s := Throttled(t, hz);
            if 5 * (t.run + t.slp) > 6 * Kept(hz) then LostHalf(s.run, t.run) && LostHalf(s.slp, t.slp)
            else LostAFifth(s.run, t.run) && LostAFifth(s.slp, t.slp)
  {
    KeptIs(hz);
  }

  // ----- forking -----

  /** A child gets its parent's times in units of how many times too long the parent's history is. */
  lemma InheritsShare(t: Times, hz: nat) returns (ratio: nat)
    requires ClockOk(hz) && t.run + t.slp < 0x8000_0000
    ensures SlpRunFork(hz) > 0
    ensures t.run + t.slp <= SlpRunFork(hz) ==> Inherited(t, hz) == t
    ensures t.run + t.slp > SlpRunFork(hz)
            ==> && CountsIn(ratio, t.run + t.slp, SlpRunFork(hz)) && ratio > 0
                && CountsIn(Inherited(t, hz).run, t.run, ratio) && CountsIn(Inherited(t, hz).slp, t.slp, ratio)
  {
    hide CountsIn, SlpRunFork, Ratio;
    ratio := 0;
    var sum, d := t.run + t.slp, SlpRunFork(hz);
    ForkLimitPositive(hz);
    IntSum(sum);
    if sum > d {
      ratio := Ratio(sum, d);
      RatioCounts(sum, d);
      QuotientCounts(t.run, ratio);
      QuotientCounts(t.slp, ratio);
    }
  }

  lemma ForkLimitPositive(hz: nat)
    requires ClockOk(hz)
    ensures SlpRunFork(hz) > 0
  {
  }

  lemma IntSum(sum: nat)
    requires sum < 0x8000_0000
    ensures Signed(sum) == sum
  {
  }

  lemma RatioCounts(sum: nat, d: nat)
    requires 0 < d < sum
    ensures CountsIn(Ratio(sum, d), sum, d)
  {
    QuotientCounts(sum, d);
  }

  /** Half a second of history, in the units of the times. */
  lemma ForkLimitIs(hz: nat)
    ensures CountsIn(SlpRunFork(hz) / 1024, hz, 2) && SlpRunFork(hz) % 1024 == 0
  {
    DivUnique(SlpRunFork(hz), hz / 2, 0, 1024);
  }

  // ----- ticks -----

  /** While its span fits eleven seconds a count keeps all its ticks, and a running thread gains those that went by. */
  lemma TicksGrow(c: Count, since: nat, run: bool, hz: nat)
    requires ClockOk(hz) && since < 10 * hz && since + c.span < 11 * hz
    ensures Updated(c, since, run, hz) == Count(c.ticks + (if run then 1024 * since else 0), c.span + since)
  {
  }

  /**
   When it does not, the old ticks are spread over what is left of ten seconds, losing less than
   that for rounding, and the span is ten seconds again.
   */
  lemma TicksFade(c: Count, since: nat, hz: nat)
    requires ClockOk(hz) && c.span > 0 && since < 10 * hz && since + c.span >= 11 * hz
    ensures var s, left := Updated(c, since, false, hz), 10 * hz - since;
            && s.span == 10 * hz
            && s.ticks * c.span <= c.ticks * left < (s.ticks + left) * c.span
            && Updated(c, since, true, hz) == Count(s.ticks + 1024 * since, 10 * hz)
  {
    var left := 10 * hz - since;
    var q, r := Arith.Quotient(c.ticks, c.span);
    Spread(q, r, c.span, left, c.ticks);
  }

  lemma Spread(q: nat, r: nat, span: nat, left: nat, ticks: nat)
    requires ticks == q * span + r && r < span && left > 0
    ensures (q * left) * span <= ticks * left < (q * left + left) * span
  {
    assert ticks * left == (q * left) * span + r * left;
    assert r * left < span * left;
  }

  /** After ten seconds or more all that went before is forgotten. */
  lemma TicksForgotten(c: Count, since: nat, run: bool, hz: nat)
    requires ClockOk(hz) && since >= 10 * hz
    ensures Updated(c, since, run, hz) == Count(if run then 1024 * since else 0, 10 * hz)
  {
  }

  /** The share of the priority range that use takes: ticks in units of a 32nd of the span, rounded up. */
  lemma UseCounts(c: Count, hz: nat) returns (d: nat)
    requires ClockOk(hz)
    ensures d > 0 && (d - 1) * 32 < Max(c.span, hz) <= d * 32
    ensures exists n: nat :: CountsIn(n, c.ticks, 1024) && CountsIn(PriTicks(c, hz), n, d)
  {
    d := Total(c, hz);
    TotalPositive(c, hz);
    RoundsUp(Max(c.span, hz));
    QuotientCounts(c.ticks, 1024);
    QuotientCounts(c.ticks / 1024, d);
  }

  lemma RoundsUp(x: nat)
    requires x > 0
    ensures (RoundedUp(x, SCHED_PRI_RANGE) - 1) * 32 < x <= RoundedUp(x, SCHED_PRI_RANGE) * 32
  {
  }

  // ----- the priority -----

  /** In the batch range a point of niceness is a point of priority, and use adds the rest, up to 31. */
  lemma BatchPriority(t: Times, c: Count, nice: int, interact: int, hz: nat)
    requires -20 <= nice <= 20 && ClockOk(hz) && Max(0, Score(t, interact) + nice) >= interact
    ensures UserPriority(t, c, nice, interact, hz)
            == 172 + nice + (if c.ticks == 0 then 0 else if PriTicks(c, hz) < 31 then PriTicks(c, hz) else 31)
  {
    hide Score, PriTicks;
  }

  /** The priorities between two interactive scores. */
  function Step(interact: int): nat
    requires interact > 0
  {
    32 / interact
  }

  /** In the interactive range the score, counted with the niceness, is all that matters. */
  lemma InteractiveSteps(t: Times, c: Count, nice: int, interact: int, hz: nat)
    requires -20 <= nice <= 20 && ClockOk(hz) && Max(0, Score(t, interact) + nice) < interact
    ensures UserPriority(t, c, nice, interact, hz) == 120 + Step(interact) * Max(0, Score(t, interact) + nice)
  {
    hide Score, PriTicks;
  }

  /** At the default threshold of 30 an interactive thread's priority is 120 and that score. */
  lemma InteractivePriority(t: Times, c: Count, nice: int, hz: nat)
    requires -20 <= nice <= 20 && ClockOk(hz) && Max(0, Score(t, 30) + nice) < 30
    ensures UserPriority(t, c, nice, 30, hz) == 120 + Max(0, Score(t, 30) + nice)
  {
    hide Score, PriTicks, UserPriority;
    InteractiveSteps(t, c, nice, 30, hz);
    assert Step(30) == 1;
  }

  /** A nicer thread never gets a better priority. */
  lemma NicerIsNoBetter(t: Times, c: Count, nice: int, nicer: int, interact: int, hz: nat)
    requires -20 <= nice <= nicer <= 20 && ClockOk(hz)
    ensures UserPriority(t, c, nice, interact, hz) <= UserPriority(t, c, nicer, interact, hz)
  {
    hide Score, PriTicks, UserPriority, Step;
    PriorityInRange(t, c, nice, interact, hz);
    PriorityInRange(t, c, nicer, interact, hz);
    var a, b := Max(0, Score(t, interact) + nice), Max(0, Score(t, interact) + nicer);
    if b < interact {
      InteractiveSteps(t, c, nice, interact, hz);
      InteractiveSteps(t, c, nicer, interact, hz);
      MulMono(a, b, Step(interact));
    } else {
      BatchPriority(t, c, nicer, interact, hz);
      if a >= interact {
        BatchPriority(t, c, nice, interact, hz);
      }
    }
  }

  /** More use of the CPU over the same span never gets a batch thread a better priority. */
  lemma UseIsNoBetter(t: Times, c: Count, more: nat, nice: int, interact: int, hz: nat)
    requires -20 <= nice <= 20 && ClockOk(hz) && more >= c.ticks
    ensures UserPriority(t, c, nice, interact, hz) <= UserPriority(t, Count(more, c.span), nice, interact, hz)
  {
    hide Score, PriTicks;
    MoreTicks(c, more, hz);
  }

  lemma MoreTicks(c: Count, more: nat, hz: nat)
    requires hz > 0 && more >= c.ticks
    ensures PriTicks(c, hz) <= PriTicks(Count(more, c.span), hz)
  {
    hide RoundedUp;
    TotalPositive(c, hz);
    DivMono(c.ticks, more, 1024);
    DivMono(c.ticks / 1024, more / 1024, Total(c, hz));
  }

  lemma DivMono(a: nat, b: nat, d: nat)
    requires a <= b && d > 0
    ensures a / d <= b / d
  {
    QuotientCounts(a, d);
    QuotientCounts(b, d);
    if b / d < a / d {
      MulMono(b / d + 1, a / d, d);
    }
  }
}
