/**
 ULE's priority arithmetic: a thread's history of running and sleeping, its sliding tick
 count, and the score and priority computed from them.  Words are the machine's: run and sleep
 times wrap at 2^32, and so do the differences of tick counters.
 */
module Priority {
  import opened Prelude
  import opened Arith

  const TWO32: nat := 0x1_0000_0000
  const SHIFT: nat := 1024

  // Priorities of FreeBSD 11.2 (sys/priority.h), and the ranges the scheduler makes of them.
  const PRI_MIN_TIMESHARE := 120
  const PRI_MAX_TIMESHARE := 223
  const PRIO_MIN := -20
  const PRIO_MAX := 20
  const NRESV := PRIO_MAX - PRIO_MIN
  const INTERACT_RANGE := (PRI_MAX_TIMESHARE - PRI_MIN_TIMESHARE + 1 - NRESV) / 2
  const PRI_MIN_INTERACT := PRI_MIN_TIMESHARE
  const PRI_MAX_INTERACT := PRI_MIN_TIMESHARE + INTERACT_RANGE - 1
  const PRI_MIN_BATCH := PRI_MIN_TIMESHARE + INTERACT_RANGE
  const PRI_MAX_BATCH := PRI_MAX_TIMESHARE
  const SCHED_PRI_MIN := PRI_MIN_BATCH + NRESV / 2
  const SCHED_PRI_MAX := PRI_MAX_BATCH - NRESV / 2
  const SCHED_PRI_RANGE: nat := SCHED_PRI_MAX - SCHED_PRI_MIN + 1
  const INTERACT_HALF: nat := 50

  /** Clock rates for which the scaled constants fit the machine's int. */
  predicate ClockOk(hz: nat) {
    2 <= hz <= 190000
  }

  function TickTarg(hz: nat): nat {
    hz * 10
  }

  function TickMax(hz: nat): nat {
    TickTarg(hz) + hz
  }

  function SlpRunMax(hz: nat): nat {
    hz * 5 * SHIFT
  }

  function SlpRunFork(hz: nat): nat {
    (hz / 2) * SHIFT
  }

  // ----- interactivity -----

  /** Run and sleep times. */
  datatype Times = Times(run: nat, slp: nat)

  /** sched_interact_score. */
  function Score(t: Times, interact: int): (score: int)
    ensures 0 <= score <= 100
  {
    if interact <= INTERACT_HALF && t.run >= t.slp then INTERACT_HALF
    else if t.run > t.slp then
      var div := Max(1, t.run / INTERACT_HALF);
      ShareIsSmall(t.slp, t.run);
      INTERACT_HALF + (INTERACT_HALF - t.slp / div)
    else if t.slp > t.run then
      var div := Max(1, t.slp / INTERACT_HALF);
      ShareIsSmall(t.run, t.slp);
      t.run / div
    else if t.run != 0 then INTERACT_HALF
    else 0
  }

  /** The smaller time, divided by a fiftieth of the larger, is less than a hundred. */
  lemma ShareIsSmall(small: nat, large: nat)
    requires small < large
    ensures small / Max(1, large / INTERACT_HALF) < 100
  {
    var k, r := Quotient(large, INTERACT_HALF);
    if k > 0 {
      var q, s := Quotient(small, k);
      if q >= 100 {
        MulMono(100, q, k);
      }
    }
  }

  /** A thread that slept longer than it ran scores at most half exactly when it ran less than 51 fiftieths of that. */
  lemma SleeperScoresLowIff(t: Times, interact: int)
    requires t.slp > t.run
    ensures Score(t, interact) <= INTERACT_HALF <==> t.run < 51 * Max(1, t.slp / INTERACT_HALF)
  {
    AtMostFifty(t.run, Max(1, t.slp / INTERACT_HALF));
  }

  lemma AtMostFifty(a: nat, d: nat)
    requires d > 0
    ensures a / d <= 50 <==> a < 51 * d
  {
    var q, r := Quotient(a, d);
    if q <= 50 {
      MulMono(q, 50, d);
    } else {
      MulMono(51, q, d);
    }
  }

  /**
   Within a first moment the division by fifty rounds the sleep time down to nothing, and a sleeper
   scores nearly 100.
   */
  lemma ShortSleeperScoresHigh()
    ensures Score(Times(98, 99), 30) == 98
  {
  }

  /** sched_interact_update, on machine words. */
  function Throttled(t: Times, hz: nat): Times {
    var sum := (t.run + t.slp) % TWO32;
    var top := SlpRunMax(hz);
    if sum < top then t
    else if sum > top * 2 then
      if t.run > t.slp then Times(top, 1) else Times(1, top)
    else if sum > (top / 5) * 6 then Times(t.run / 2, t.slp / 2)
    else Times((t.run / 5) * 4, (t.slp / 5) * 4)
  }

  /**
   The history is brought back into bounds exactly when the sum of run and sleep time did not
   wrap round, or wrapped so far that it still looks far too big.
   */
  lemma ThrottledIff(t: Times, hz: nat)
    requires ClockOk(hz) && t.run < TWO32 && t.slp < TWO32
    ensures Throttled(t, hz).run + Throttled(t, hz).slp <= SlpRunMax(hz) + 1
       <==> t.run + t.slp < TWO32 || t.run + t.slp - TWO32 > 2 * SlpRunMax(hz)
  {
  }

  /** Throttling never turns a thread that mostly ran into one that mostly slept, or the reverse. */
  lemma ThrottledKeepsOrder(t: Times, hz: nat)
    requires ClockOk(hz)
    ensures t.run > t.slp ==> Throttled(t, hz).run >= Throttled(t, hz).slp
    ensures t.slp > t.run ==> Throttled(t, hz).slp >= Throttled(t, hz).run
  {
  }

  /** A history so far beyond 2^32 that its sum wraps round to little is left as it is. */
  lemma WrappedIsNotThrottled(hz: nat)
    requires ClockOk(hz)
    ensures var t := Times(0xFFFF_FFFF, 1);
            Throttled(t, hz) == t && t.run + t.slp > SlpRunMax(hz) + 1
  {
  }

  /** A 32-bit word read as a signed int. */
  function Signed(w: nat): int {
    if w % TWO32 < 0x8000_0000 then w % TWO32 else w % TWO32 - TWO32
  }

  /** Both times divided. */
  function Divided(t: Times, ratio: nat): Times
    requires ratio > 0
  {
    Times(t.run / ratio, t.slp / ratio)
  }

  function Ratio(sum: int, limit: nat): (r: nat)
    requires 0 < limit < sum
    ensures r > 0
  {
    RatioPositive(sum, limit);
    sum / limit
  }

  /** sched_interact_fork: the sum of the two words is kept in an int. */
  function Inherited(t: Times, hz: nat): Times
    requires SlpRunFork(hz) > 0
  {
    var sum := Signed(t.run + t.slp);
    if sum > SlpRunFork(hz) then Divided(t, Ratio(sum, SlpRunFork(hz))) else t
  }

  lemma RatioPositive(sum: nat, d: nat)
    requires 0 < d < sum
    ensures sum / d > 0
  {
    var q, r := Quotient(sum, d);
  }

  lemma SumOfQuotients(a: nat, b: nat, d: nat, k: nat)
    requires d > 0 && k > 0 && a + b < (k + 1) * d
    ensures a / k + b / k < 2 * d
  {
    var p, r := Quotient(a, k);
    var q, s := Quotient(b, k);
    assert (p + q) * k == p * k + q * k;
    assert 2 * d * k == d * k + d * k;
    assert (k + 1) * d == k * d + d;
    MulMono(1, k, d);
    if p + q >= 2 * d {
      MulMono(2 * d, p + q, k);
    }
  }

  /** Quotients of a sum at least three times `k * d` stay at least twice `d`. */
  lemma LargeQuotients(a: nat, b: nat, d: nat, k: nat)
    requires d >= 2 && k > 0 && a + b >= 3 * (k * d)
    ensures a / k + b / k >= 2 * d
  {
    var p, r := Quotient(a, k);
    var q, s := Quotient(b, k);
    assert (p + q + 2) * k == p * k + q * k + 2 * k;
    assert 3 * (k * d) == (3 * d) * k;
    if p + q + 2 <= 3 * d {
      MulMono(p + q + 2, 3 * d, k);
    }
  }

  /**
   A child starts with less than twice the fork limit of history exactly when the parent's sum
   fits an int; beyond, the sum is negative and nothing is scaled, or has wrapped round and too
   little is.
   */
  lemma InheritedIff(t: Times, hz: nat)
    requires ClockOk(hz) && t.run < TWO32 && t.slp < TWO32
    ensures SlpRunFork(hz) > 0
    ensures Inherited(t, hz).run + Inherited(t, hz).slp < 2 * SlpRunFork(hz) <==> t.run + t.slp < 0x8000_0000
  {
    var d, sum := SlpRunFork(hz), Signed(t.run + t.slp);
    if sum > d {
      var q, r := Quotient(sum, d);
      RatioPositive(sum, d);
      MulNext(q, d);
      if t.run + t.slp < 0x8000_0000 {
        SumOfQuotients(t.run, t.slp, d, q);
      } else {
        LargeQuotients(t.run, t.slp, d, q);
      }
    }
  }

  /** A history of 2^31 is handed on whole. */
  lemma LongSleeperHandsOnAll(hz: nat)
    requires ClockOk(hz)
    ensures SlpRunFork(hz) > 0 && Inherited(Times(0, 0x8000_0000), hz) == Times(0, 0x8000_0000)
  {
  }

  // ----- the sliding tick count -----

  /** ts_ticks and the distance from ts_ftick to ts_ltick. */
  datatype Count = Count(ticks: nat, span: nat)

  /** What the count is kept to: no more ticks than the span it covers, and a span short of the maximum. */
  predicate Bounded(c: Count, hz: nat) {
    c.ticks <= c.span * SHIFT && c.span < TickMax(hz)
  }

  /** The ticks of a span, spread over what is left of it. */
  function Rescaled(ticks: nat, span: nat, left: nat): nat
    requires span > 0
  {
    (ticks / span) * left
  }

  /** sched_pctcpu_update, `since` ticks (modulo 2^32) after the last one. */
  function Updated(c: Count, since: nat, run: bool, hz: nat): Count {
    var ran := if run then since * SHIFT else 0;
    if since >= TickTarg(hz) then Count(ran, TickTarg(hz))
    else if since + c.span >= TickMax(hz) then
      Count(Rescaled(c.ticks, c.span, TickTarg(hz) - since) + ran, TickTarg(hz))
    else Count(c.ticks + ran, c.span + since)
  }

  lemma ScaledDown(ticks: nat, span: nat, left: nat)
    requires 0 < span && ticks <= span * SHIFT
    ensures Rescaled(ticks, span, left) <= left * SHIFT
  {
    var q, r := Quotient(ticks, span);
    if q > SHIFT {
      MulMono(SHIFT + 1, q, span);
    }
    MulMono(q, SHIFT, left);
  }

  /**
   The count stays bounded exactly when a running thread is updated no later than the target
   number of ticks after the last time.
   */
  lemma UpdatedIff(c: Count, since: nat, run: bool, hz: nat)
    requires ClockOk(hz) && Bounded(c, hz)
    ensures Bounded(Updated(c, since, run, hz), hz) <==> !run || since <= TickTarg(hz)
  {
    if since < TickTarg(hz) && since + c.span >= TickMax(hz) {
      ScaledDown(c.ticks, c.span, TickTarg(hz) - since);
    }
  }

  /** A thread running for longer than the target without an update is charged all of it. */
  lemma LateUpdateOutgrows(hz: nat)
    requires ClockOk(hz)
    ensures var c := Updated(Count(0, 0), TickTarg(hz) + 1, true, hz);
            c == Count((TickTarg(hz) + 1) * SHIFT, TickTarg(hz)) && !Bounded(c, hz)
  {
  }

  /** Whatever the ticks, the span stays short of its maximum, so the division is never by 0. */
  lemma SpanStaysShort(c: Count, since: nat, run: bool, hz: nat)
    requires ClockOk(hz) && c.span < TickMax(hz)
    ensures Updated(c, since, run, hz).span < TickMax(hz)
  {
  }

  /** SCHED_PRI_TICKS. */
  function PriTicks(c: Count, hz: nat): nat
    requires hz > 0
  {
    TotalPositive(c, hz);
    (c.ticks / SHIFT) / Total(c, hz)
  }

  /** roundup(x, d) / d. */
  function RoundedUp(x: nat, d: nat): nat
    requires d > 0
  {
    ((x + (d - 1)) / d * d) / d
  }

  lemma RoundedUpIs(x: nat, d: nat)
    requires d > 0
    ensures RoundedUp(x, d) * d >= x && (x > 0 ==> RoundedUp(x, d) > 0)
  {
    var q, r := Quotient(x + (d - 1), d);
    DivUnique(q * d, q, 0, d);
  }

  /** The divisor of SCHED_PRI_TICKS. */
  function Total(c: Count, hz: nat): nat {
    RoundedUp(Max(c.span, hz), SCHED_PRI_RANGE)
  }

  lemma TotalPositive(c: Count, hz: nat)
    requires hz > 0
    ensures Total(c, hz) > 0 && Total(c, hz) * SCHED_PRI_RANGE >= c.span
  {
    hide RoundedUp;
    RoundedUpIs(Max(c.span, hz), SCHED_PRI_RANGE);
  }

  /** A bounded count gives at most the whole range of priorities. */
  lemma PriTicksInRange(c: Count, hz: nat)
    requires ClockOk(hz) && Bounded(c, hz)
    ensures PriTicks(c, hz) <= SCHED_PRI_RANGE
  {
    hide Total;
    TotalPositive(c, hz);
    ShareOfRange(c.ticks / SHIFT, Total(c, hz));
  }

  lemma ShareOfRange(x: nat, d: nat)
    requires d > 0 && x <= d * SCHED_PRI_RANGE
    ensures x / d <= SCHED_PRI_RANGE
  {
    var q, r := Quotient(x, d);
    MulMono(if q > SCHED_PRI_RANGE then SCHED_PRI_RANGE + 1 else q, q, d);
  }

  // ----- the priority -----

  /** sched_priority of a timeshare thread. */
  function UserPriority(t: Times, c: Count, nice: int, interact: int, hz: nat): int
    requires hz > 0
  {
    var score := Max(0, Score(t, interact) + nice);
    if score < interact then PRI_MIN_INTERACT + ((PRI_MAX_INTERACT - PRI_MIN_INTERACT + 1) / interact) * score
    else SCHED_PRI_MIN + (if c.ticks != 0 then Min(PriTicks(c, hz), SCHED_PRI_RANGE - 1) else 0) + nice
  }

  lemma StepFits(range: nat, interact: nat, score: nat)
    requires score < interact && range > 0
    ensures (range / interact) * score < range
  {
    var q, r := Quotient(range, interact);
    MulMono(score, interact - 1, q);
    assert q * (interact - 1) == q * interact - q;
  }

  /** Both assertions hold for every nice value: an interactive priority, or a batch priority, and which is which. */
  lemma PriorityInRange(t: Times, c: Count, nice: int, interact: int, hz: nat)
    requires PRIO_MIN <= nice <= PRIO_MAX && hz > 0
    ensures var pri := UserPriority(t, c, nice, interact, hz);
            if Max(0, Score(t, interact) + nice) < interact then PRI_MIN_INTERACT <= pri <= PRI_MAX_INTERACT
            else PRI_MIN_BATCH <= pri <= PRI_MAX_BATCH
  {
    hide Score, PriTicks;
    var score := Max(0, Score(t, interact) + nice);
    if score < interact {
      StepFits(PRI_MAX_INTERACT - PRI_MIN_INTERACT + 1, interact, score);
    }
  }

  /** A thread that ran at least as long as it slept is interactive only by a negative nice value. */
  lemma RunnersAreBatch(t: Times, c: Count, nice: int, hz: nat)
    requires t.run >= t.slp && 0 <= nice <= PRIO_MAX && hz > 0
    ensures UserPriority(t, c, nice, 30, hz) >= PRI_MIN_BATCH
  {
    PriorityInRange(t, c, nice, 30, hz);
  }

  // ----- machine words -----

  function Sub32(a: nat, b: nat): nat {
    (a - b) % TWO32
  }

  predicate Word(a: nat) {
    a < TWO32
  }

  /** Distances add up, while they fit a word. */
  lemma SubAdds(a: nat, b: nat, c: nat)
    requires Word(a) && Word(b) && Word(c) && Sub32(a, b) + Sub32(b, c) < TWO32
    ensures Sub32(a, c) == Sub32(a, b) + Sub32(b, c)
  {
  }

  lemma SubBack(a: nat, k: nat)
    requires Word(a) && Word(k)
    ensures Word(Sub32(a, k)) && Sub32(a, Sub32(a, k)) == k
  {
  }

  class History {
    const hz: nat
    var run: nat
    var slp: nat
    var ticks: nat
    var ftick: nat
    var ltick: nat

    constructor (hz: nat, now: nat)
      ensures this.hz == hz && Span() == Count(0, 0) && TimesNow() == Times(0, 0) && ltick == now
    {
      this.hz := hz;
      run, slp, ticks, ftick, ltick := 0, 0, 0, now, now;
    }

    function TimesNow(): Times
      reads this
    {
      Times(run, slp)
    }

    function Span(): Count
      reads this
    {
      Count(ticks, Sub32(ltick, ftick))
    }

    /** sched_interact_update. */
    method InteractUpdate()
      modifies this`run, this`slp
      ensures TimesNow() == Throttled(old(TimesNow()), hz)
    {
      var sum := (run + slp) % TWO32;
      if sum < SlpRunMax(hz) {
        return;
      }
      if sum > SlpRunMax(hz) * 2 {
        if run > slp {
          run := SlpRunMax(hz);
          slp := 1;
        } else {
          slp := SlpRunMax(hz);
          run := 1;
        }
        return;
      }
      if sum > (SlpRunMax(hz) / 5) * 6 {
        run := run / 2;
        slp := slp / 2;
        return;
      }
      run := (run / 5) * 4;
      slp := (slp / 5) * 4;
    }

    /** sched_interact_fork. */
    method InteractFork()
      requires SlpRunFork(hz) > 0
      modifies this`run, this`slp
      ensures TimesNow() == Inherited(old(TimesNow()), hz)
    {
      hide Ratio, Signed, SlpRunFork;
      var sum := Signed(run + slp);
      if sum > SlpRunFork(hz) {
        var ratio := Ratio(sum, SlpRunFork(hz));
        run := run / ratio;
        slp := slp / ratio;
      }
    }

    /** sched_pctcpu_update at tick `t`. */
    method PctcpuUpdate(t: nat, running: bool)
      requires ClockOk(hz) && Word(t) && Word(ftick) && Word(ltick) && Span().span < TickMax(hz)
      modifies this`ticks, this`ftick, this`ltick
      ensures ltick == t && Word(ftick) && Span().span < TickMax(hz)
      ensures Span() == Updated(old(Span()), Sub32(t, old(ltick)), running, hz)
    {
      hide Sub32, Rescaled;
      var since := Sub32(t, ltick);
      SubBack(t, TickTarg(hz));
      if since >= TickTarg(hz) {
        ticks := 0;
        ftick := Sub32(t, TickTarg(hz));
      } else {
        SubAdds(t, ltick, ftick);
        if Sub32(t, ftick) >= TickMax(hz) {
          LeftOver(t, ltick, TickTarg(hz));
          ticks := Rescaled(ticks, Sub32(ltick, ftick), Sub32(ltick, Sub32(t, TickTarg(hz))));
          ftick := Sub32(t, TickTarg(hz));
        }
      }
      if running {
        ticks := ticks + since * SHIFT;
      }
      ltick := t;
    }

    /** The priority sched_priority gives a timeshare thread. */
    method UserPri(nice: int, interact: int) returns (pri: int)
      requires ClockOk(hz) && PRIO_MIN <= nice <= PRIO_MAX
      ensures pri == UserPriority(TimesNow(), Span(), nice, interact, hz)
      ensures PRI_MIN_INTERACT <= pri <= PRI_MAX_INTERACT || PRI_MIN_BATCH <= pri <= PRI_MAX_BATCH
    {
      var score := Max(0, Score(TimesNow(), interact) + nice);
      PriorityInRange(TimesNow(), Span(), nice, interact, hz);
      if score < interact {
        pri := PRI_MIN_INTERACT;
        pri := pri + ((PRI_MAX_INTERACT - PRI_MIN_INTERACT + 1) / interact) * score;
      } else {
        pri := SCHED_PRI_MIN;
        if ticks != 0 {
          pri := pri + Min(PriTicks(Span(), hz), SCHED_PRI_RANGE - 1);
        }
        pri := pri + nice;
      }
    }
  }

  lemma LeftOver(t: nat, l: nat, k: nat)
    requires Word(t) && Word(l) && Word(k) && Sub32(t, l) <= k
    ensures Sub32(l, Sub32(t, k)) == k - Sub32(t, l)
  {
  }
}
