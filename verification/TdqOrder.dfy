/**
 Where the operations on one CPU's queues put a thread, in the numbers of the source, and that
 the calendar turns: clock ticks bring the removal index to whatever slot is next.
 */
module TdqOrder {
  import opened Prelude
  import opened RunQueue
  import opened TdqModel
  import Seqs
  import Lottery

  // ----- adding -----

  /** `td` has joined the end of queue `slot`, or its head, and the other queues are as they were. */
  ghost predicate Joined(was: Queues, now: Queues, slot: int, td: int, atHead: bool) {
    && |was| == |now| == 64 && 0 <= slot < 64
    && now[slot] == (if atHead then [td] + was[slot] else was[slot] + [td])
    && forall q :: 0 <= q < 64 && q != slot ==> now[q] == was[q]
  }

  /** The queue a thread is added to, by its priority and its owner: the other three queues are as they were. */
  ghost predicate Placed(v: Tdq, v': Tdq, td: int, t: Td, flags: Flags) {
    if t.priority < 152 then
      && Joined(v.realtime, v'.realtime, t.priority / 4, td, flags.preempted)
      && v'.timeshare == v.timeshare && v'.lottery == v.lottery && v'.idle == v.idle
    else if t.priority <= 223 && !t.isRoot then
      && Joined(v.lottery, v'.lottery, 0, td, true)
      && v'.realtime == v.realtime && v'.timeshare == v.timeshare && v'.idle == v.idle
    else if t.priority <= 223 then
      && v.ridx < 64 && v'.realtime == v.realtime && v'.lottery == v.lottery && v'.idle == v.idle
      && exists slot: nat :: slot < 64 && Joined(v.timeshare, v'.timeshare, slot, td, flags.preempted)
           && Distance(v.ridx, slot) == if flags.borrowing || flags.preempted then 0 else Wait(v, t.priority)
    else
      && Joined(v.idle, v'.idle, t.priority / 4, td, flags.preempted)
      && v'.realtime == v.realtime && v'.timeshare == v.timeshare && v'.lottery == v.lottery
  }

  /** The other threads are as they were, and this one in all but its place and its queue. */
  ghost predicate SameBut(v: Tdq, v': Tdq, td: int) {
    && v'.threads.Keys == v.threads.Keys && td in v.threads
    && (forall x :: x in v.threads && x != td ==> v'.threads[x] == v.threads[x])
    && var t, t' := v.threads[td], v'.threads[td];
       t'.priority == t.priority && t'.nice == t.nice && t'.canMigrate == t.canMigrate && t'.isRoot == t.isRoot
  }

  /** How many slots an ordinary thread of the batch range waits: its share of 64, one more while the indices differ. */
  function Wait(v: Tdq, priority: int): int {
    var p := 64 * (priority - 152) / 72;
    if v.idx == v.ridx then p else if p < 63 then p + 1 else 63
  }

  /** tdq_runq_add puts a thread where its priority says. */
  lemma AddPlaces(v: Tdq, td: int, flags: Flags)
    requires Shaped(v) && CalendarOk(v.idx, v.ridx, v.timeshare) && td in v.threads && v.threads[td].priority <= 255
    ensures var v' := RunqAdd(v, td, flags); Placed(v, v', td, v.threads[td], flags)
    ensures var v', t := RunqAdd(v, td, flags), v.threads[td];
            && v'.idx == v.idx && v'.ridx == v.ridx && v'.load == v.load
            && v'.transferable == v.transferable + (if t.canMigrate then 1 else 0)
            && SameBut(v, v', td) && v'.threads[td].place == Queued && (t.canMigrate ==> v'.threads[td].xferable)
  {
    hide CalendarSlot, Distance, Wait, SameBut;
    AddSpares(v, td, flags);
    var t := v.threads[td];
    if 152 <= t.priority <= 223 {
      AddDistance(v.idx, v.ridx, t.priority);
      WaitIs(v, t.priority);
      NoDistance(v.ridx);
    }
  }

  lemma AddSpares(v: Tdq, td: int, flags: Flags)
    requires Shaped(v) && td in v.threads && v.threads[td].priority <= 255
    ensures SameBut(v, RunqAdd(v, td, flags), td)
  {
    hide AddTarget, Added;
  }

  lemma WaitIs(v: Tdq, priority: nat)
    requires 152 <= priority <= 223
    ensures Wait(v, priority)
            == if v.idx == v.ridx then Scaled(priority)
               else if Scaled(priority) + 1 < RQ_NQS then Scaled(priority) + 1 else RQ_NQS - 1
  {
  }

  lemma NoDistance(r: nat)
    requires r < RQ_NQS
    ensures Distance(r, r) == 0
  {
  }

  /** Of two added in turn to one queue in the ordinary way, the first stands before the second. */
  lemma FirstStandsFirst(was: Queues, mid: Queues, now: Queues, slot: nat, a: int, b: int)
    requires Joined(was, mid, slot, a, false) && Joined(mid, now, slot, b, false)
    ensures |now[slot]| >= 2 && now[slot][|now[slot]| - 2] == a && now[slot][|now[slot]| - 1] == b
  {
  }

  // ----- removing -----

  /** `td` has left queue `slot`, and all others stand as they stood. */
  ghost predicate Left(was: Queues, now: Queues, slot: int, td: int) {
    && |was| == |now| == 64 && 0 <= slot < 64
    && (exists k :: 0 <= k < |was[slot]| && was[slot][k] == td && now[slot] == was[slot][..k] + was[slot][k + 1..])
    && forall q :: 0 <= q < 64 && q != slot ==> now[q] == was[q]
  }

  /** tdq_runq_rem takes out just the thread, and closes the gap. */
  lemma RemLeaves(v: Tdq, td: int, place: Place)
    requires Shaped(v) && td in v.threads && TdqModel.SlotOf(v.threads[td]) < RQ_NQS
    requires td in RqOf(v, v.threads[td].runq)[TdqModel.SlotOf(v.threads[td])]
    ensures var v', rq := RunqRem(v, td, place), v.threads[td].runq;
            && Left(RqOf(v, rq), RqOf(v', rq), TdqModel.SlotOf(v.threads[td]), td)
            && (forall other :: other != rq ==> RqOf(v', other) == RqOf(v, other))
            && v'.transferable == v.transferable - (if v.threads[td].xferable then 1 else 0)
            && v'.threads[td].place == place && !v'.threads[td].xferable
            && SameBut(v, v', td) && v'.idx == v.idx
               && (CalendarOk(v.idx, v.ridx, v.timeshare) ==> v'.ridx == RidxAfter(v, td, v'))
  {
    hide Seqs.IndexOf;
    var s := RqOf(v, v.threads[td].runq)[TdqModel.SlotOf(v.threads[td])];
    Found(s, td);
    assert Seqs.Remove(s, td) == s[..Seqs.IndexOf(s, td, 0)] + s[Seqs.IndexOf(s, td, 0) + 1..];
  }

  lemma Found(s: seq<int>, td: int)
    requires td in s
    ensures Seqs.IndexOf(s, td, 0) < |s| && s[Seqs.IndexOf(s, td, 0)] == td
  {
    var i :| 0 <= i < |s| && s[i] == td;
    Seqs.IndexFound(s, td, i);
  }

  /** A thread that comes is placed by its priority and counted. */
  lemma ArrivalPlaces(v: Tdq, td: int, t: Td, flags: Flags)
    requires Shaped(v) && CalendarOk(v.idx, v.ridx, v.timeshare) && t.priority <= 255
    ensures var w := Arrived(v, td, t, flags);
            && Placed(v, w, td, t, flags) && w.load == v.load + 1
            && SameBut(v.(threads := v.threads[td := t]), w, td) && w.threads[td].place == Queued
  {
    hide CalendarSlot, Placed, RunqAdd;
    var v0 := v.(threads := v.threads[td := t]);
    AddPlaces(v0, td, flags);
    PlacedThreads(v, v0, RunqAdd(v0, td, flags), td, t, flags);
  }

  lemma PlacedThreads(v: Tdq, v0: Tdq, w: Tdq, td: int, t: Td, flags: Flags)
    requires v0 == v.(threads := v0.threads) && Placed(v0, w, td, t, flags)
    ensures Placed(v, Loaded(w, 1), td, t, flags)
  {
    hide Joined, Distance;
  }

  // ----- the clock -----

  /** `n` clock ticks and nothing else. */
  function Ticks(v: Tdq, n: nat): (v': Tdq)
    requires Shaped(v)
    ensures Shaped(v')
    decreases n
  {
    if n == 0 then v else Ticks(Tick(v), n - 1)
  }

  /** A tick with the indices together and nobody in the slot moves both on; everything else stays. */
  lemma EmptySlotTurns(v: Tdq)
    requires Shaped(v) && v.idx == v.ridx && v.timeshare[v.ridx] == []
    ensures Tick(v) == v.(idx := (v.ridx + 1) % 64, ridx := (v.ridx + 1) % 64)
  {
  }

  /** With somebody in it only the insert index moves, and no further: newcomers go behind those that wait. */
  lemma FullSlotHolds(v: Tdq, n: nat)
    requires Shaped(v) && v.idx == v.ridx && v.timeshare[v.ridx] != [] && n > 0
    ensures Ticks(v, n) == v.(idx := (v.ridx + 1) % 64)
  {
    var w := v.(idx := (v.ridx + 1) % 64);
    assert Tick(v) == w && Tick(w) == w;
    Standstill(w, n - 1);
  }

  lemma {:induction false} Standstill(v: Tdq, n: nat)
    requires Shaped(v) && Tick(v) == v
    ensures Ticks(v, n) == v
  {
    if n > 0 { Standstill(v, n - 1); }
  }

  /**
   The calendar turns: with the slots before it empty, a slot is reached after as many ticks as it
   is away, and then nobody waits nearer.
   */
  lemma {:induction false} CalendarReaches(v: Tdq, slot: nat)
    requires Shaped(v) && v.idx == v.ridx && slot < 64
    requires forall q :: 0 <= q < 64 && Distance(v.ridx, q) < Distance(v.ridx, slot) ==> v.timeshare[q] == []
    ensures Ticks(v, Distance(v.ridx, slot)) == v.(idx := slot, ridx := slot)
    decreases Distance(v.ridx, slot)
  {
    var n := Distance(v.ridx, slot);
    if n > 0 {
      NoDistance(v.ridx);
      EmptySlotTurns(v);
      var w := Tick(v);
      forall q | 0 <= q < 64 ensures q != v.ridx ==> Distance(w.ridx, q) == Distance(v.ridx, q) - 1 {
        if q != v.ridx { OneNearer(v.ridx, q); }
      }
      CalendarReaches(w, slot);
    }
  }

  lemma OneNearer(r: nat, q: nat)
    requires r < 64 && q < 64 && q != r
    ensures Distance((r + 1) % 64, q) == Distance(r, q) - 1
  {
  }

  // ----- a change of priority -----

  /**
   sched_thread_priority: a queued thread of a better priority is taken out and put where a
   borrower of that priority goes; any other thread keeps its place, and either way the priority
   is the new one.
   */
  lemma PriorityMoves(v: Tdq, td: int, priority: nat)
    requires Inv(v) && td in v.threads && priority <= 255 && TdqModel.SlotOf(v.threads[td]) < RQ_NQS
    ensures var v', t := Reprioritised(v, td, priority), v.threads[td];
            && td in v'.threads && v'.threads[td].priority == priority && v'.threads[td].place == t.place
            && (t.place != Queued || priority >= t.priority
                ==> v' == v.(threads := v.threads[td := t.(priority := priority)]))
            && (t.place == Queued && priority < t.priority
                ==> MovedTo(v, td, v', t.(priority := priority)))
  {
    hide Inv, RunqAdd, RunqRem, MovedTo, Shaped, CalendarOk;
    var t := v.threads[td];
    InvParts(v);
    if priority == t.priority {
      assert t == t.(priority := priority);
      assert v.threads == v.threads[td := t];
    } else if t.place == Queued && priority < t.priority {
      BetterMoves(v, td, priority);
    }
  }

  /** The queues once `td` has left them. */
  ghost predicate IsWithout(v: Tdq, td: int, w: Tdq) {
    && td in v.threads && |RqOf(v, v.threads[td].runq)| == 64
    && Left(RqOf(v, v.threads[td].runq), RqOf(w, v.threads[td].runq), TdqModel.SlotOf(v.threads[td]), td)
    && (forall other :: other != v.threads[td].runq ==> RqOf(w, other) == RqOf(v, other))
    && w.idx == v.idx && w.ridx == RidxAfter(v, td, w)
  }

  /** The removal index catches up with the insert index when the last thread of its slot leaves. */
  function RidxAfter(v: Tdq, td: int, w: Tdq): nat
    requires td in v.threads
  {
    var t := v.threads[td];
    if t.runq == Timeshare && t.rqindex == v.ridx && v.ridx < |w.timeshare| && w.timeshare[v.ridx] == [] then v.idx
    else v.ridx
  }

  /** Taken out, and put back as a borrower. */
  ghost predicate MovedTo(v: Tdq, td: int, v': Tdq, t: Td) {
    exists w: Tdq :: IsWithout(v, td, w) && Placed(w, v', td, t, Flags(true, false))
  }

  lemma RemTakesOut(v: Tdq, td: int, place: Place)
    requires Shaped(v) && CalendarOk(v.idx, v.ridx, v.timeshare) && td in v.threads
             && TdqModel.SlotOf(v.threads[td]) < RQ_NQS
    requires td in RqOf(v, v.threads[td].runq)[TdqModel.SlotOf(v.threads[td])]
    ensures IsWithout(v, td, Loaded(RunqRem(v, td, place), -1)) && RunqRem(v, td, place).threads[td].place == place
    ensures RunqRem(v, td, place).load == v.load && SameBut(v, RunqRem(v, td, place), td)
  {
    hide Left;
    RemLeaves(v, td, place);
  }

  lemma InvParts(v: Tdq)
    requires Inv(v)
    ensures Shaped(v) && CalendarOk(v.idx, v.ridx, v.timeshare)
  {
  }

  lemma BetterMoves(v: Tdq, td: int, priority: nat)
    requires Inv(v) && Shaped(v) && td in v.threads && priority <= 255 && TdqModel.SlotOf(v.threads[td]) < RQ_NQS
    requires v.threads[td].place == Queued && priority < v.threads[td].priority
    ensures var v', t := Reprioritised(v, td, priority), v.threads[td];
            && td in v'.threads && v'.threads[td].priority == priority && v'.threads[td].place == Queued
            && MovedTo(v, td, v', t.(priority := priority))
  {
    hide Inv, Placed, CalendarOk, IsWithout, RunqAdd, RunqRem, Shaped;
    var t, d := v.threads[td], Departed(v, td);
    OnQueue(v, td);
    InvParts(v);
    RemTakesOut(v, td, Off);
    DepartedKeeps(v, td);
    InvParts(d);
    var w := WithPriority(d, td, priority);
    WithoutThreads(v, td, d, w);
    ShapedThreads(d, w);
    ArrivalPlaces(w, td, w.threads[td], Flags(true, false));
    PlacedAlike(w, Arrived(w, td, w.threads[td], Flags(true, false)), td, w.threads[td], t.(priority := priority),
                Flags(true, false));
  }

  lemma WithoutThreads(v: Tdq, td: int, d: Tdq, w: Tdq)
    requires IsWithout(v, td, d) && w == d.(threads := w.threads)
    ensures IsWithout(v, td, w)
  {
    hide Left;
  }

  lemma ShapedThreads(d: Tdq, w: Tdq)
    requires Shaped(d) && CalendarOk(d.idx, d.ridx, d.timeshare) && w == d.(threads := w.threads)
    ensures Shaped(w) && CalendarOk(w.idx, w.ridx, w.timeshare)
  {
  }

  lemma OnQueue(v: Tdq, td: int)
    requires Inv(v) && td in v.threads && v.threads[td].place == Queued && TdqModel.SlotOf(v.threads[td]) < RQ_NQS
    ensures td in RqOf(v, v.threads[td].runq)[TdqModel.SlotOf(v.threads[td])]
  {
    var t := v.threads[td];
    assert SlotOk(RqOf(v, t.runq)[TdqModel.SlotOf(t)], t.runq, TdqModel.SlotOf(t), v.threads);
  }

  lemma PlacedAlike(w: Tdq, v: Tdq, td: int, s: Td, t: Td, flags: Flags)
    requires Placed(w, v, td, s, flags) && s.priority == t.priority && s.isRoot == t.isRoot
    ensures Placed(w, v, td, t, flags)
  {
    hide Joined, Distance, Wait;
  }

  // ----- choosing -----

  /**
   How soon a queued thread's turn comes: real-time queues in order, then the calendar, the
   lottery, and idle queues.
   */
  function Rank(v: Tdq, t: Td): int {
    match t.runq
    case Realtime => t.rqindex
    case Timeshare => if t.rqindex < 64 && v.ridx < 64 then 64 + Distance(v.ridx, t.rqindex) else 128
    case LotteryQueue => 128
    case IdleQueue => 129 + t.rqindex
  }

  /**
   tdq_choose returns a queued thread whose turn comes no later than that of any other, at the head
   of its queue unless drawn.
   */
  lemma ChosenIsFirst(v: Tdq, draw: nat, r: Option<int>, td: int)
    requires Inv(v) && Chosen(v, draw, r) && td in v.threads && v.threads[td].place == Queued
    ensures r.Some? && r.value in v.threads && v.threads[r.value].place == Queued
    ensures Rank(v, v.threads[r.value]) <= Rank(v, v.threads[td])
    ensures var t := v.threads[r.value];
            t.runq != LotteryQueue ==> TdqModel.SlotOf(t) < RQ_NQS && |RqOf(v, t.runq)[TdqModel.SlotOf(t)]| > 0
                                       && RqOf(v, t.runq)[TdqModel.SlotOf(t)][0] == r.value
  {
    hide Inv, Chosen, Rank;
    NoneChosenIff(v, draw, r);
    assert td in QueuedSet(v.threads);
    ChosenIsQueued(v, draw, r);
    ChosenRank(v, draw, r.value, td);
  }

  lemma ChosenRank(v: Tdq, draw: nat, c: int, td: int)
    requires Inv(v) && Chosen(v, draw, Some(c)) && td in v.threads && v.threads[td].place == Queued && c in v.threads
    ensures Rank(v, v.threads[c]) <= Rank(v, v.threads[td])
    ensures var t := v.threads[c];
            t.runq != LotteryQueue ==> TdqModel.SlotOf(t) < RQ_NQS && |RqOf(v, t.runq)[TdqModel.SlotOf(t)]| > 0
                                       && RqOf(v, t.runq)[TdqModel.SlotOf(t)][0] == c
  {
    hide CountsOk, CalendarOk, Distance, Lottery.DrawOf, IsFirst, IsFirstFrom, ThreadsOk;
    Standing(v, td);
    if !AllEmpty(v.realtime) {
      HeadRank(v, v.realtime, Realtime, c, td);
    } else if !AllEmpty(v.timeshare) {
      CalendarRank(v, c, td);
    } else if v.lottery[0] != [] {
      assert SlotOk(v.lottery[0], LotteryQueue, 0, v.threads);
    } else {
      HeadRank(v, v.idle, IdleQueue, c, td);
    }
  }

  lemma HeadRank(v: Tdq, qs: Queues, rq: RqName, c: int, td: int)
    requires RqOk(qs, rq, v.threads) && qs == RqOf(v, rq) && IsChoice(qs, Some(c))
             && (rq == Realtime || rq == IdleQueue)
    requires td in v.threads && TdqModel.SlotOf(v.threads[td]) < RQ_NQS
    requires v.threads[td].runq == rq ==> qs[TdqModel.SlotOf(v.threads[td])] != []
    ensures c in v.threads && v.threads[c].runq == rq && v.threads[c].rqindex < RQ_NQS
    ensures qs[v.threads[c].rqindex] != [] && qs[v.threads[c].rqindex][0] == c
    ensures v.threads[td].runq == rq ==> v.threads[c].rqindex <= v.threads[td].rqindex
  {
    var p :| 0 <= p < RQ_NQS && IsFirst(qs, p) && c == qs[p][0];
    assert SlotOk(qs[p], rq, p, v.threads);
  }

  lemma CalendarRank(v: Tdq, c: int, td: int)
    requires RqOk(v.timeshare, Timeshare, v.threads) && v.ridx < RQ_NQS && IsChoiceFrom(v.timeshare, v.ridx, Some(c))
    requires td in v.threads && TdqModel.SlotOf(v.threads[td]) < RQ_NQS
    requires v.threads[td].runq == Timeshare ==> v.timeshare[TdqModel.SlotOf(v.threads[td])] != []
    ensures c in v.threads && v.threads[c].runq == Timeshare && v.threads[c].rqindex < RQ_NQS
    ensures v.timeshare[v.threads[c].rqindex] != [] && v.timeshare[v.threads[c].rqindex][0] == c
    ensures v.threads[td].runq == Timeshare
            ==> Distance(v.ridx, v.threads[c].rqindex) <= Distance(v.ridx, v.threads[td].rqindex)
    ensures Distance(v.ridx, v.threads[c].rqindex) < 64
  {
    var p :| 0 <= p < RQ_NQS && IsFirstFrom(v.timeshare, v.ridx, p) && c == v.timeshare[p][0];
    assert SlotOk(v.timeshare[p], Timeshare, p, v.threads);
  }

  /** A queued thread is on its queue, which is not empty then. */
  lemma Standing(v: Tdq, td: int)
    requires Inv(v) && td in v.threads && v.threads[td].place == Queued
    ensures TdqModel.SlotOf(v.threads[td]) < RQ_NQS
    ensures RqOf(v, v.threads[td].runq)[TdqModel.SlotOf(v.threads[td])] != []
  {
    hide CountsOk, CalendarOk;
    assert TdOk(v.threads[td]);
    OnQueue(v, td);
  }
}
