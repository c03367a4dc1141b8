/**
 The state of one CPU's scheduler as a value: its four run queues, the indices of the
 calendar queue, its counters and its threads; what each operation does to it; and the
 accounting that every run of those operations keeps.
 */
module TdqModel {
  import opened Prelude
  import opened RunQueue
  import opened Lottery
  import Seqs
  import Priority

  const PRI_MIN_BATCH := 152
  const PRI_MAX_BATCH := 223
  const PRI_BATCH_RANGE := 72
  const PRI_MAX := 255

  /** The batch range in numbers is the one `Priority` derives. */
  lemma BatchRangeIs()
    ensures PRI_MIN_BATCH == Priority.PRI_MIN_BATCH && PRI_MAX_BATCH == Priority.PRI_MAX_BATCH
    ensures PRI_BATCH_RANGE == PRI_MAX_BATCH - PRI_MIN_BATCH + 1
  {
  }

  /** Which run queue ts_runq names. */
  datatype RqName = Realtime | Timeshare | LotteryQueue | IdleQueue

  datatype Place = Off | Queued | Running

  /** A thread: the fields of struct thread and td_sched that the run queues use. */
  datatype Td = Td(priority: nat, canMigrate: bool, isRoot: bool, nice: int,
                   place: Place, runq: RqName, rqindex: nat, xferable: bool)

  type Threads = map<int, Td>

  datatype Tdq = Tdq(load: int, transferable: int, idx: nat, ridx: nat,
                     realtime: Queues, timeshare: Queues, lottery: Queues, idle: Queues, threads: Threads)

  /** SRQ_BORROWING and SRQ_PREEMPTED. */
  datatype Flags = Flags(borrowing: bool, preempted: bool)

  function RqOf(v: Tdq, rq: RqName): (qs: Queues)
    ensures Shaped(v) ==> |qs| == RQ_NQS
  {
    match rq
    case Realtime => v.realtime
    case Timeshare => v.timeshare
    case LotteryQueue => v.lottery
    case IdleQueue => v.idle
  }

  function WithRq(v: Tdq, rq: RqName, qs: Queues): (v': Tdq)
    ensures RqOf(v', rq) == qs
    ensures forall other :: other != rq ==> RqOf(v', other) == RqOf(v, other)
  {
    match rq
    case Realtime => v.(realtime := qs)
    case Timeshare => v.(timeshare := qs)
    case LotteryQueue => v.(lottery := qs)
    case IdleQueue => v.(idle := qs)
  }

  /** The slot a queued thread is on: the lottery uses queue 0 only. */
  function SlotOf(t: Td): nat {
    if t.runq == LotteryQueue then 0 else t.rqindex
  }

  predicate Shaped(v: Tdq) {
    && v.idx < RQ_NQS && v.ridx < RQ_NQS
    && |v.realtime| == |v.timeshare| == |v.lottery| == |v.idle| == RQ_NQS
  }

  // ----- the calendar queue -----

  /** The priority scaled to a number of slots. */
  function Scaled(priority: nat): nat
    requires PRI_MIN_BATCH <= priority <= PRI_MAX_BATCH
  {
    RQ_NQS * (priority - PRI_MIN_BATCH) / PRI_BATCH_RANGE
  }

  /** The slot for an ordinary add, in the arithmetic of an unsigned char. */
  function CalendarSlot(idx: nat, ridx: nat, priority: nat): (slot: nat)
    requires idx < RQ_NQS && ridx < RQ_NQS && PRI_MIN_BATCH <= priority <= PRI_MAX_BATCH
    ensures slot < RQ_NQS
  {
    var slot := (Scaled(priority) + idx) % RQ_NQS;
    if ridx != idx && slot == ridx then ((slot + 255) % 256) % RQ_NQS else slot
  }

  /** idx is ridx or the slot after it, and in the second case slot ridx still has threads. */
  predicate CalendarOk(idx: nat, ridx: nat, qs: Queues) {
    && idx < RQ_NQS && ridx < RQ_NQS && |qs| == RQ_NQS
    && (idx == ridx || (idx == (ridx + 1) % RQ_NQS && qs[ridx] != []))
  }

  /** An ordinary add lands as far from the removal index as its priority says. */
  lemma AddDistance(idx: nat, ridx: nat, priority: nat)
    requires idx < RQ_NQS && ridx < RQ_NQS && (idx == ridx || idx == (ridx + 1) % RQ_NQS)
    requires PRI_MIN_BATCH <= priority <= PRI_MAX_BATCH
    ensures Scaled(priority) < RQ_NQS
    ensures Distance(ridx, CalendarSlot(idx, ridx, priority))
            == if idx == ridx then Scaled(priority)
               else if Scaled(priority) + 1 < RQ_NQS then Scaled(priority) + 1 else RQ_NQS - 1
  {
    ScaledRange(priority);
    hide Scaled;
    var p := Scaled(priority);
    SlotWraps(p, idx);
    SlotWraps(ridx, 1);
    if (p + idx) % RQ_NQS == ridx {
      assert idx != ridx ==> p == RQ_NQS - 1;
      assert ridx > 0 ==> (ridx + 255) % 256 == ridx - 1;
    }
  }

  lemma ScaledRange(priority: nat)
    requires PRI_MIN_BATCH <= priority <= PRI_MAX_BATCH
    ensures Scaled(priority) < RQ_NQS
  {
  }

  lemma SlotWraps(a: nat, b: nat)
    requires a < RQ_NQS && b < RQ_NQS
    ensures (a + b) % RQ_NQS == if a + b < RQ_NQS then a + b else a + b - RQ_NQS
  {
  }

  /** Better priorities land no farther away. */
  lemma DistanceMonotone(idx: nat, ridx: nat, p: nat, p': nat)
    requires idx < RQ_NQS && ridx < RQ_NQS && (idx == ridx || idx == (ridx + 1) % RQ_NQS)
    requires PRI_MIN_BATCH <= p <= p' <= PRI_MAX_BATCH
    ensures Distance(ridx, CalendarSlot(idx, ridx, p)) <= Distance(ridx, CalendarSlot(idx, ridx, p'))
  {
    AddDistance(idx, ridx, p);
    AddDistance(idx, ridx, p');
  }

  // ----- operations -----

  /** The run queue and slot tdq_runq_add chooses. */
  function AddTarget(v: Tdq, t: Td, flags: Flags): (r: (RqName, nat))
    requires Shaped(v) && t.priority <= PRI_MAX
    ensures r.1 < RQ_NQS
  {
    if t.priority < PRI_MIN_BATCH then (Realtime, t.priority / RQ_PPQ)
    else if t.priority <= PRI_MAX_BATCH then
      if !t.isRoot then (LotteryQueue, 0)
      else if !flags.borrowing && !flags.preempted then (Timeshare, CalendarSlot(v.idx, v.ridx, t.priority))
      else (Timeshare, v.ridx)
    else (IdleQueue, t.priority / RQ_PPQ)
  }

  /** tdq_runq_add: the lottery queue takes threads at its head. */
  function RunqAdd(v: Tdq, td: int, flags: Flags): (v': Tdq)
    requires Shaped(v) && td in v.threads && v.threads[td].priority <= PRI_MAX
    ensures Shaped(v')
  {
    var t := v.threads[td];
    var (rq, slot) := AddTarget(v, t, flags);
    var t' := t.(place := Queued, runq := rq, xferable := t.xferable || t.canMigrate,
                 rqindex := if rq == LotteryQueue then t.rqindex else slot);
    WithRq(v, rq, Added(RqOf(v, rq), slot, td, flags.preempted || rq == LotteryQueue))
      .(threads := v.threads[td := t'], transferable := v.transferable + (if t.canMigrate then 1 else 0))
  }

  /** tdq_runq_rem: the thread is then at `place`. */
  function RunqRem(v: Tdq, td: int, place: Place): (v': Tdq)
    requires Shaped(v) && td in v.threads && SlotOf(v.threads[td]) < RQ_NQS
    ensures Shaped(v')
  {
    var t := v.threads[td];
    var slot := SlotOf(t);
    var qs := Removed(RqOf(v, t.runq), slot, td);
    WithRq(v, t.runq, qs)
      .(threads := v.threads[td := t.(xferable := false, place := place)],
        transferable := v.transferable - (if t.xferable then 1 else 0),
        ridx := if t.runq == Timeshare && v.idx != v.ridx && v.ridx == slot && qs[slot] == []
                then (slot + 1) % RQ_NQS else v.ridx)
  }

  /** An add is the change of the thread and the counter, and then that of the run queue. */
  lemma RunqAddIs(v: Tdq, td: int, flags: Flags, v1: Tdq)
    requires Shaped(v) && td in v.threads && v.threads[td].priority <= PRI_MAX
    requires var t := v.threads[td];
             var (rq, slot) := AddTarget(v, t, flags);
             v1 == v.(threads := v.threads[td := t.(place := Queued, runq := rq, xferable := t.xferable || t.canMigrate,
                                                    rqindex := if rq == LotteryQueue then t.rqindex else slot)],
                      transferable := v.transferable + (if t.canMigrate then 1 else 0))
    ensures var (rq, slot) := AddTarget(v, v.threads[td], flags);
            && (rq == LotteryQueue ==> slot == 0) && RqOf(v1, rq) == RqOf(v, rq) && Shaped(v1)
            && RunqAdd(v, td, flags)
               == WithRq(v1, rq, Added(RqOf(v1, rq), slot, td, flags.preempted || rq == LotteryQueue))
  {
    hide Added, CalendarSlot;
  }

  /** A removal is the change of the thread and the counter, and then that of the run queue and its index. */
  lemma RunqRemIs(v: Tdq, td: int, place: Place, v1: Tdq)
    requires Shaped(v) && td in v.threads && SlotOf(v.threads[td]) < RQ_NQS
    requires var t := v.threads[td];
             v1 == v.(threads := v.threads[td := t.(xferable := false, place := place)],
                      transferable := v.transferable - (if t.xferable then 1 else 0))
    ensures var rq, slot := v.threads[td].runq, SlotOf(v.threads[td]);
            && RqOf(v1, rq) == RqOf(v, rq) && Shaped(v1)
            && var qs := Removed(RqOf(v1, rq), slot, td);
               RunqRem(v, td, place)
               == WithRq(v1, rq, qs).(ridx := if rq == Timeshare && v1.idx != v1.ridx && v1.ridx == slot
                 && qs[slot] == []
                                              then (slot + 1) % RQ_NQS else v1.ridx)
  {
    hide Removed;
  }

  /** The calendar's part of sched_clock. */
  function Tick(v: Tdq): (v': Tdq)
    requires Shaped(v)
    ensures Shaped(v')
  {
    if v.idx == v.ridx then
      var idx := (v.idx + 1) % RQ_NQS;
      v.(idx := idx, ridx := if v.timeshare[v.ridx] == [] then idx else v.ridx)
    else v
  }

  /** What tdq_choose may return. */
  ghost predicate Chosen(v: Tdq, draw: nat, r: Option<int>)
    requires Shaped(v)
  {
    if !AllEmpty(v.realtime) then r.Some? && IsChoice(v.realtime, r)
    else if !AllEmpty(v.timeshare) then r.Some? && IsChoiceFrom(v.timeshare, v.ridx, r)
    else if v.lottery[0] != [] then r.Some? && LotteryPick(v, draw, r.value)
    else IsChoice(v.idle, r)
  }

  ghost predicate AllEmpty(qs: Queues)
    requires |qs| == RQ_NQS
  {
    forall q :: 0 <= q < RQ_NQS ==> qs[q] == []
  }

  lemma ChoiceSome(qs: Queues, r: Option<int>)
    requires |qs| == RQ_NQS && IsChoice(qs, r)
    ensures r.Some? <==> !AllEmpty(qs)
  {
  }

  lemma ChoiceFromSome(qs: Queues, from: nat, r: Option<int>)
    requires |qs| == RQ_NQS && from < RQ_NQS && IsChoiceFrom(qs, from, r)
    ensures r.Some? <==> !AllEmpty(qs)
  {
  }

  function NiceMap(threads: Threads): (m: map<int, int>)
    ensures m.Keys == threads.Keys && forall td :: td in threads ==> m[td] == threads[td].nice
  {
    map td | td in threads :: threads[td].nice
  }

  ghost predicate LotteryPick(v: Tdq, draw: nat, td: int)
    requires |v.lottery| == RQ_NQS
  {
    var q := v.lottery[0];
    && (forall i :: 0 <= i < |q| ==> q[i] in v.threads)
    && var d := DrawOf(Tickets(q, NiceMap(v.threads)), draw);
       d.Winner? && td == q[d.k]
  }

  /** The choice comes down to the lottery, and the draw crashes it. */
  ghost predicate LotteryCrashes(v: Tdq, draw: nat)
    requires Shaped(v)
  {
    && AllEmpty(v.realtime) && AllEmpty(v.timeshare) && v.lottery[0] != []
    && (forall i :: 0 <= i < |v.lottery[0]| ==> v.lottery[0][i] in v.threads)
    && DrawOf(Tickets(v.lottery[0], NiceMap(v.threads)), draw) == Crash
  }

  // ----- the invariant -----

  predicate AtSlot(t: Td, rq: RqName, q: nat) {
    t.place == Queued && t.runq == rq && SlotOf(t) == q
  }

  /** A queue lists exactly the threads that say they are on it, each once. */
  ghost predicate SlotOk(s: seq<int>, rq: RqName, q: nat, threads: Threads) {
    && (forall i :: 0 <= i < |s| ==> s[i] in threads && AtSlot(threads[s[i]], rq, q))
    && (forall i, j :: 0 <= i < j < |s| ==> s[i] != s[j])
    && (forall td :: td in threads && AtSlot(threads[td], rq, q) ==> td in s)
  }

  ghost predicate RqOk(qs: Queues, rq: RqName, threads: Threads) {
    |qs| == RQ_NQS && forall q :: 0 <= q < RQ_NQS ==> SlotOk(qs[q], rq, q, threads)
  }

  ghost predicate QueuesOk(v: Tdq) {
    && RqOk(v.realtime, Realtime, v.threads) && RqOk(v.timeshare, Timeshare, v.threads)
    && RqOk(v.lottery, LotteryQueue, v.threads) && RqOk(v.idle, IdleQueue, v.threads)
  }

  /** The fields of a thread fit together: where it is queued, its priority range, its flag. */
  predicate TdOk(t: Td) {
    && t.priority <= PRI_MAX
    && (t.place == Queued ==> SlotOf(t) < RQ_NQS)
    && (t.place != Queued ==> !t.xferable)
    && (t.place == Queued && (t.runq == Timeshare || t.runq == LotteryQueue) ==> t.priority >= PRI_MIN_BATCH)
    && (t.place == Queued && t.runq == IdleQueue ==> t.priority > PRI_MAX_BATCH)
  }

  function QueuedSet(threads: Threads): set<int> {
    set td | td in threads && threads[td].place == Queued
  }

  function RunningSet(threads: Threads): set<int> {
    set td | td in threads && threads[td].place == Running
  }

  function XferableSet(threads: Threads): set<int> {
    set td | td in threads && threads[td].place == Queued && threads[td].xferable
  }

  ghost predicate CountsOk(v: Tdq) {
    && v.load == |QueuedSet(v.threads)| + |RunningSet(v.threads)|
    && v.transferable == |XferableSet(v.threads)|
    && |RunningSet(v.threads)| <= 1
  }

  ghost predicate ThreadsOk(threads: Threads) {
    forall td :: td in threads ==> TdOk(threads[td])
  }

  /**
   A queued thread is on exactly one run queue, the one ts_runq names; the calendar and the
   priority ranges are right; and load and transferable count what they are meant to count.
   */
  ghost predicate Inv(v: Tdq) {
    Shaped(v) && QueuesOk(v) && CalendarOk(v.idx, v.ridx, v.timeshare) && ThreadsOk(v.threads) && CountsOk(v)
  }

  // ----- one slot -----

  lemma SlotAdd(s: seq<int>, rq: RqName, q: nat, threads: Threads, td: int, t: Td, atHead: bool)
    requires SlotOk(s, rq, q, threads) && AtSlot(t, rq, q)
    requires td in threads ==> threads[td].place != Queued
    ensures SlotOk(if atHead then [td] + s else s + [td], rq, q, threads[td := t])
  {
  }

  lemma RemoveIs(s: seq<int>, k: nat)
    requires k < |s| && forall i, j :: 0 <= i < j < |s| ==> s[i] != s[j]
    ensures Seqs.Remove(s, s[k]) == s[..k] + s[k + 1..]
  {
    Seqs.IndexIs(s, s[k], k);
  }

  lemma SlotRemove(s: seq<int>, rq: RqName, q: nat, threads: Threads, td: int, t: Td)
    requires SlotOk(s, rq, q, threads) && td in threads && AtSlot(threads[td], rq, q) && !AtSlot(t, rq, q)
    ensures SlotOk(Seqs.Remove(s, td), rq, q, threads[td := t])
  {
    hide Seqs.Remove;
    var k :| 0 <= k < |s| && s[k] == td;
    RemoveIs(s, k);
    SlotCut(s, k, rq, q, threads, t);
  }

  lemma SlotCut(s: seq<int>, k: nat, rq: RqName, q: nat, threads: Threads, t: Td)
    requires SlotOk(s, rq, q, threads) && k < |s| && !AtSlot(t, rq, q)
    ensures SlotOk(s[..k] + s[k + 1..], rq, q, threads[s[k] := t])
  {
    var r, after := s[..k] + s[k + 1..], threads[s[k] := t];
    forall i | 0 <= i < |r| ensures r[i] == s[if i < k then i else i + 1] {
    }
    forall x | x in after && AtSlot(after[x], rq, q) ensures x in r {
      var i :| 0 <= i < |s| && s[i] == x;
      assert i != k;
      assert r[if i < k then i else i - 1] == x;
    }
  }

  lemma SlotOther(s: seq<int>, rq: RqName, q: nat, threads: Threads, td: int, t: Td)
    requires SlotOk(s, rq, q, threads) && !AtSlot(t, rq, q)
    requires td in threads ==> !AtSlot(threads[td], rq, q)
    ensures SlotOk(s, rq, q, threads[td := t])
  {
  }

  // ----- one run queue -----

  lemma RqAdd(qs: Queues, rq: RqName, threads: Threads, q: nat, td: int, t: Td, atHead: bool)
    requires RqOk(qs, rq, threads) && q < RQ_NQS && AtSlot(t, rq, q)
    requires td in threads ==> threads[td].place != Queued
    ensures RqOk(Added(qs, q, td, atHead), rq, threads[td := t])
  {
    hide SlotOk;
    forall p | 0 <= p < RQ_NQS ensures SlotOk(Added(qs, q, td, atHead)[p], rq, p, threads[td := t]) {
      if p == q { SlotAdd(qs[q], rq, q, threads, td, t, atHead); } else { SlotOther(qs[p], rq, p, threads, td, t); }
    }
  }

  lemma RqRemove(qs: Queues, rq: RqName, threads: Threads, q: nat, td: int, t: Td)
    requires RqOk(qs, rq, threads) && q < RQ_NQS && td in threads && AtSlot(threads[td], rq, q) && t.place != Queued
    ensures RqOk(Removed(qs, q, td), rq, threads[td := t])
  {
    hide SlotOk;
    forall p | 0 <= p < RQ_NQS ensures SlotOk(Removed(qs, q, td)[p], rq, p, threads[td := t]) {
      if p == q { SlotRemove(qs[q], rq, q, threads, td, t); } else { SlotOther(qs[p], rq, p, threads, td, t); }
    }
  }

  lemma RqOther(qs: Queues, rq: RqName, threads: Threads, td: int, t: Td)
    requires RqOk(qs, rq, threads)
    requires t.place != Queued || t.runq != rq
    requires td in threads ==> threads[td].place != Queued || threads[td].runq != rq
    ensures RqOk(qs, rq, threads[td := t])
  {
    hide SlotOk;
    forall p | 0 <= p < RQ_NQS ensures SlotOk(qs[p], rq, p, threads[td := t]) {
      SlotOther(qs[p], rq, p, threads, td, t);
    }
  }

  /** Fields that say nothing of the place may change. */
  lemma RqSame(qs: Queues, rq: RqName, threads: Threads, td: int, t: Td)
    requires RqOk(qs, rq, threads) && td in threads
    requires t.place == threads[td].place && t.runq == threads[td].runq && SlotOf(t) == SlotOf(threads[td])
    ensures RqOk(qs, rq, threads[td := t])
  {
    forall p | 0 <= p < RQ_NQS ensures SlotOk(qs[p], rq, p, threads[td := t]) {
    }
  }

  // ----- counting -----

  lemma SetsUpdate(threads: Threads, td: int, t: Td)
    ensures var after := threads[td := t];
      && QueuedSet(after) == (if t.place == Queued then QueuedSet(threads) + {td} else QueuedSet(threads) - {td})
      && RunningSet(after) == (if t.place == Running then RunningSet(threads) + {td} else RunningSet(threads) - {td})
      && XferableSet(after)
         == (if t.place == Queued && t.xferable then XferableSet(threads) + {td} else XferableSet(threads) - {td})
  {
  }

  function Count(b: bool): int { if b then 1 else 0 }

  lemma CountsUpdate(threads: Threads, td: int, t: Td)
    ensures var after, had := threads[td := t], td in threads;
      && |QueuedSet(after)| == |QueuedSet(threads)| - Count(had && threads[td].place == Queued)
         + Count(t.place == Queued)
      && |RunningSet(after)| == |RunningSet(threads)| - Count(had && threads[td].place == Running)
         + Count(t.place == Running)
      && |XferableSet(after)|
         == |XferableSet(threads)| - Count(had && threads[td].place == Queued && threads[td].xferable)
                                 + Count(t.place == Queued && t.xferable)
  {
    SetsUpdate(threads, td, t);
  }

  // ----- each operation keeps the invariant -----

  /** All but the load: adding a thread that is not queued. */
  lemma RunqAddKeeps(v: Tdq, td: int, flags: Flags)
    requires Shaped(v) && QueuesOk(v) && CalendarOk(v.idx, v.ridx, v.timeshare) && ThreadsOk(v.threads)
    requires td in v.threads && v.threads[td].place != Queued && v.threads[td].priority <= PRI_MAX
    ensures var v' := RunqAdd(v, td, flags);
      && QueuesOk(v') && CalendarOk(v'.idx, v'.ridx, v'.timeshare) && ThreadsOk(v'.threads)
      && v'.load == v.load && v'.idx == v.idx && v'.ridx == v.ridx
      && |QueuedSet(v'.threads)| == |QueuedSet(v.threads)| + 1
      && |RunningSet(v'.threads)| == |RunningSet(v.threads)| - Count(v.threads[td].place == Running)
      && v'.transferable - v.transferable == |XferableSet(v'.threads)| - |XferableSet(v.threads)|
  {
    hide RqOk;
    var t := v.threads[td];
    var (rq, slot) := AddTarget(v, t, flags);
    var v' := RunqAdd(v, td, flags);
    var t' := v'.threads[td];
    RqAdd(RqOf(v, rq), rq, v.threads, slot, td, t', flags.preempted || rq == LotteryQueue);
    if rq != Realtime { RqOther(v.realtime, Realtime, v.threads, td, t'); }
    if rq != Timeshare { RqOther(v.timeshare, Timeshare, v.threads, td, t'); }
    if rq != LotteryQueue { RqOther(v.lottery, LotteryQueue, v.threads, td, t'); }
    if rq != IdleQueue { RqOther(v.idle, IdleQueue, v.threads, td, t'); }
    CountsUpdate(v.threads, td, t');
  }

  lemma RunqRemKeeps(v: Tdq, td: int, place: Place)
    requires Shaped(v) && QueuesOk(v) && CalendarOk(v.idx, v.ridx, v.timeshare) && ThreadsOk(v.threads)
    requires td in v.threads && v.threads[td].place == Queued && place != Queued
    ensures var v' := RunqRem(v, td, place);
      && QueuesOk(v') && CalendarOk(v'.idx, v'.ridx, v'.timeshare) && ThreadsOk(v'.threads)
      && v'.load == v.load
      && |QueuedSet(v'.threads)| == |QueuedSet(v.threads)| - 1
      && |RunningSet(v'.threads)| == |RunningSet(v.threads)| + Count(place == Running)
      && v'.transferable - v.transferable == |XferableSet(v'.threads)| - |XferableSet(v.threads)|
  {
    hide RqOk;
    var t := v.threads[td];
    var v' := RunqRem(v, td, place);
    var t' := v'.threads[td];
    RqRemove(RqOf(v, t.runq), t.runq, v.threads, SlotOf(t), td, t');
    if t.runq != Realtime { RqOther(v.realtime, Realtime, v.threads, td, t'); }
    if t.runq != Timeshare { RqOther(v.timeshare, Timeshare, v.threads, td, t'); }
    if t.runq != LotteryQueue { RqOther(v.lottery, LotteryQueue, v.threads, td, t'); }
    if t.runq != IdleQueue { RqOther(v.idle, IdleQueue, v.threads, td, t'); }
    CountsUpdate(v.threads, td, t');
  }

  // ----- steps and runs -----

  /** tdq_load_add and tdq_load_rem. */
  function Loaded(v: Tdq, delta: int): Tdq { v.(load := v.load + delta) }

  /** tdq_add of a thread that comes to this CPU, or wakes up on it. */
  function Arrived(v: Tdq, td: int, t: Td, flags: Flags): Tdq
    requires Shaped(v) && t.priority <= PRI_MAX
  {
    Loaded(RunqAdd(v.(threads := v.threads[td := t]), td, flags), 1)
  }

  /** sched_rem of a queued thread. */
  function Departed(v: Tdq, td: int): (v': Tdq)
    requires Shaped(v) && td in v.threads && SlotOf(v.threads[td]) < RQ_NQS
    ensures Shaped(v')
  {
    Loaded(RunqRem(v, td, Off), -1)
  }

  function WithPlace(v: Tdq, td: int, place: Place): Tdq
    requires td in v.threads
  {
    v.(threads := v.threads[td := v.threads[td].(place := place)])
  }

  function WithPriority(v: Tdq, td: int, priority: nat): Tdq
    requires td in v.threads
  {
    v.(threads := v.threads[td := v.threads[td].(priority := priority)])
  }

  /**
   sched_thread_priority: a queued thread that gets a better priority is moved, borrowing;
   any other change of priority leaves it where it is.  The CPU it is added to is taken to
   be this one.
   */
  function Reprioritised(v: Tdq, td: int, priority: nat): Tdq
    requires Shaped(v) && td in v.threads && priority <= PRI_MAX && SlotOf(v.threads[td]) < RQ_NQS
  {
    var t := v.threads[td];
    if t.priority == priority then v
    else if t.place == Queued && priority < t.priority then
      var w := WithPriority(Departed(v, td), td, priority);
      Arrived(w, td, w.threads[td], Flags(true, false))
    else WithPriority(v, td, priority)
  }

  datatype Op =
    | Add(td: int, t: Td, flags: Flags)         // sched_add, tdq_add
    | Remove(td: int)                           // sched_rem
    | Choose(draw: nat, r: Option<int>)         // sched_choose
    | Yield(td: int, preempted: bool)           // sched_switch of a running thread
    | Sleep(td: int)                            // sched_switch of a thread that blocks
    | SetPriority(td: int, priority: nat)       // sched_thread_priority
    | ClockTick                                 // sched_clock

  /** One operation under the queue lock. */
  ghost predicate Step(v: Tdq, op: Op, v': Tdq) {
    Shaped(v) &&
    match op
    case Add(td, t, flags) =>
      && (td in v.threads ==> v.threads[td].place == Off) && TdOk(t) && t.place == Off
      && v' == Arrived(v, td, t, flags)
    case Remove(td) =>
      && td in v.threads && v.threads[td].place == Queued && SlotOf(v.threads[td]) < RQ_NQS
      && v' == Departed(v, td)
    case Choose(draw, r) =>
      && RunningSet(v.threads) == {} && Chosen(v, draw, r)
      && (r.None? ==> v' == v)
      && (r.Some? ==> r.value in v.threads && SlotOf(v.threads[r.value]) < RQ_NQS && v' == RunqRem(v, r.value, Running))
    case Yield(td, preempted) =>
      && td in v.threads && v.threads[td].place == Running && v.threads[td].priority <= PRI_MAX
      && v' == RunqAdd(v, td, Flags(false, preempted))
    case Sleep(td) =>
      && td in v.threads && v.threads[td].place == Running && v' == Loaded(WithPlace(v, td, Off), -1)
    case SetPriority(td, priority) =>
      && td in v.threads && priority <= PRI_MAX && SlotOf(v.threads[td]) < RQ_NQS
         && v' == Reprioritised(v, td, priority)
    case ClockTick => v' == Tick(v)
  }

  lemma ArrivedKeeps(v: Tdq, td: int, t: Td, flags: Flags)
    requires Inv(v) && TdOk(t) && t.place == Off && (td in v.threads ==> v.threads[td].place == Off)
    ensures Inv(Arrived(v, td, t, flags))
  {
    hide RqOk;
    var w := v.(threads := v.threads[td := t]);
    RqOther(v.realtime, Realtime, v.threads, td, t);
    RqOther(v.timeshare, Timeshare, v.threads, td, t);
    RqOther(v.lottery, LotteryQueue, v.threads, td, t);
    RqOther(v.idle, IdleQueue, v.threads, td, t);
    CountsUpdate(v.threads, td, t);
    RunqAddKeeps(w, td, flags);
  }

  lemma WithPriorityKeeps(v: Tdq, td: int, priority: nat)
    requires Inv(v) && td in v.threads && priority <= PRI_MAX
    requires v.threads[td].place == Queued ==> priority >= v.threads[td].priority
    ensures Inv(WithPriority(v, td, priority))
  {
    hide RqOk;
    var t := v.threads[td].(priority := priority);
    RqSame(v.realtime, Realtime, v.threads, td, t);
    RqSame(v.timeshare, Timeshare, v.threads, td, t);
    RqSame(v.lottery, LotteryQueue, v.threads, td, t);
    RqSame(v.idle, IdleQueue, v.threads, td, t);
    CountsUpdate(v.threads, td, t);
  }

  lemma DepartedKeeps(v: Tdq, td: int)
    requires Inv(v) && td in v.threads && v.threads[td].place == Queued && SlotOf(v.threads[td]) < RQ_NQS
    ensures Inv(Departed(v, td))
  {
    hide RqOk, CalendarOk, ThreadsOk, RunqRem;
    RunqRemKeeps(v, td, Off);
  }

  lemma ReprioritisedKeeps(v: Tdq, td: int, priority: nat)
    requires Inv(v) && td in v.threads && priority <= PRI_MAX && SlotOf(v.threads[td]) < RQ_NQS
    ensures Inv(Reprioritised(v, td, priority))
  {
    hide QueuesOk, CountsOk, CalendarOk, RunqAdd, RunqRem;
    var t := v.threads[td];
    if t.place == Queued && priority < t.priority {
      DepartedKeeps(v, td);
      AfterDeparture(v, td);
      WithPriorityKeeps(Departed(v, td), td, priority);
      var w := WithPriority(Departed(v, td), td, priority);
      ArrivedKeeps(w, td, w.threads[td], Flags(true, false));
    } else if t.priority != priority {
      WithPriorityKeeps(v, td, priority);
    }
  }

  lemma AfterDeparture(v: Tdq, td: int)
    requires Shaped(v) && td in v.threads && SlotOf(v.threads[td]) < RQ_NQS
    ensures td in Departed(v, td).threads && Departed(v, td).threads[td].place == Off
    ensures Shaped(Departed(v, td))
  {
  }

  lemma TickKeeps(v: Tdq)
    requires Inv(v)
    ensures Inv(Tick(v))
  {
  }

  lemma SleepKeeps(v: Tdq, td: int)
    requires Inv(v) && td in v.threads && v.threads[td].place == Running
    ensures Inv(Loaded(WithPlace(v, td, Off), -1))
  {
    hide RqOk;
    var t := v.threads[td].(place := Off);
    RqOther(v.realtime, Realtime, v.threads, td, t);
    RqOther(v.timeshare, Timeshare, v.threads, td, t);
    RqOther(v.lottery, LotteryQueue, v.threads, td, t);
    RqOther(v.idle, IdleQueue, v.threads, td, t);
    CountsUpdate(v.threads, td, t);
  }

  /** What tdq_choose returns is queued, and the assertions tdq_choose makes about its priority hold. */
  lemma ChosenIsQueued(v: Tdq, draw: nat, r: Option<int>)
    requires Inv(v) && Chosen(v, draw, r)
    ensures r.Some? ==> r.value in v.threads && v.threads[r.value].place == Queued
    ensures r.Some? ==>
              var t := v.threads[r.value];
              && (t.runq == Timeshare || t.runq == LotteryQueue ==> t.priority >= PRI_MIN_BATCH)
              && (t.runq == IdleQueue ==> t.priority > PRI_MAX_BATCH)
  {
    hide CountsOk, CalendarOk;
    if !AllEmpty(v.realtime) {
      HeadIsQueued(v.realtime, Realtime, v.threads, r);
    } else if !AllEmpty(v.timeshare) {
      HeadFromIsQueued(v.timeshare, Timeshare, v.threads, v.ridx, r);
    } else if v.lottery[0] != [] {
      assert SlotOk(v.lottery[0], LotteryQueue, 0, v.threads);
    } else {
      HeadIsQueued(v.idle, IdleQueue, v.threads, r);
    }
  }

  lemma HeadIsQueued(qs: Queues, rq: RqName, threads: Threads, r: Option<int>)
    requires RqOk(qs, rq, threads) && IsChoice(qs, r)
    ensures r.Some? ==> r.value in threads && threads[r.value].place == Queued && threads[r.value].runq == rq
  {
    if r.Some? {
      var p :| 0 <= p < RQ_NQS && IsFirst(qs, p) && r.value == qs[p][0];
      assert SlotOk(qs[p], rq, p, threads);
    }
  }

  lemma HeadFromIsQueued(qs: Queues, rq: RqName, threads: Threads, from: nat, r: Option<int>)
    requires RqOk(qs, rq, threads) && from < RQ_NQS && IsChoiceFrom(qs, from, r)
    ensures r.Some? ==> r.value in threads && threads[r.value].place == Queued && threads[r.value].runq == rq
  {
    if r.Some? {
      var p :| 0 <= p < RQ_NQS && IsFirstFrom(qs, from, p) && r.value == qs[p][0];
      assert SlotOk(qs[p], rq, p, threads);
    }
  }

  /** tdq_choose finds nothing exactly when no thread is queued on the CPU. */
  lemma NoneChosenIff(v: Tdq, draw: nat, r: Option<int>)
    requires Inv(v) && Chosen(v, draw, r)
    ensures r.None? <==> QueuedSet(v.threads) == {}
  {
    hide CountsOk, CalendarOk;
    if r.Some? {
      ChosenIsQueued(v, draw, r);
      assert r.value in QueuedSet(v.threads);
    } else {
      EmptyMeansNone(v.realtime, Realtime, v.threads);
      EmptyMeansNone(v.timeshare, Timeshare, v.threads);
      LotteryMeansNone(v.lottery, v.threads);
      EmptyMeansNone(v.idle, IdleQueue, v.threads);
      forall td | td in v.threads ensures v.threads[td].place != Queued {
        var rq := v.threads[td].runq;
        assert rq.Realtime? || rq.Timeshare? || rq.LotteryQueue? || rq.IdleQueue?;
      }
    }
  }

  lemma EmptyMeansNone(qs: Queues, rq: RqName, threads: Threads)
    requires RqOk(qs, rq, threads) && ThreadsOk(threads) && AllEmpty(qs)
    ensures forall td :: td in threads && threads[td].place == Queued ==> threads[td].runq != rq
  {
    forall td | td in threads && threads[td].place == Queued ensures threads[td].runq != rq {
      var q := SlotOf(threads[td]);
      assert TdOk(threads[td]) && SlotOk(qs[q], rq, q, threads);
    }
  }

  lemma LotteryMeansNone(qs: Queues, threads: Threads)
    requires RqOk(qs, LotteryQueue, threads) && qs[0] == []
    ensures forall td :: td in threads && threads[td].place == Queued ==> threads[td].runq != LotteryQueue
  {
    assert SlotOk(qs[0], LotteryQueue, 0, threads);
    forall td | td in threads && threads[td].place == Queued ensures threads[td].runq != LotteryQueue {
      assert AtSlot(threads[td], LotteryQueue, 0) <==> threads[td].runq == LotteryQueue;
    }
  }

  lemma ChooseKeeps(v: Tdq, draw: nat, r: Option<int>, v': Tdq)
    requires Inv(v) && Step(v, Choose(draw, r), v')
    ensures Inv(v')
  {
    hide QueuesOk, RqOk, CalendarOk, ThreadsOk, Chosen;
    if r.Some? {
      ChosenIsQueued(v, draw, r);
      RunqRemKeeps(v, r.value, Running);
    }
  }

  lemma YieldKeeps(v: Tdq, td: int, preempted: bool)
    requires Inv(v) && td in v.threads && v.threads[td].place == Running && v.threads[td].priority <= PRI_MAX
    ensures Inv(RunqAdd(v, td, Flags(false, preempted)))
  {
    hide QueuesOk, RqOk, CalendarOk, ThreadsOk;
    RunqAddKeeps(v, td, Flags(false, preempted));
  }

  /** Every operation keeps the accounting. */
  lemma StepKeeps(v: Tdq, op: Op, v': Tdq)
    requires Inv(v) && Step(v, op, v')
    ensures Inv(v')
  {
    hide Inv, Chosen, RunqAdd, RunqRem, Tick, Reprioritised, Departed, Arrived;
    match op
    case Add(td, t, flags) => ArrivedKeeps(v, td, t, flags);
    case Remove(td) => DepartedKeeps(v, td);
    case Choose(draw, r) => ChooseKeeps(v, draw, r, v');
    case Yield(td, preempted) => YieldKeeps(v, td, preempted);
    case Sleep(td) => SleepKeeps(v, td);
    case SetPriority(td, priority) => ReprioritisedKeeps(v, td, priority);
    case ClockTick => TickKeeps(v);
  }

  /** tdq_setup: empty queues and no threads. */
  function Empty(): Tdq {
    Tdq(0, 0, 0, 0, EmptyQueues(), EmptyQueues(), EmptyQueues(), EmptyQueues(), map[])
  }

  lemma EmptyInv()
    ensures Inv(Empty())
  {
    assert QueuedSet(map[]) == {} && RunningSet(map[]) == {} && XferableSet(map[]) == {};
  }

  ghost predicate IsRun(states: seq<Tdq>, ops: seq<Op>) {
    && |states| == |ops| + 1 && states[0] == Empty()
    && forall i :: 0 <= i < |ops| ==> Step(states[i], ops[i], states[i + 1])
  }

  /** The accounting holds in every state of every run. */
  lemma {:induction false} RunKeeps(states: seq<Tdq>, ops: seq<Op>, n: nat)
    requires IsRun(states, ops) && n <= |ops|
    ensures Inv(states[n])
    decreases n
  {
    hide Inv, Step;
    if n == 0 {
      EmptyInv();
    } else {
      RunKeeps(states, ops, n - 1);
      StepKeeps(states[n - 1], ops[n - 1], states[n]);
    }
  }

  // ----- waiting on the calendar -----

  /** `td` waits on the calendar queue and stays there through the step. */
  ghost predicate Waits(v: Tdq, td: int, v': Tdq) {
    && td in v.threads && v.threads[td].place == Queued && v.threads[td].runq == Timeshare
    && td in v'.threads && v'.threads[td].place == Queued && v'.threads[td].runq == Timeshare
    && v'.threads[td].rqindex == v.threads[td].rqindex
  }

  lemma RidxMoves(v: Tdq, op: Op, v': Tdq)
    requires Inv(v) && Step(v, op, v')
    ensures v'.ridx == v.ridx || (v'.ridx == (v.ridx + 1) % RQ_NQS && |v'.timeshare| == RQ_NQS
            && v'.timeshare[v.ridx] == [])
  {
    hide QueuesOk, CountsOk, ThreadsOk, Chosen, Added, Removed, AddTarget, Reprioritised, CalendarOk;
    if op.SetPriority? {
      ReprioritisedRidx(v, op.td, op.priority);
    }
  }

  lemma ReprioritisedRidx(v: Tdq, td: int, priority: nat)
    requires Shaped(v) && td in v.threads && priority <= PRI_MAX && SlotOf(v.threads[td]) < RQ_NQS
    ensures var v' := Reprioritised(v, td, priority);
            v'.ridx == v.ridx || (v'.ridx == (v.ridx + 1) % RQ_NQS && |v'.timeshare| == RQ_NQS
              && v'.timeshare[v.ridx] == [])
  {
    hide Removed, CalendarSlot;
    SlotWraps(v.ridx, 1);
  }

  /** The wait of a thread on the calendar queue never gets longer. */
  lemma DistanceNeverGrows(v: Tdq, op: Op, v': Tdq, td: int)
    requires Inv(v) && Step(v, op, v') && Waits(v, td, v')
    ensures v.threads[td].rqindex < RQ_NQS && v'.ridx < RQ_NQS
    ensures Distance(v'.ridx, v'.threads[td].rqindex) <= Distance(v.ridx, v.threads[td].rqindex)
  {
    hide CountsOk, Step, Tick, RunqAdd, RunqRem;
    StepKeeps(v, op, v');
    RidxMoves(v, op, v');
    var slot := v.threads[td].rqindex;
    assert TdOk(v.threads[td]);
    assert SlotOk(v'.timeshare[slot], Timeshare, slot, v'.threads);
    SlotWraps(v.ridx, 1);
  }
}
