/**
 One CPU's scheduler state, changed in place: four run queues, the calendar indices, the
 load and transferable counts, and the scheduling fields of its threads.  Every method is
 proved to do what its function on `TdqModel.Tdq` says; the properties of whole runs are
 proved of those functions.
 */
module Tdq {
  import opened Prelude
  import opened RunQueue
  import opened Lottery
  import Model = TdqModel

  class Cpu {
    var load: int
    var transferable: int
    var idx: nat
    var ridx: nat
    const realtime: Runq
    const timeshare: Runq
    const lottery: Runq
    const idle: Runq
    var threads: Model.Threads

    /** The run queues are sound and share no memory. */
    ghost predicate Ready()
      reads this, realtime, timeshare, lottery, idle, Arrays()
    {
      && idx < RQ_NQS && ridx < RQ_NQS
      && realtime.Valid() && timeshare.Valid() && lottery.Valid() && idle.Valid()
      && realtime.words != timeshare.words && realtime.words != lottery.words && realtime.words != idle.words
      && timeshare.words != lottery.words && timeshare.words != idle.words && lottery.words != idle.words
      && realtime.queues != timeshare.queues && realtime.queues != lottery.queues && realtime.queues != idle.queues
      && timeshare.queues != lottery.queues && timeshare.queues != idle.queues && lottery.queues != idle.queues
    }

    ghost function Arrays(): set<object> {
      {realtime.words as object, timeshare.words as object, lottery.words as object, idle.words as object,
       realtime.queues as object, timeshare.queues as object, lottery.queues as object, idle.queues as object}
    }

    ghost function Value(): (v: Model.Tdq)
      reads this, Arrays()
      ensures Ready() ==> Model.Shaped(v)
    {
      Model.Tdq(load, transferable, idx, ridx,
                realtime.Value(), timeshare.Value(), lottery.Value(), idle.Value(), threads)
    }

    /** tdq_setup. */
    constructor (bpw: nat, len: nat)
      requires bpw > 0 && len * bpw == RQ_NQS
      ensures Ready() && Value() == Model.Empty()
    {
      realtime := new Runq(bpw, len);
      timeshare := new Runq(bpw, len);
      idle := new Runq(bpw, len);
      lottery := new Runq(bpw, len);
      load, transferable, idx, ridx, threads := 0, 0, 0, 0, map[];
    }

    /** The slot of an ordinary add: the scaled priority from idx on, one short of going all the way round. */
    method InsertSlot(pri: nat) returns (slot: nat)
      requires idx < RQ_NQS && ridx < RQ_NQS && Model.PRI_MIN_BATCH <= pri <= Model.PRI_MAX_BATCH
      ensures slot == Model.CalendarSlot(idx, ridx, pri) && slot < RQ_NQS
    {
      slot := RQ_NQS * (pri - Model.PRI_MIN_BATCH) / Model.PRI_BATCH_RANGE;
      slot := (slot + idx) % RQ_NQS;
      if ridx != idx && slot == ridx {
        slot := ((slot + 255) % 256) % RQ_NQS;
      }
    }

    /** A thread joins the named run queue. */
    method AddTo(rq: Model.RqName, slot: nat, td: int, preempted: bool)
      requires Ready() && slot < RQ_NQS && (rq == Model.LotteryQueue ==> slot == 0)
      modifies Arrays()
      ensures Ready()
      ensures var was := Model.RqOf(old(Value()), rq);
              Value() == Model.WithRq(old(Value()), rq, Added(was, slot, td, preempted || rq == Model.LotteryQueue))
    {
      hide Agrees, Added;
      match rq
      case Realtime => realtime.Add(slot, td, preempted);
      case Timeshare => timeshare.Add(slot, td, preempted);
      case LotteryQueue => lottery.LotteryAdd(td);
      case IdleQueue => idle.Add(slot, td, preempted);
    }

    /** The run queue and slot a thread is put on. */
    method ChooseTarget(t: Model.Td, flags: Model.Flags) returns (rq: Model.RqName, slot: nat)
      requires idx < RQ_NQS && ridx < RQ_NQS && Model.Shaped(Value()) && t.priority <= Model.PRI_MAX
      ensures (rq, slot) == Model.AddTarget(Value(), t, flags)
    {
      hide Model.CalendarSlot;
      var pri := t.priority;
      if pri < Model.PRI_MIN_BATCH {
        return Model.Realtime, pri / RQ_PPQ;
      } else if pri <= Model.PRI_MAX_BATCH {
        if !t.isRoot {
          return Model.LotteryQueue, 0;
        }
        slot := ridx;
        if !flags.borrowing && !flags.preempted {
          slot := InsertSlot(pri);
        }
        return Model.Timeshare, slot;
      } else {
        return Model.IdleQueue, pri / RQ_PPQ;
      }
    }

    /** tdq_runq_add. */
    method RunqAdd(td: int, flags: Model.Flags)
      requires Ready() && td in threads && threads[td].priority <= Model.PRI_MAX
      modifies this, Arrays()
      ensures Ready() && Value() == Model.RunqAdd(old(Value()), td, flags)
    {
      hide Agrees, Added, Model.RunqAdd, Model.AddTarget, Model.WithRq, Model.RqOf, Model.Shaped;
      ghost var v := Value();
      var t := threads[td];
      var rq, slot := ChooseTarget(t, flags);
      if t.canMigrate {
        transferable := transferable + 1;
        t := t.(xferable := true);
      }
      t := t.(place := Model.Queued, runq := rq, rqindex := if rq == Model.LotteryQueue then t.rqindex else slot);
      threads := threads[td := t];
      Model.RunqAddIs(v, td, flags, Value());
      AddTo(rq, slot, td, flags.preempted);
    }

    /** The removal index moves on when its slot empties, if the insert index has already left it. */
    method RemoveFromCalendar(td: int, slot: nat)
      requires Ready() && slot < RQ_NQS && td in timeshare.Value()[slot]
      modifies this`ridx, timeshare.words, timeshare.queues
      ensures Ready() && timeshare.Value() == Removed(old(timeshare.Value()), slot, td)
      ensures ridx == if idx != old(ridx) && old(ridx) == slot && timeshare.Value()[slot] == [] then (slot + 1) % RQ_NQS
                      else old(ridx)
    {
      hide Removed;
      if idx != ridx {
        var moved := timeshare.RemoveIdx(slot, td, Some(ridx));
        ridx := moved.value;
      } else {
        var moved := timeshare.RemoveIdx(slot, td, None);
      }
    }

    /** A thread leaves the named run queue. */
    method RemoveFrom(rq: Model.RqName, slot: nat, td: int)
      requires Ready() && slot < RQ_NQS && (rq == Model.LotteryQueue ==> slot == 0)
      requires td in Model.RqOf(Value(), rq)[slot]
      modifies this`ridx, Arrays()
      ensures Ready()
      ensures var qs := Removed(Model.RqOf(old(Value()), rq), slot, td);
              Value() == Model.WithRq(old(Value()), rq, qs)
                .(ridx := if rq == Model.Timeshare && idx != old(ridx) && old(ridx) == slot && qs[slot] == []
                          then (slot + 1) % RQ_NQS else old(ridx))
    {
      hide Agrees, Removed;
      if rq == Model.Timeshare {
        RemoveFromCalendar(td, slot);
      } else if rq == Model.LotteryQueue {
        lottery.LotteryRemove(td);
      } else if rq == Model.Realtime {
        var moved := realtime.RemoveIdx(slot, td, None);
      } else {
        var moved := idle.RemoveIdx(slot, td, None);
      }
    }

    /** tdq_runq_rem, of a thread that is on the queue it says it is on; it is then at `place`. */
    method RunqRem(td: int, place: Model.Place)
      requires Ready() && td in threads && Model.SlotOf(threads[td]) < RQ_NQS
      requires td in Model.RqOf(Value(), threads[td].runq)[Model.SlotOf(threads[td])]
      modifies this, Arrays()
      ensures Ready() && Value() == Model.RunqRem(old(Value()), td, place)
    {
      hide Agrees, Removed, Model.RunqRem, Model.WithRq, Model.RqOf, Model.Shaped;
      ghost var v := Value();
      var t := threads[td];
      var rq, slot := t.runq, if t.runq == Model.LotteryQueue then 0 else t.rqindex;
      if t.xferable {
        transferable := transferable - 1;
        t := t.(xferable := false);
      }
      threads := threads[td := t.(place := place)];
      Model.RunqRemIs(v, td, place, Value());
      RemoveFrom(rq, slot, td);
    }

    /** tdq_choose: real-time threads first, then the calendar, then the lottery, then idle threads. */
    method ChooseThread(draw: nat) returns (crash: bool, r: Option<int>)
      requires Ready()
      requires forall i :: 0 <= i < |lottery.Value()[0]| ==> lottery.Value()[0][i] in threads
      ensures crash <==> Model.LotteryCrashes(Value(), draw)
      ensures !crash ==> Model.Chosen(Value(), draw, r)
    {
      hide DrawOf, Tickets, IsChoice, IsChoiceFrom, Model.NiceMap, Model.AllEmpty;
      crash := false;
      r := realtime.Choose();
      Model.ChoiceSome(realtime.Value(), r);
      if r.Some? {
        return;
      }
      r := timeshare.ChooseFrom(ridx);
      Model.ChoiceFromSome(timeshare.Value(), ridx, r);
      if r.Some? {
        return;
      }
      crash, r := lottery.LotteryChoose(Model.NiceMap(threads), draw);
      if crash || r.Some? {
        return;
      }
      r := idle.Choose();
    }

    /** The calendar's part of sched_clock. */
    method Clock()
      requires Ready()
      modifies this
      ensures Ready() && Value() == Model.Tick(old(Value()))
    {
      if idx == ridx {
        idx := (idx + 1) % RQ_NQS;
        if timeshare.queues[ridx] == [] {
          ridx := idx;
        }
      }
    }

    /** tdq_add: a thread comes to this CPU's queues. */
    method AddThread(td: int, t: Model.Td, flags: Model.Flags)
      requires Ready() && t.priority <= Model.PRI_MAX
      modifies this, Arrays()
      ensures Ready() && Value() == Model.Arrived(old(Value()), td, t, flags)
    {
      threads := threads[td := t];
      RunqAdd(td, flags);
      load := load + 1;
    }

    /** sched_rem: a queued thread leaves. */
    method RemoveThread(td: int)
      requires Ready() && Model.Inv(Value()) && td in threads && threads[td].place == Model.Queued
      modifies this, Arrays()
      ensures Ready() && Model.SlotOf(old(threads)[td]) < RQ_NQS && Value() == Model.Departed(old(Value()), td)
    {
      OnItsQueue(Value(), td);
      RunqRem(td, Model.Off);
      load := load - 1;
    }

    /** sched_choose: the chosen thread leaves the queue and runs; its load stays. */
    method ChooseNext(draw: nat) returns (crash: bool, r: Option<int>)
      requires Ready() && Model.Inv(Value()) && Model.RunningSet(threads) == {}
      modifies this, Arrays()
      ensures Ready() && (crash <==> Model.LotteryCrashes(old(Value()), draw))
      ensures if crash then Value() == old(Value()) else Model.Step(old(Value()), Model.Choose(draw, r), Value())
    {
      hide Model.Chosen, Model.RunqRem, Model.LotteryCrashes, Model.Inv;
      LotteryListed(Value());
      crash, r := ChooseThread(draw);
      if !crash && r.Some? {
        Model.ChosenIsQueued(Value(), draw, r);
        OnItsQueue(Value(), r.value);
        RunqRem(r.value, Model.Running);
      }
    }

    /** sched_switch: the running thread goes back to the queue, or blocks and takes its load with it. */
    method SwitchOut(td: int, blocks: bool, preempted: bool)
      requires Ready() && td in threads && threads[td].place == Model.Running && threads[td].priority <= Model.PRI_MAX
      modifies this, Arrays()
      ensures Ready()
      ensures Model.Step(old(Value()), if blocks then Model.Sleep(td) else Model.Yield(td, preempted), Value())
    {
      if blocks {
        threads := threads[td := threads[td].(place := Model.Off)];
        load := load - 1;
      } else {
        RunqAdd(td, Model.Flags(false, preempted));
      }
    }

    /** sched_thread_priority, when the thread stays on this CPU. */
    method ThreadPriority(td: int, priority: nat)
      requires Ready() && Model.Inv(Value()) && td in threads && priority <= Model.PRI_MAX
      requires Model.SlotOf(threads[td]) < RQ_NQS
      modifies this, Arrays()
      ensures Ready() && Value() == Model.Reprioritised(old(Value()), td, priority)
    {
      if threads[td].priority == priority {
        return;
      }
      if threads[td].place == Model.Queued && priority < threads[td].priority {
        RemoveThread(td);
        threads := threads[td := threads[td].(priority := priority)];
        AddThread(td, threads[td], Model.Flags(true, false));
        return;
      }
      threads := threads[td := threads[td].(priority := priority)];
    }
  }

  /** A queued thread is where ts_runq and td_rqindex say. */
  lemma OnItsQueue(v: Model.Tdq, td: int)
    requires Model.Inv(v) && td in v.threads && v.threads[td].place == Model.Queued
    ensures Model.SlotOf(v.threads[td]) < RQ_NQS
    ensures td in Model.RqOf(v, v.threads[td].runq)[Model.SlotOf(v.threads[td])]
  {
    var t := v.threads[td];
    assert Model.TdOk(t);
    assert Model.SlotOk(Model.RqOf(v, t.runq)[Model.SlotOf(t)], t.runq, Model.SlotOf(t), v.threads);
  }

  lemma LotteryListed(v: Model.Tdq)
    requires Model.Inv(v)
    ensures forall i :: 0 <= i < |v.lottery[0]| ==> v.lottery[0][i] in v.threads
  {
    assert Model.SlotOk(v.lottery[0], Model.LotteryQueue, 0, v.threads);
  }

  /** While no thread has a negative nice value, no draw crashes the lottery. */
  lemma NiceNeverCrashes(v: Model.Tdq, draw: nat)
    requires Model.Inv(v) && forall td :: td in v.threads ==> v.threads[td].nice >= 0
    ensures !Model.LotteryCrashes(v, draw)
  {
    hide Model.CountsOk, Model.ThreadsOk, Model.CalendarOk, DrawOf;
    LotteryListed(v);
    if v.lottery[0] != [] {
      var w := Tickets(v.lottery[0], Model.NiceMap(v.threads));
      forall i | 0 <= i < |w| ensures w[i] >= 1 {
        var td := v.lottery[0][i];
        assert td in v.threads;
        assert w[i] == Model.NiceMap(v.threads)[td] + 1;
      }
      SumGrows(w, 0, |w| - 1);
      CrashIff(w, draw);
    }
  }
}
