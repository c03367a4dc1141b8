/**
 Stealing a thread from another CPU's run queues: what each scan returns, that what it returns
 may be moved, and exactly which threads it misses.
 */
module Steal {
  import opened Prelude
  import opened RunQueue
  import Model = TdqModel

  type Affinity = map<int, set<int>>

  /** THREAD_CAN_MIGRATE and THREAD_CAN_SCHED. */
  predicate CanTake(threads: Model.Threads, affinity: Affinity, td: int, cpu: int) {
    td in threads && threads[td].canMigrate && td in affinity && cpu in affinity[td]
  }

  // ----- stealing -----

  /** The threads of the queues from slot `lo` to slot `hi`, in the order a scan meets them. */
  function Flat(qs: Queues, lo: nat, hi: nat): seq<int>
    requires lo <= hi <= |qs|
    decreases hi - lo
  {
    if lo == hi then [] else Flat(qs, lo, hi - 1) + qs[hi - 1]
  }

  lemma {:induction false} FlatMember(qs: Queues, lo: nat, hi: nat, td: int)
    requires lo <= hi <= |qs|
    ensures td in Flat(qs, lo, hi) <==> exists q :: lo <= q < hi && td in qs[q]
    decreases hi - lo
  {
    if lo < hi { FlatMember(qs, lo, hi - 1, td); }
  }

  /** The first thread of `s` that `cpu` can take. */
  function FirstTaken(s: seq<int>, threads: Model.Threads, affinity: Affinity, cpu: int): (r: Option<int>)
    ensures r.None? <==> forall i :: 0 <= i < |s| ==> !CanTake(threads, affinity, s[i], cpu)
    ensures r.Some? ==> r.value in s && CanTake(threads, affinity, r.value, cpu)
    decreases |s|
  {
    if s == [] then None
    else
      var r := FirstTaken(s[..|s| - 1], threads, affinity, cpu);
      if r.Some? then r else if CanTake(threads, affinity, s[|s| - 1], cpu) then Some(s[|s| - 1]) else None
  }

  lemma {:induction false} FirstTakenAppend(s: seq<int>, t: seq<int>, threads: Model.Threads, affinity: Affinity,
                                            cpu: int)
    ensures FirstTaken(s + t, threads, affinity, cpu)
            == if FirstTaken(s, threads, affinity, cpu).Some? then FirstTaken(s, threads, affinity, cpu)
               else FirstTaken(t, threads, affinity, cpu)
    decreases |t|
  {
    if t == [] {
      assert s + t == s;
    } else {
      FirstTakenAppend(s, t[..|t| - 1], threads, affinity, cpu);
      assert (s + t)[..|s + t| - 1] == s + t[..|t| - 1];
    }
  }

  /** runq_steal: the first thread in priority order that `cpu` can take. */
  method RunqSteal(qs: Queues, threads: Model.Threads, affinity: Affinity, cpu: int) returns (r: Option<int>)
    requires |qs| == RQ_NQS
    ensures r == FirstTaken(Flat(qs, 0, RQ_NQS), threads, affinity, cpu)
  {
    hide FirstTaken, CanTake, Flat;
    NoneInNothing(qs, threads, affinity, cpu);
    for q := 0 to RQ_NQS
      invariant FirstTaken(Flat(qs, 0, q), threads, affinity, cpu) == None
    {
      FirstTakenAppend(Flat(qs, 0, q), qs[q], threads, affinity, cpu);
      FlatNext(qs, 0, q);
      for i := 0 to |qs[q]|
        invariant FirstTaken(qs[q][0..i], threads, affinity, cpu) == None
      {
        TakenNext(qs[q], 0, i, threads, affinity, cpu);
        if CanTake(threads, affinity, qs[q][i], cpu) {
          assert qs[q][0..] == qs[q];
          TakenEarly(qs, q, threads, affinity, cpu);
          return Some(qs[q][i]);
        }
      }
      assert qs[q][0..|qs[q]|] == qs[q];
    }
    r := None;
  }

  lemma NoneInNothing(qs: Queues, threads: Model.Threads, affinity: Affinity, cpu: int)
    ensures FirstTaken(Flat(qs, 0, 0), threads, affinity, cpu) == None
    ensures forall q :: 0 <= q < |qs| ==> FirstTaken(qs[q][0..0], threads, affinity, cpu) == None
  {
  }

  lemma FlatNext(qs: Queues, lo: nat, hi: nat)
    requires lo <= hi < |qs|
    ensures Flat(qs, lo, hi + 1) == Flat(qs, lo, hi) + qs[hi]
  {
  }

  lemma {:induction false} TakenEarly(qs: Queues, q: nat, threads: Model.Threads, affinity: Affinity, cpu: int)
    requires q < |qs| && FirstTaken(Flat(qs, 0, q + 1), threads, affinity, cpu).Some?
    ensures FirstTaken(Flat(qs, 0, |qs|), threads, affinity, cpu)
            == FirstTaken(Flat(qs, 0, q + 1), threads, affinity, cpu)
    decreases |qs| - q
  {
    TakenUpTo(qs, q + 1, |qs|, threads, affinity, cpu);
  }

  lemma {:induction false} TakenUpTo(qs: Queues, p: nat, hi: nat, threads: Model.Threads, affinity: Affinity, cpu: int)
    requires p <= hi <= |qs| && FirstTaken(Flat(qs, 0, p), threads, affinity, cpu).Some?
    ensures FirstTaken(Flat(qs, 0, hi), threads, affinity, cpu) == FirstTaken(Flat(qs, 0, p), threads, affinity, cpu)
    decreases hi
  {
    if p < hi {
      TakenUpTo(qs, p, hi - 1, threads, affinity, cpu);
      FirstTakenAppend(Flat(qs, 0, hi - 1), qs[hi - 1], threads, affinity, cpu);
    }
  }

  /**
   The order in which runq_steal_from looks: from `start` to the end, then, unless that was all,
   from the beginning.
   */
  function StealOrder(qs: Queues, start: nat): seq<int>
    requires |qs| == RQ_NQS && start < RQ_NQS
  {
    Flat(qs, start, RQ_NQS) + (if start != 0 then Flat(qs, 0, RQ_NQS) else [])
  }

  /**
   What runq_steal_from finds: it never takes the very first thread it looks at, unless that
   is the only one it looks at.
   */
  function StealResult(order: seq<int>, threads: Model.Threads, affinity: Affinity, cpu: int): Option<int> {
    if order == [] then None
    else if |order| == 1 then (if CanTake(threads, affinity, order[0], cpu) then Some(order[0]) else None)
    else FirstTaken(order[1..], threads, affinity, cpu)
  }

  /** One more thread looked at, none before it having been taken. */
  lemma TakenNext(s: seq<int>, skip: nat, i: nat, threads: Model.Threads, affinity: Affinity, cpu: int)
    requires skip <= i < |s| && FirstTaken(s[skip..i], threads, affinity, cpu) == None
    ensures CanTake(threads, affinity, s[i], cpu) ==> FirstTaken(s[skip..], threads, affinity, cpu) == Some(s[i])
    ensures !CanTake(threads, affinity, s[i], cpu) ==> FirstTaken(s[skip..i + 1], threads, affinity, cpu) == None
  {
    hide CanTake;
    var p := s[skip..i + 1];
    Slices(s, skip, i);
    FirstTakenAppend(p, s[i + 1..], threads, affinity, cpu);
  }

  lemma Slices(s: seq<int>, skip: nat, i: nat)
    requires skip <= i < |s|
    ensures var p := s[skip..i + 1];
            && |p| == i + 1 - skip && p[i - skip] == s[i] && p[..i - skip] == s[skip..i]
            && p + s[i + 1..] == s[skip..]
  {
  }

  /** One scan of runq_steal_from over a list of threads, with `first` carried along. */
  method ScanSteal(s: seq<int>, first0: Option<int>, threads: Model.Threads, affinity: Affinity, cpu: int)
      returns (r: Option<int>, first: Option<int>)
    ensures r == FirstTaken(if first0.Some? || s == [] then s else s[1..], threads, affinity, cpu)
    ensures r.None? ==> first == if s == [] then first0 else Some(s[|s| - 1])
  {
    first := first0;
    ghost var skip := if first0.Some? || s == [] then 0 else 1;
    for i := 0 to |s|
      invariant first == if i == 0 then first0 else Some(s[i - 1])
      invariant i >= skip ==> FirstTaken(s[skip..i], threads, affinity, cpu) == None
    {
      if i >= skip { TakenNext(s, skip, i, threads, affinity, cpu); }
      if first.Some? && CanTake(threads, affinity, s[i], cpu) {
        return Some(s[i]), first;
      }
      first := Some(s[i]);
    }
    assert s[skip..|s|] == s[skip..];
    r := None;
  }

  /** runq_steal_from. */
  method RunqStealFrom(qs: Queues, start: nat, threads: Model.Threads, affinity: Affinity, cpu: int)
      returns (r: Option<int>)
    requires |qs| == RQ_NQS && start < RQ_NQS
    ensures r == StealResult(StealOrder(qs, start), threads, affinity, cpu)
  {
    hide FirstTaken, CanTake, Flat;
    var first;
    r, first := ScanSteal(Flat(qs, start, RQ_NQS), None, threads, affinity, cpu);
    ghost var a, b := Flat(qs, start, RQ_NQS), if start != 0 then Flat(qs, 0, RQ_NQS) else [];
    StealParts(a, b, threads, affinity, cpu);
    if r.Some? {
      return;
    }
    if start != 0 {
      r, first := ScanSteal(Flat(qs, 0, RQ_NQS), first, threads, affinity, cpu);
      if r.Some? {
        return;
      }
    }
    if first.Some? && CanTake(threads, affinity, first.value, cpu) {
      return first;
    }
    r := None;
  }

  lemma StealParts(a: seq<int>, b: seq<int>, threads: Model.Threads, affinity: Affinity, cpu: int)
    ensures StealResult(a + b, threads, affinity, cpu) ==
            if a == [] then StealResult(b, threads, affinity, cpu)
            else
              var ta, tb := FirstTaken(a[1..], threads, affinity, cpu), FirstTaken(b, threads, affinity, cpu);
              if ta.Some? then ta else if tb.Some? then tb
              else if |a + b| == 1 && CanTake(threads, affinity, a[0], cpu) then Some(a[0]) else None
  {
    if a != [] {
      assert (a + b)[1..] == a[1..] + b;
      FirstTakenAppend(a[1..], b, threads, affinity, cpu);
    } else {
      assert a + b == b;
    }
  }

  /**
   tdq_steal: real-time threads, then the calendar from the removal index on, then idle threads;
   never the lottery.
   */
  function StealFrom(v: Model.Tdq, affinity: Affinity, cpu: int): Option<int>
    requires Model.Shaped(v)
  {
    var r1 := FirstTaken(Flat(v.realtime, 0, RQ_NQS), v.threads, affinity, cpu);
    var r2 := StealResult(StealOrder(v.timeshare, v.ridx), v.threads, affinity, cpu);
    if r1.Some? then r1 else if r2.Some? then r2
    else FirstTaken(Flat(v.idle, 0, RQ_NQS), v.threads, affinity, cpu)
  }

  method TdqSteal(v: Model.Tdq, affinity: Affinity, cpu: int) returns (r: Option<int>)
    requires Model.Shaped(v)
    ensures r == StealFrom(v, affinity, cpu)
  {
    r := RunqSteal(v.realtime, v.threads, affinity, cpu);
    if r.Some? {
      return;
    }
    r := RunqStealFrom(v.timeshare, v.ridx, v.threads, affinity, cpu);
    if r.Some? {
      return;
    }
    r := RunqSteal(v.idle, v.threads, affinity, cpu);
  }

  /** A stolen thread is queued on the CPU it is stolen from, and the thief may run it. */
  lemma StealSound(v: Model.Tdq, affinity: Affinity, cpu: int)
    requires Model.Inv(v)
    ensures var r := StealFrom(v, affinity, cpu);
            r.Some? ==> r.value in v.threads && v.threads[r.value].place == Model.Queued
                        && CanTake(v.threads, affinity, r.value, cpu)
  {
    hide Model.CountsOk, Model.CalendarOk, Flat, FirstTaken, Model.SlotOk;
    var r := StealFrom(v, affinity, cpu);
    if r.Some? {
      var td := r.value;
      if td in Flat(v.realtime, 0, RQ_NQS) {
        QueuedOn(v.realtime, Model.Realtime, v.threads, 0, td);
      } else if td in Flat(v.idle, 0, RQ_NQS) {
        QueuedOn(v.idle, Model.IdleQueue, v.threads, 0, td);
      } else {
        StolenFromOrder(v, affinity, cpu);
      }
    }
  }

  lemma StolenFromOrder(v: Model.Tdq, affinity: Affinity, cpu: int)
    requires Model.Shaped(v) && Model.RqOk(v.timeshare, Model.Timeshare, v.threads)
    ensures var r := StealResult(StealOrder(v.timeshare, v.ridx), v.threads, affinity, cpu);
            r.Some? ==> r.value in v.threads && v.threads[r.value].place == Model.Queued
                        && CanTake(v.threads, affinity, r.value, cpu)
  {
    hide Flat, Model.RqOk;
    var order := StealOrder(v.timeshare, v.ridx);
    var r := StealResult(order, v.threads, affinity, cpu);
    if r.Some? {
      assert r.value in order;
      if r.value in Flat(v.timeshare, v.ridx, RQ_NQS) {
        QueuedOn(v.timeshare, Model.Timeshare, v.threads, v.ridx, r.value);
      } else {
        QueuedOn(v.timeshare, Model.Timeshare, v.threads, 0, r.value);
      }
    }
  }

  lemma QueuedOn(qs: Queues, rq: Model.RqName, threads: Model.Threads, lo: nat, td: int)
    requires Model.RqOk(qs, rq, threads) && lo <= RQ_NQS && td in Flat(qs, lo, RQ_NQS)
    ensures td in threads && threads[td].place == Model.Queued
  {
    FlatMember(qs, lo, RQ_NQS, td);
    var q :| lo <= q < RQ_NQS && td in qs[q];
    assert Model.SlotOk(qs[q], rq, q, threads);
  }

  // ----- what stealing misses -----

  /** Nothing the thief may run on a plain run queue. */
  ghost predicate NoneOn(v: Model.Tdq, rq: Model.RqName, affinity: Affinity, cpu: int) {
    forall td :: QueuedAt(v, rq, td) ==> !CanTake(v.threads, affinity, td, cpu)
  }

  /** A thread queued on `rq`. */
  predicate QueuedAt(v: Model.Tdq, rq: Model.RqName, td: int) {
    td in v.threads && Model.AtSlot(v.threads[td], rq, Model.SlotOf(v.threads[td]))
  }

  lemma QueuedIsMet(v: Model.Tdq, rq: Model.RqName, qs: Queues, td: int)
    requires |qs| == RQ_NQS
    requires Model.RqOk(qs, rq, v.threads) && Model.ThreadsOk(v.threads) && QueuedAt(v, rq, td)
    ensures td in Flat(qs, 0, RQ_NQS) && Model.SlotOf(v.threads[td]) < RQ_NQS
  {
    hide Flat, Model.SlotOk;
    FlatMember(qs, 0, RQ_NQS, td);
    assert Model.TdOk(v.threads[td]);
    var q := Model.SlotOf(v.threads[td]);
    InSlot(qs, rq, v.threads, q, td);
  }

  lemma InSlot(qs: Queues, rq: Model.RqName, threads: Model.Threads, q: nat, td: int)
    requires Model.RqOk(qs, rq, threads) && q < RQ_NQS
    ensures td in qs[q] <==> td in threads && Model.AtSlot(threads[td], rq, q)
  {
    assert Model.SlotOk(qs[q], rq, q, threads);
  }

  lemma MetIsQueued(v: Model.Tdq, rq: Model.RqName, qs: Queues, lo: nat, td: int)
    requires |qs| == RQ_NQS
    requires Model.RqOk(qs, rq, v.threads) && lo <= RQ_NQS && td in Flat(qs, lo, RQ_NQS)
    ensures QueuedAt(v, rq, td) && lo <= Model.SlotOf(v.threads[td]) < RQ_NQS
  {
    hide Flat, Model.SlotOk;
    FlatMember(qs, lo, RQ_NQS, td);
    var q :| lo <= q < RQ_NQS && td in qs[q];
    InSlot(qs, rq, v.threads, q, td);
  }

  /** A scan of all its slots meets exactly the threads queued on `rq`. */
  lemma AllMet(v: Model.Tdq, rq: Model.RqName, qs: Queues, td: int)
    requires |qs| == RQ_NQS
    requires Model.RqOk(qs, rq, v.threads) && Model.ThreadsOk(v.threads)
    ensures td in Flat(qs, 0, RQ_NQS) <==> QueuedAt(v, rq, td)
  {
    hide Flat, Model.RqOk, QueuedAt;
    if QueuedAt(v, rq, td) {
      QueuedIsMet(v, rq, qs, td);
    }
    if td in Flat(qs, 0, RQ_NQS) {
      MetIsQueued(v, rq, qs, 0, td);
    }
  }

  lemma PlainNone(v: Model.Tdq, rq: Model.RqName, qs: Queues, affinity: Affinity, cpu: int)
    requires |qs| == RQ_NQS
    requires Model.RqOk(qs, rq, v.threads) && Model.ThreadsOk(v.threads)
    ensures FirstTaken(Flat(qs, 0, RQ_NQS), v.threads, affinity, cpu).None? <==> NoneOn(v, rq, affinity, cpu)
  {
    hide Model.RqOk, Model.ThreadsOk, CanTake, Flat, QueuedAt;
    var s := Flat(qs, 0, RQ_NQS);
    forall td: int ensures td in s <==> QueuedAt(v, rq, td) {
      AllMet(v, rq, qs, td);
    }
    if NoneOn(v, rq, affinity, cpu) {
      forall i | 0 <= i < |s| ensures !CanTake(v.threads, affinity, s[i], cpu) {
        assert s[i] in s;
      }
    }
  }

  /**
   Nothing the thief may run among the calendar threads that are looked at in earnest: all but the
   first, if there are more.
   */
  ghost predicate NonePastFirst(order: seq<int>, threads: Model.Threads, affinity: Affinity, cpu: int) {
    forall i :: (if |order| == 1 then 0 else 1) <= i < |order| ==> !CanTake(threads, affinity, order[i], cpu)
  }

  lemma StealResultNone(order: seq<int>, threads: Model.Threads, affinity: Affinity, cpu: int)
    ensures StealResult(order, threads, affinity, cpu).None? <==> NonePastFirst(order, threads, affinity, cpu)
  {
    hide CanTake;
    if |order| > 1 {
      forall i | 1 <= i < |order| ensures order[i] == order[1..][i - 1] {
      }
    }
  }

  /**
   Stealing comes back empty-handed exactly when the thief may run no real-time thread, no idle
   thread, and no calendar thread past the first one met; what is on the lottery queue does not
   matter.
   */
  lemma StealNoneIff(v: Model.Tdq, affinity: Affinity, cpu: int)
    requires Model.Inv(v)
    ensures StealFrom(v, affinity, cpu).None?
       <==> NoneOn(v, Model.Realtime, affinity, cpu) && NoneOn(v, Model.IdleQueue, affinity, cpu)
            && NonePastFirst(StealOrder(v.timeshare, v.ridx), v.threads, affinity, cpu)
  {
    hide Model.ThreadsOk, Model.CountsOk, Model.SlotOk, CanTake, Flat, NoneOn, NonePastFirst, StealResult;
    PlainNone(v, Model.Realtime, v.realtime, affinity, cpu);
    PlainNone(v, Model.IdleQueue, v.idle, affinity, cpu);
    StealResultNone(StealOrder(v.timeshare, v.ridx), v.threads, affinity, cpu);
  }

  /**
   The calendar in the order of a scan that begins at slot `start`: then every thread is met at
   `start` or after, or again from the beginning.
   */
  lemma OrderMembers(qs: Queues, start: nat, td: int)
    requires |qs| == RQ_NQS && start < RQ_NQS
    ensures td in StealOrder(qs, start) <==> td in Flat(qs, 0, RQ_NQS)
  {
    hide Flat;
    FlatMember(qs, 0, RQ_NQS, td);
    FlatMember(qs, start, RQ_NQS, td);
  }

  /** The first thread met comes round again if the scan did not begin with slot 0 and met it in its first pass. */
  lemma FirstComesBack(qs: Queues, start: nat)
    requires |qs| == RQ_NQS && start < RQ_NQS
    ensures var order := StealOrder(qs, start);
            start != 0 && Flat(qs, start, RQ_NQS) != [] ==> order != [] && order[0] in order[1..]
  {
    hide Flat;
    var a, b := Flat(qs, start, RQ_NQS), Flat(qs, 0, RQ_NQS);
    if start != 0 && a != [] {
      assert a[0] in a;
      FlatMember(qs, start, RQ_NQS, a[0]);
      FlatMember(qs, 0, RQ_NQS, a[0]);
      assert (a + b)[1..] == a[1..] + b;
    }
  }

  /** Otherwise the scan meets the threads in the order of their slots, each once. */
  lemma OrderIsFlat(qs: Queues, start: nat)
    requires |qs| == RQ_NQS && start < RQ_NQS && (start == 0 || Flat(qs, start, RQ_NQS) == [])
    ensures StealOrder(qs, start) == Flat(qs, 0, RQ_NQS)
  {
    hide Flat;
    assert [] + Flat(qs, 0, RQ_NQS) == Flat(qs, 0, RQ_NQS);
    assert Flat(qs, 0, RQ_NQS) + [] == Flat(qs, 0, RQ_NQS);
  }

  ghost predicate Distinct(s: seq<int>) {
    forall i, j :: 0 <= i < j < |s| ==> s[i] != s[j]
  }

  lemma DistinctAppend(s: seq<int>, t: seq<int>)
    requires Distinct(s) && Distinct(t) && forall x :: x in s ==> x !in t
    ensures Distinct(s + t)
  {
    var u := s + t;
    forall i, j | 0 <= i < j < |u| ensures u[i] != u[j] {
      if i < |s| <= j {
        assert s[i] in s && t[j - |s|] in t;
      }
    }
  }

  lemma {:induction false} FlatDistinct(qs: Queues, rq: Model.RqName, threads: Model.Threads, hi: nat)
    requires Model.RqOk(qs, rq, threads) && hi <= RQ_NQS
    ensures Distinct(Flat(qs, 0, hi))
    decreases hi
  {
    hide Distinct;
    if hi == 0 {
      DistinctNone();
    } else {
      FlatDistinct(qs, rq, threads, hi - 1);
      SlotDistinct(qs, rq, threads, hi - 1);
      var before, slot := Flat(qs, 0, hi - 1), qs[hi - 1];
      forall td | td in before ensures td !in slot {
        FlatMember(qs, 0, hi - 1, td);
        var q :| 0 <= q < hi - 1 && td in qs[q];
        InSlot(qs, rq, threads, q, td);
        InSlot(qs, rq, threads, hi - 1, td);
      }
      DistinctAppend(Flat(qs, 0, hi - 1), qs[hi - 1]);
    }
  }

  lemma DistinctNone()
    ensures Distinct([])
  {
  }

  lemma SlotDistinct(qs: Queues, rq: Model.RqName, threads: Model.Threads, q: nat)
    requires Model.RqOk(qs, rq, threads) && q < RQ_NQS
    ensures Distinct(qs[q])
  {
    assert Model.SlotOk(qs[q], rq, q, threads);
  }

  /** The first thread a scan meets, if the scan does not come round to it again. */
  ghost predicate MetOnce(qs: Queues, start: nat, td: int)
    requires |qs| == RQ_NQS && start < RQ_NQS
  {
    var order := StealOrder(qs, start);
    |order| > 1 && order[0] == td && (start == 0 || Flat(qs, start, RQ_NQS) == [])
  }

  /**
   Exactly which calendar thread is missed: one the thief may run is left while nothing is
   found just when it is the first one met, is not met again, others are queued with it and the
   thief may run none of them.
   */
  lemma CalendarMissIff(v: Model.Tdq, affinity: Affinity, cpu: int, td: int)
    requires Model.Inv(v) && QueuedAt(v, Model.Timeshare, td) && CanTake(v.threads, affinity, td, cpu)
    ensures Model.Shaped(v)
    ensures StealResult(StealOrder(v.timeshare, v.ridx), v.threads, affinity, cpu).None?
       <==> MetOnce(v.timeshare, v.ridx, td)
            && forall other :: QueuedAt(v, Model.Timeshare, other) && other != td
                               ==> !CanTake(v.threads, affinity, other, cpu)
  {
    hide Model.CountsOk, Model.SlotOk, CanTake, Flat, StealResult, StealOrder, QueuedAt, FirstTaken;
    var order := StealOrder(v.timeshare, v.ridx);
    StealResultNone(order, v.threads, affinity, cpu);
    if NonePastFirst(order, v.threads, affinity, cpu) {
      MissedIsFirst(v, affinity, cpu, td);
    } else if MetOnce(v.timeshare, v.ridx, td) {
      TakeableIsNotMissed(v, affinity, cpu, td);
    }
  }

  lemma MissedIsFirst(v: Model.Tdq, affinity: Affinity, cpu: int, td: int)
    requires Model.Inv(v) && QueuedAt(v, Model.Timeshare, td) && CanTake(v.threads, affinity, td, cpu)
    requires NonePastFirst(StealOrder(v.timeshare, v.ridx), v.threads, affinity, cpu)
    ensures MetOnce(v.timeshare, v.ridx, td)
    ensures forall other :: QueuedAt(v, Model.Timeshare, other) && other != td
                            ==> !CanTake(v.threads, affinity, other, cpu)
  {
    hide Model.CountsOk, Model.SlotOk, CanTake, Flat, StealOrder, QueuedAt;
    var order := StealOrder(v.timeshare, v.ridx);
    InOrder(v, td);
    var i :| 0 <= i < |order| && order[i] == td;
    assert i == 0 && |order| > 1;
    FirstComesBack(v.timeshare, v.ridx);
    FirstIsAlone(order, v.threads, affinity, cpu);
    forall other | QueuedAt(v, Model.Timeshare, other) && other != td
      ensures !CanTake(v.threads, affinity, other, cpu)
    {
      InOrder(v, other);
      var k :| 0 <= k < |order| && order[k] == other;
    }
  }

  lemma FirstIsAlone(order: seq<int>, threads: Model.Threads, affinity: Affinity, cpu: int)
    requires |order| > 1 && NonePastFirst(order, threads, affinity, cpu) && CanTake(threads, affinity, order[0], cpu)
    ensures order[0] !in order[1..]
  {
    forall j | 0 <= j < |order[1..]| ensures order[1..][j] != order[0] {
      assert order[1..][j] == order[j + 1];
    }
  }

  lemma InOrder(v: Model.Tdq, td: int)
    requires Model.Inv(v)
    ensures td in StealOrder(v.timeshare, v.ridx) <==> QueuedAt(v, Model.Timeshare, td)
  {
    hide Model.CountsOk, Model.SlotOk, Flat, QueuedAt, StealOrder;
    OrderMembers(v.timeshare, v.ridx, td);
    AllMet(v, Model.Timeshare, v.timeshare, td);
  }

  lemma TakeableIsNotMissed(v: Model.Tdq, affinity: Affinity, cpu: int, td: int)
    requires Model.Inv(v) && QueuedAt(v, Model.Timeshare, td) && CanTake(v.threads, affinity, td, cpu)
    requires !NonePastFirst(StealOrder(v.timeshare, v.ridx), v.threads, affinity, cpu)
    requires MetOnce(v.timeshare, v.ridx, td)
    ensures exists other :: QueuedAt(v, Model.Timeshare, other) && other != td
                            && CanTake(v.threads, affinity, other, cpu)
  {
    hide Model.CountsOk, Model.SlotOk, CanTake, Flat, QueuedAt, StealOrder;
    var order := StealOrder(v.timeshare, v.ridx);
    var i :| 1 <= i < |order| && CanTake(v.threads, affinity, order[i], cpu);
    assert order[i] in order;
    InOrder(v, order[i]);
    FlatDistinct(v.timeshare, Model.Timeshare, v.threads, RQ_NQS);
    OrderIsFlat(v.timeshare, v.ridx);
    assert order[0] != order[i];
  }

  // ----- two CPUs that keep a thread the thief may run -----

  lemma {:induction false} FlatOnly(qs: Queues, k: nat, hi: nat)
    requires hi <= |qs| && forall q :: 0 <= q < |qs| && q != k ==> qs[q] == []
    ensures Flat(qs, 0, hi) == if k < hi then qs[k] else []
    decreases hi
  {
    if hi > 0 {
      FlatOnly(qs, k, hi - 1);
    }
  }

  /** A user thread of the batch range that may run anywhere its CPU set says. */
  function Thread(isRoot: bool): Model.Td {
    Model.Td(160, true, isRoot, 0, Model.Off, Model.Realtime, 0, false)
  }

  /** A thread once it waits on the queue. */
  function Waiting(isRoot: bool): Model.Td {
    Thread(isRoot).(place := Model.Queued, xferable := true,
                    runq := if isRoot then Model.Timeshare else Model.LotteryQueue,
                    rqindex := if isRoot then 7 else 0)
  }

  function Comes(v: Model.Tdq, td: int, isRoot: bool): Model.Tdq
    requires Model.Shaped(v)
  {
    Model.Arrived(v, td, Thread(isRoot), Model.Flags(false, false))
  }

  /** A thread of root's goes to slot 7 of a fresh calendar, another to the head of the lottery queue. */
  lemma ThreadComes(v: Model.Tdq, td: int, isRoot: bool)
    requires Model.Inv(v) && td !in v.threads && v.idx == v.ridx == 0
    ensures Model.Shaped(v) && Model.Inv(Comes(v, td, isRoot))
    ensures var w := Comes(v, td, isRoot);
            && w.idx == w.ridx == 0 && w.realtime == v.realtime && w.idle == v.idle
            && w.timeshare == (if isRoot then v.timeshare[7 := v.timeshare[7] + [td]] else v.timeshare)
            && w.threads == v.threads[td := Waiting(isRoot)]
  {
    hide Model.RqOk, Model.CountsOk, Model.ThreadsOk;
    Model.ArrivedKeeps(v, td, Thread(isRoot), Model.Flags(false, false));
    SlotSeven();
  }

  lemma SlotSeven()
    ensures Model.CalendarSlot(0, 0, 160) == 7
  {
  }

  /** Threads 1 and 2 of root's, waiting in that order. */
  lemma TwoWait() returns (v: Model.Tdq)
    ensures Model.Inv(v) && v.ridx == 0 && v.timeshare == EmptyQueues()[7 := [1, 2]]
    ensures v.threads == map[1 := Waiting(true), 2 := Waiting(true)]
  {
    hide Model.Inv, Comes, Model.Shaped;
    Model.EmptyInv();
    var none := Model.Empty();
    ThreadComes(none, 1, true);
    var one := Comes(none, 1, true);
    ThreadComes(one, 2, true);
    v := Comes(one, 2, true);
    assert EmptyQueues()[7] == [];
    assert EmptyQueues()[7 := [1]][7 := [1, 2]] == EmptyQueues()[7 := [1, 2]];
    assert [] + [1] == [1] && [1] + [2] == [1, 2];
  }

  /** Two calendar threads on one slot, of which the thief may run the first only: it finds nothing. */
  lemma CalendarMissWitness() returns (v: Model.Tdq, affinity: Affinity)
    ensures Model.Inv(v) && Model.Shaped(v)
    ensures QueuedAt(v, Model.Timeshare, 1) && CanTake(v.threads, affinity, 1, 0)
    ensures StealResult(StealOrder(v.timeshare, v.ridx), v.threads, affinity, 0) == None
    ensures StealFrom(v, affinity, 0) == None
  {
    hide Model.Inv, Model.Shaped, StealFrom;
    v := TwoWait();
    affinity := map[1 := {0}];
    InvShaped(v);
    FlatOnly(v.timeshare, 7, RQ_NQS);
    assert v.timeshare[7] == [1, 2];
    OrderIsFlat(v.timeshare, 0);
    assert [1, 2][1..] == [2];
    NothingElse(v, affinity);
  }

  lemma InvShaped(v: Model.Tdq)
    requires Model.Inv(v)
    ensures Model.Shaped(v)
  {
  }

  lemma NothingElse(v: Model.Tdq, affinity: Affinity)
    requires Model.Inv(v) && v.threads == map[1 := Waiting(true), 2 := Waiting(true)] && affinity == map[1 := {0}]
    requires Model.Shaped(v) && StealOrder(v.timeshare, v.ridx) == [1, 2]
    ensures StealResult(StealOrder(v.timeshare, v.ridx), v.threads, affinity, 0) == None
    ensures StealFrom(v, affinity, 0) == None
  {
    hide Model.Inv, StealFrom, StealOrder;
    StealResultNone([1, 2], v.threads, affinity, 0);
    StealNoneIff(v, affinity, 0);
  }

  /** A thread on the lottery queue only, which the thief may run: it finds nothing. */
  lemma LotteryMissWitness() returns (v: Model.Tdq, affinity: Affinity)
    ensures Model.Inv(v) && Model.Shaped(v)
    ensures QueuedAt(v, Model.LotteryQueue, 1) && CanTake(v.threads, affinity, 1, 0)
    ensures StealFrom(v, affinity, 0) == None
  {
    hide Model.Inv, Model.Shaped, StealFrom, StealOrder, Flat, EmptyQueues;
    v := OneWaits();
    affinity := map[1 := {0}];
    InvShaped(v);
    NothingFlat();
    LotteryOnly(v, affinity);
  }

  lemma NothingFlat()
    ensures StealOrder(EmptyQueues(), 0) == []
  {
    hide Flat;
    FlatOnly(EmptyQueues(), 0, RQ_NQS);
    OrderIsFlat(EmptyQueues(), 0);
  }

  lemma OneWaits() returns (v: Model.Tdq)
    ensures Model.Inv(v) && v.ridx == 0 && v.timeshare == EmptyQueues() && v.threads == map[1 := Waiting(false)]
  {
    hide Model.Inv, Comes, Model.Shaped;
    Model.EmptyInv();
    var none := Model.Empty();
    ThreadComes(none, 1, false);
    v := Comes(none, 1, false);
  }

  lemma LotteryOnly(v: Model.Tdq, affinity: Affinity)
    requires Model.Inv(v) && v.threads == map[1 := Waiting(false)] && Model.Shaped(v)
             && StealOrder(v.timeshare, v.ridx) == []
    ensures StealFrom(v, affinity, 0) == None
  {
    hide Model.Inv, StealFrom, StealOrder;
    StealNoneIff(v, affinity, 0);
  }
}
