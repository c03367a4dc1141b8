/**
 Which thread stealing finds, place by place: the first one the thief may run in the order of the
 queues, save for the one that the scan of the calendar passes over.
 */
module StealFirst {
  import opened Prelude
  import opened RunQueue
  import opened Steal
  import Model = TdqModel

  /** The thread is not pinned to its CPU, and its CPU set has the thief. */
  predicate MayRun(threads: Model.Threads, affinity: Affinity, td: int, cpu: int) {
    td in threads && threads[td].canMigrate && td in affinity && cpu in affinity[td]
  }

  /** `td` stands at some place of the queues `lo` to `hi`, and nobody before it may run on the thief. */
  ghost predicate FirstOn(qs: Queues, lo: nat, hi: nat, threads: Model.Threads, affinity: Affinity, cpu: int, td: int) {
    exists q, i :: FirstAt(qs, lo, hi, threads, affinity, cpu, td, q, i)
  }

  ghost predicate FirstAt(qs: Queues, lo: nat, hi: nat, threads: Model.Threads, affinity: Affinity, cpu: int, td: int,
                          q: int, i: int) {
    && lo <= q < hi <= |qs| && 0 <= i < |qs[q]| && qs[q][i] == td && MayRun(threads, affinity, td, cpu)
    && (forall j :: 0 <= j < i ==> !MayRun(threads, affinity, qs[q][j], cpu))
    && (forall p, j :: lo <= p < q && 0 <= j < |qs[p]| ==> !MayRun(threads, affinity, qs[p][j], cpu))
  }

  ghost predicate NobodyOn(qs: Queues, lo: nat, hi: nat, threads: Model.Threads, affinity: Affinity, cpu: int) {
    hi <= |qs| && forall q, j :: lo <= q < hi && 0 <= j < |qs[q]| ==> !MayRun(threads, affinity, qs[q][j], cpu)
  }

  lemma {:induction false} FirstPlace(s: seq<int>, threads: Model.Threads, affinity: Affinity, cpu: int)
    ensures var r := FirstTaken(s, threads, affinity, cpu);
            && (r.None? ==> forall j :: 0 <= j < |s| ==> !MayRun(threads, affinity, s[j], cpu))
            && (r.Some? ==> exists i :: 0 <= i < |s| && s[i] == r.value && MayRun(threads, affinity, s[i], cpu)
                              && forall j :: 0 <= j < i ==> !MayRun(threads, affinity, s[j], cpu))
    decreases |s|
  {
    if s != [] {
      var n := |s| - 1;
      var init := s[..n];
      FirstPlace(init, threads, affinity, cpu);
      var r := FirstTaken(init, threads, affinity, cpu);
      if r.Some? {
        var i :| 0 <= i < |init| && init[i] == r.value && MayRun(threads, affinity, init[i], cpu)
                 && forall j :: 0 <= j < i ==> !MayRun(threads, affinity, init[j], cpu);
        assert s[i] == r.value && forall j :: 0 <= j < i ==> s[j] == init[j];
      } else {
        assert forall j :: 0 <= j < n ==> s[j] == init[j];
        assert s[n] == s[|s| - 1];
      }
    }
  }

  /** The first taken of several queues in a row. */
  lemma {:induction false} FlatFirst(qs: Queues, lo: nat, hi: nat, threads: Model.Threads, affinity: Affinity, cpu: int)
    requires lo <= hi <= |qs|
    ensures var r := FirstTaken(Flat(qs, lo, hi), threads, affinity, cpu);
            && (r.None? ==> NobodyOn(qs, lo, hi, threads, affinity, cpu))
            && (r.Some? ==> FirstOn(qs, lo, hi, threads, affinity, cpu, r.value))
    decreases hi - lo
  {
    hide FirstTaken, MayRun;
    if lo == hi {
      FirstPlace([], threads, affinity, cpu);
      assert Flat(qs, lo, hi) == [];
    } else {
      FlatFirst(qs, lo, hi - 1, threads, affinity, cpu);
      FirstTakenAppend(Flat(qs, lo, hi - 1), qs[hi - 1], threads, affinity, cpu);
      FirstPlace(qs[hi - 1], threads, affinity, cpu);
      var r := FirstTaken(Flat(qs, lo, hi - 1), threads, affinity, cpu);
      if r.Some? {
        var q, i :| FirstAt(qs, lo, hi - 1, threads, affinity, cpu, r.value, q, i);
        assert FirstAt(qs, lo, hi, threads, affinity, cpu, r.value, q, i);
      } else {
        var last := qs[hi - 1];
        var t := FirstTaken(last, threads, affinity, cpu);
        if t.Some? {
          var i :| 0 <= i < |last| && last[i] == t.value && MayRun(threads, affinity, last[i], cpu)
                   && forall j :: 0 <= j < i ==> !MayRun(threads, affinity, last[j], cpu);
          assert FirstAt(qs, lo, hi, threads, affinity, cpu, t.value, hi - 1, i);
        }
      }
    }
  }

  /** runq_steal: the first thread in the order of the queues that the thief may run, if there is one. */
  lemma StealsFirst(qs: Queues, threads: Model.Threads, affinity: Affinity, cpu: int)
    requires |qs| == 64
    ensures var r := FirstTaken(Flat(qs, 0, 64), threads, affinity, cpu);
            if r.Some? then FirstOn(qs, 0, 64, threads, affinity, cpu, r.value)
            else NobodyOn(qs, 0, 64, threads, affinity, cpu)
  {
    FlatFirst(qs, 0, 64, threads, affinity, cpu);
  }

  /** Queue `f` is the first from `lo` on that is not empty. */
  ghost predicate FirstFilled(qs: Queues, lo: nat, f: int) {
    lo <= f < |qs| && qs[f] != [] && forall q :: lo <= q < f ==> qs[q] == []
  }

  /** The queues without the first thread met from `lo` on. */
  function Beheaded(qs: Queues, f: nat): Queues
    requires f < |qs| && qs[f] != []
  {
    qs[f := qs[f][1..]]
  }

  lemma {:induction false} FlatEmpty(qs: Queues, lo: nat, hi: nat)
    requires lo <= hi <= |qs| && forall q :: lo <= q < hi ==> qs[q] == []
    ensures Flat(qs, lo, hi) == []
    decreases hi - lo
  {
    if lo < hi { FlatEmpty(qs, lo, hi - 1); }
  }

  lemma {:induction false} FlatBeheaded(qs: Queues, lo: nat, hi: nat, f: nat)
    requires FirstFilled(qs, lo, f) && f < hi <= |qs|
    ensures Flat(qs, lo, hi) != [] && Flat(qs, lo, hi)[1..] == Flat(Beheaded(qs, f), lo, hi)
    decreases hi
  {
    var rest := Beheaded(qs, f);
    if hi == f + 1 {
      FlatEmpty(qs, lo, f);
      FlatEmpty(rest, lo, f);
      assert [] + qs[f] == qs[f] && [] + rest[f] == rest[f];
    } else {
      FlatBeheaded(qs, lo, hi - 1, f);
      TailOfSum(Flat(qs, lo, hi - 1), qs[hi - 1]);
    }
  }

  lemma TailOfSum(a: seq<int>, b: seq<int>)
    requires a != []
    ensures (a + b)[1..] == a[1..] + b && (a + b)[0] == a[0]
  {
  }

  /**
   runq_steal_from: where more than one thread is met from slot `start` on, it finds the first the
   thief may run behind the very first met; failing that, when `start` is not 0, the first on any
   slot.
   */
  lemma StealsPastFirst(qs: Queues, start: nat, f: nat, threads: Model.Threads, affinity: Affinity, cpu: int)
    requires |qs| == 64 && start < 64 && FirstFilled(qs, start, f) && |StealOrder(qs, start)| > 1
    ensures var r, rest := StealResult(StealOrder(qs, start), threads, affinity, cpu), Beheaded(qs, f);
            && (r.Some? && !NobodyOn(rest, start, 64, threads, affinity, cpu)
                ==> FirstOn(rest, start, 64, threads, affinity, cpu, r.value))
            && (r.Some? && NobodyOn(rest, start, 64, threads, affinity, cpu)
                ==> start != 0 && FirstOn(qs, 0, 64, threads, affinity, cpu, r.value))
            && (r.None? ==> NobodyOn(rest, start, 64, threads, affinity, cpu)
                            && (start != 0 ==> NobodyOn(qs, 0, 64, threads, affinity, cpu)))
  {
    hide FirstTaken, Flat, FirstOn, NobodyOn;
    var rest := Beheaded(qs, f);
    var a, b := Flat(qs, start, 64), if start != 0 then Flat(qs, 0, 64) else [];
    FlatBeheaded(qs, start, 64, f);
    assert (a + b)[1..] == a[1..] + b;
    FirstTakenAppend(a[1..], b, threads, affinity, cpu);
    FlatFirst(rest, start, 64, threads, affinity, cpu);
    FlatFirst(qs, 0, 64, threads, affinity, cpu);
    NobodyOrFirst(rest, start, 64, threads, affinity, cpu);
    FirstPlace([], threads, affinity, cpu);
  }

  lemma NobodyOrFirst(qs: Queues, lo: nat, hi: nat, threads: Model.Threads, affinity: Affinity, cpu: int)
    requires lo <= hi <= |qs|
    ensures NobodyOn(qs, lo, hi, threads, affinity, cpu)
       <==> FirstTaken(Flat(qs, lo, hi), threads, affinity, cpu).None?
  {
    hide FirstTaken, Flat;
    FlatFirst(qs, lo, hi, threads, affinity, cpu);
  }

  /** tdq_steal looks at the real-time queue first, then the calendar, then the idle queue. */
  lemma StealsInTurn(v: Model.Tdq, affinity: Affinity, cpu: int)
    requires Model.Shaped(v)
    ensures var r := StealFrom(v, affinity, cpu);
            if !NobodyOn(v.realtime, 0, 64, v.threads, affinity, cpu) then
              r.Some? && FirstOn(v.realtime, 0, 64, v.threads, affinity, cpu, r.value)
            else if StealResult(StealOrder(v.timeshare, v.ridx), v.threads, affinity, cpu).Some? then
              r == StealResult(StealOrder(v.timeshare, v.ridx), v.threads, affinity, cpu)
            else if !NobodyOn(v.idle, 0, 64, v.threads, affinity, cpu) then
              r.Some? && FirstOn(v.idle, 0, 64, v.threads, affinity, cpu, r.value)
            else r.None?
  {
    hide FirstTaken, Flat, FirstOn, NobodyOn, StealResult, StealOrder;
    FlatFirst(v.realtime, 0, 64, v.threads, affinity, cpu);
    FlatFirst(v.idle, 0, 64, v.threads, affinity, cpu);
    NobodyOrFirst(v.realtime, 0, 64, v.threads, affinity, cpu);
    NobodyOrFirst(v.idle, 0, 64, v.threads, affinity, cpu);
  }
}
