/**
 The long-term load balancer: it pairs the most loaded CPU with a less loaded one, moves one
 thread, and goes on with shrinking sets of CPUs that may still give or take.
 */
module Balance {
  import opened Prelude
  import opened RunQueue
  import opened Steal
  import Model = TdqModel
  import TdqOrder
  import CpuSearch

  /** The size of a cpuset_t. */
  const CPU_SETSIZE := 256

  // ----- moving one thread -----

  /** sched_rem from one CPU and tdq_add to the other (SRQ_YIELDING). */
  function MovedFrom(from: Model.Tdq, td: int): (v: Model.Tdq)
    requires Model.Shaped(from) && td in from.threads && Model.SlotOf(from.threads[td]) < RQ_NQS
    ensures Model.Shaped(v)
  {
    Model.Departed(from, td)
  }

  function MovedTo(from: Model.Tdq, to: Model.Tdq, td: int): Model.Tdq
    requires Model.Shaped(from) && Model.Shaped(to) && td in from.threads && from.threads[td].priority <= Model.PRI_MAX
  {
    Model.Arrived(to, td, from.threads[td].(place := Model.Off, xferable := false), Model.Flags(false, false))
  }

  /**
   A move takes the thread out of one CPU's queue and puts it where a newcomer of its priority goes
   on the other, with its priority, its niceness and its owner.
   */
  lemma MoveCarries(from: Model.Tdq, to: Model.Tdq, td: int)
    requires Model.Inv(from) && Model.Inv(to) && td in from.threads && from.threads[td].place == Model.Queued
    ensures Model.Shaped(from) && Model.Shaped(to) && from.threads[td].priority <= Model.PRI_MAX
    ensures Model.SlotOf(from.threads[td]) < RQ_NQS
    ensures var a, b, t := MovedFrom(from, td), MovedTo(from, to, td), from.threads[td];
            && a.load == from.load - 1 && b.load == to.load + 1
            && TdqOrder.IsWithout(from, td, a) && a.threads[td].place == Model.Off
            && TdqOrder.Placed(to, b, td, t.(place := Model.Off, xferable := false), Model.Flags(false, false))
            && td in b.threads && b.threads[td].place == Model.Queued && b.threads[td].priority == t.priority
            && b.threads[td].nice == t.nice && b.threads[td].isRoot == t.isRoot
            && b.threads[td].canMigrate == t.canMigrate
  {
    hide Model.Inv, TdqOrder.Placed, TdqOrder.IsWithout, Model.RunqAdd, Model.RunqRem;
    TdqOrder.InvParts(from);
    TdqOrder.InvParts(to);
    ThreadFits(from, td);
    TdqOrder.OnQueue(from, td);
    TdqOrder.RemTakesOut(from, td, Model.Off);
    TdqOrder.ArrivalPlaces(to, td, from.threads[td].(place := Model.Off, xferable := false), Model.Flags(false, false));
  }

  lemma ThreadFits(v: Model.Tdq, td: int)
    requires Model.Inv(v) && td in v.threads && v.threads[td].place == Model.Queued
    ensures v.threads[td].priority <= Model.PRI_MAX && Model.SlotOf(v.threads[td]) < RQ_NQS
  {
    assert Model.TdOk(v.threads[td]);
  }

  function Live(v: Model.Tdq): set<int> {
    Model.QueuedSet(v.threads) + Model.RunningSet(v.threads)
  }

  lemma MoveKeeps(from: Model.Tdq, to: Model.Tdq, td: int)
    requires Model.Inv(from) && Model.Inv(to) && td in from.threads && from.threads[td].place == Model.Queued
    requires td !in Live(to)
    ensures Model.SlotOf(from.threads[td]) < RQ_NQS && from.threads[td].priority <= Model.PRI_MAX
    ensures td in Model.QueuedSet(from.threads) && td !in Model.RunningSet(from.threads)
    ensures var f, t := MovedFrom(from, td), MovedTo(from, to, td);
      && Model.Inv(f) && Model.Inv(t)
      && f.load == from.load - 1 && t.load == to.load + 1
      && Model.QueuedSet(f.threads) == Model.QueuedSet(from.threads) - {td}
      && Model.QueuedSet(t.threads) == Model.QueuedSet(to.threads) + {td}
      && Model.RunningSet(f.threads) == Model.RunningSet(from.threads)
      && Model.RunningSet(t.threads) == Model.RunningSet(to.threads)
  {
    hide Model.Inv, Model.Departed, Model.Arrived, Model.QueuedSet, Model.RunningSet, Model.AddTarget;
    QueuedFacts(from, td);
    NotLive(to, td);
    Model.DepartedKeeps(from, td);
    var t := from.threads[td].(place := Model.Off, xferable := false);
    Model.ArrivedKeeps(to, td, t, Model.Flags(false, false));
    DepartedSets(from, td);
    ArrivedSets(to, td, t);
  }

  lemma QueuedFacts(v: Model.Tdq, td: int)
    requires Model.Inv(v) && td in v.threads && v.threads[td].place == Model.Queued
    ensures Model.Shaped(v) && Model.TdOk(v.threads[td])
    ensures td in Model.QueuedSet(v.threads) && td !in Model.RunningSet(v.threads)
  {
  }

  lemma NotLive(v: Model.Tdq, td: int)
    requires Model.Inv(v) && td !in Live(v)
    ensures td in v.threads ==> v.threads[td].place == Model.Off
    ensures td !in Model.QueuedSet(v.threads) && td !in Model.RunningSet(v.threads)
    ensures Model.Shaped(v)
  {
    if td in v.threads {
      var p := v.threads[td].place;
      assert p.Queued? || p.Running? || p.Off?;
    }
  }

  lemma DepartedSets(v: Model.Tdq, td: int)
    requires Model.Shaped(v) && td in v.threads && v.threads[td].place == Model.Queued
             && Model.SlotOf(v.threads[td]) < RQ_NQS
    ensures var v' := Model.Departed(v, td);
      && v'.load == v.load - 1
      && Model.QueuedSet(v'.threads) == Model.QueuedSet(v.threads) - {td}
      && Model.RunningSet(v'.threads) == Model.RunningSet(v.threads)
  {
    var t := Model.Departed(v, td).threads[td];
    Model.SetsUpdate(v.threads, td, t);
  }

  lemma ArrivedSets(v: Model.Tdq, td: int, t: Model.Td)
    requires Model.Shaped(v) && t.priority <= Model.PRI_MAX && td !in Model.RunningSet(v.threads)
    ensures var v' := Model.Arrived(v, td, t, Model.Flags(false, false));
      && v'.load == v.load + 1
      && Model.QueuedSet(v'.threads) == Model.QueuedSet(v.threads) + {td}
      && Model.RunningSet(v'.threads) == Model.RunningSet(v.threads)
  {
    hide Model.CalendarSlot, Added;
    var t' := Model.Arrived(v, td, t, Model.Flags(false, false)).threads[td];
    assert Model.Arrived(v, td, t, Model.Flags(false, false)).threads == v.threads[td := t'];
    Model.SetsUpdate(v.threads, td, t');
  }

  // ----- all CPUs -----

  type Tdqs = seq<Model.Tdq>

  /** Every CPU's accounting is right, and no thread is on two CPUs. */
  ghost predicate Sound(ts: Tdqs) {
    && (forall c :: 0 <= c < |ts| ==> Model.Inv(ts[c]))
    && (forall c, d :: 0 <= c < d < |ts| ==> Live(ts[c]) !! Live(ts[d]))
  }

  ghost function QueuedAnywhere(ts: Tdqs): set<int> {
    set c, td | 0 <= c < |ts| && td in Model.QueuedSet(ts[c].threads) :: td
  }

  ghost function TotalLoad(ts: Tdqs): int {
    if ts == [] then 0 else TotalLoad(ts[..|ts| - 1]) + ts[|ts| - 1].load
  }

  ghost function SumSquares(ts: Tdqs): int {
    if ts == [] then 0 else SumSquares(ts[..|ts| - 1]) + ts[|ts| - 1].load * ts[|ts| - 1].load
  }

  ghost predicate AtMost(ts: Tdqs, m: int) {
    forall c :: 0 <= c < |ts| ==> ts[c].load <= m
  }

  lemma {:induction false} SumsUpdate(ts: Tdqs, c: nat, v: Model.Tdq)
    requires c < |ts|
    ensures TotalLoad(ts[c := v]) == TotalLoad(ts) - ts[c].load + v.load
    ensures SumSquares(ts[c := v]) == SumSquares(ts) - ts[c].load * ts[c].load + v.load * v.load
    decreases |ts|
  {
    var n := |ts| - 1;
    if c < n {
      SumsUpdate(ts[..n], c, v);
      assert ts[c := v][..n] == ts[..n][c := v];
    } else {
      assert ts[c := v][..n] == ts[..n];
    }
  }

  function Moved(ts: Tdqs, h: nat, l: nat, td: int): Tdqs
    requires h < |ts| && l < |ts| && Model.Shaped(ts[h]) && Model.Shaped(ts[l]) && td in ts[h].threads
    requires Model.SlotOf(ts[h].threads[td]) < RQ_NQS && ts[h].threads[td].priority <= Model.PRI_MAX
  {
    ts[h := MovedFrom(ts[h], td)][l := MovedTo(ts[h], ts[l], td)]
  }

  /** A thread that may be moved from CPU `h` to CPU `l`. */
  ghost predicate Movable(ts: Tdqs, h: nat, l: nat, td: int)
    requires Sound(ts)
  {
    && h < |ts| && l < |ts| && h != l && ts[h].load > ts[l].load
    && td in ts[h].threads && ts[h].threads[td].place == Model.Queued
  }

  /** `ts'` is `ts` after moving `td`, which `l` may run, from `h` to `l`. */
  ghost predicate MovedBy(ts: Tdqs, h: nat, l: nat, td: int, affinity: Affinity, ts': Tdqs)
    requires Sound(ts)
  {
    && Movable(ts, h, l, td) && CanTake(ts[h].threads, affinity, td, l)
    && Model.Shaped(ts[h]) && Model.Shaped(ts[l])
    && Model.SlotOf(ts[h].threads[td]) < RQ_NQS && ts[h].threads[td].priority <= Model.PRI_MAX
    && ts' == Moved(ts, h, l, td)
  }

  lemma MovableFits(ts: Tdqs, h: nat, l: nat, td: int)
    requires Sound(ts) && Movable(ts, h, l, td)
    ensures Model.Shaped(ts[h]) && Model.Shaped(ts[l])
    ensures Model.SlotOf(ts[h].threads[td]) < RQ_NQS && ts[h].threads[td].priority <= Model.PRI_MAX
    ensures td in Live(ts[h]) && td !in Live(ts[l])
  {
    assert Model.Inv(ts[h]) && Model.Inv(ts[l]);
    assert Model.TdOk(ts[h].threads[td]);
    assert td in Live(ts[h]);
    assert Live(ts[h]) !! Live(ts[l]);
  }

  ghost predicate LoadsFollow(ts0: Tdqs, ts: Tdqs, donors: set<int>, receivers: set<int>)
    requires |ts| == |ts0|
  {
    forall c :: 0 <= c < |ts| ==>
      ts[c].load == ts0[c].load - (if c in donors then 1 else 0) + (if c in receivers then 1 else 0)
  }

  /** What the balancer has done since `ts0`: each donor gave one thread, each receiver took one. */
  ghost predicate Balanced(ts0: Tdqs, ts: Tdqs, donors: set<int>, receivers: set<int>) {
    && |ts| == |ts0| && Sound(ts)
    && donors !! receivers && |donors| == |receivers|
    && LoadsFollow(ts0, ts, donors, receivers)
    && QueuedAnywhere(ts) == QueuedAnywhere(ts0)
    && (forall c :: 0 <= c < |ts| ==> Model.RunningSet(ts[c].threads) == Model.RunningSet(ts0[c].threads))
    && TotalLoad(ts) == TotalLoad(ts0)
    && SumSquares(ts) <= SumSquares(ts0)
    && (forall m :: AtMost(ts0, m) ==> AtMost(ts, m))
  }

  lemma MoveSound(ts: Tdqs, h: nat, l: nat, td: int)
    requires Sound(ts) && Movable(ts, h, l, td)
    ensures Model.Shaped(ts[h]) && Model.Shaped(ts[l])
    ensures Model.SlotOf(ts[h].threads[td]) < RQ_NQS && ts[h].threads[td].priority <= Model.PRI_MAX
    ensures var ts' := Moved(ts, h, l, td);
      && Sound(ts') && QueuedAnywhere(ts') == QueuedAnywhere(ts)
      && ts'[h].load == ts[h].load - 1 && ts'[l].load == ts[l].load + 1
      && forall c :: 0 <= c < |ts| ==> Model.RunningSet(ts'[c].threads) == Model.RunningSet(ts[c].threads)
  {
    hide Model.Inv, MovedFrom, MovedTo, Model.QueuedSet, Model.RunningSet;
    MovableFits(ts, h, l, td);
    assert Model.Inv(ts[h]) && Model.Inv(ts[l]);
    MoveKeeps(ts[h], ts[l], td);
    var ts' := Moved(ts, h, l, td);
    forall c, d | 0 <= c < d < |ts'| ensures Live(ts'[c]) !! Live(ts'[d]) {
      assert Live(ts[c]) !! Live(ts[d]);
      LiveApart(ts, h, td, c);
      LiveApart(ts, h, td, d);
    }
    forall x: int ensures x in QueuedAnywhere(ts') <==> x in QueuedAnywhere(ts) {
      StillQueued(ts, ts', h, l, td, x);
    }
  }

  /** The moved thread is live on its own CPU only. */
  lemma LiveApart(ts: Tdqs, h: nat, td: int, c: nat)
    requires Sound(ts) && h < |ts| && c < |ts| && td in Live(ts[h])
    ensures c != h ==> td !in Live(ts[c])
  {
    if c < h { assert Live(ts[c]) !! Live(ts[h]); }
    if h < c { assert Live(ts[h]) !! Live(ts[c]); }
  }

  lemma StillQueued(ts: Tdqs, ts': Tdqs, h: nat, l: nat, td: int, x: int)
    requires h < |ts| && l < |ts| && h != l && |ts'| == |ts|
    requires td in Model.QueuedSet(ts[h].threads)
    requires Model.QueuedSet(ts'[h].threads) == Model.QueuedSet(ts[h].threads) - {td}
    requires Model.QueuedSet(ts'[l].threads) == Model.QueuedSet(ts[l].threads) + {td}
    requires forall c :: 0 <= c < |ts| && c != h && c != l ==> ts'[c] == ts[c]
    ensures x in QueuedAnywhere(ts') <==> x in QueuedAnywhere(ts)
  {
    if x in QueuedAnywhere(ts) {
      var c :| 0 <= c < |ts| && x in Model.QueuedSet(ts[c].threads);
      var d := if x == td then l else c;
      assert x in Model.QueuedSet(ts'[d].threads);
    }
    if x in QueuedAnywhere(ts') {
      var c :| 0 <= c < |ts| && x in Model.QueuedSet(ts'[c].threads);
      var d := if x == td then h else c;
      assert x in Model.QueuedSet(ts[d].threads);
    }
  }

  lemma MoveSums(ts: Tdqs, h: nat, l: nat, v: Model.Tdq, w: Model.Tdq)
    requires h < |ts| && l < |ts| && h != l && ts[h].load > ts[l].load
    requires v.load == ts[h].load - 1 && w.load == ts[l].load + 1
    ensures var ts' := ts[h := v][l := w];
      && TotalLoad(ts') == TotalLoad(ts) && SumSquares(ts') <= SumSquares(ts)
      && forall m :: AtMost(ts, m) ==> AtMost(ts', m)
  {
    SumsUpdate(ts, h, v);
    SumsUpdate(ts[h := v], l, w);
    SquaresShrink(ts[h].load, ts[l].load);
  }

  lemma SquaresShrink(h: int, l: int)
    requires h > l
    ensures (h - 1) * (h - 1) + (l + 1) * (l + 1) <= h * h + l * l
  {
  }

  lemma BalancedMore(ts0: Tdqs, ts: Tdqs, donors: set<int>, receivers: set<int>, h: nat, l: nat, td: int)
    requires Balanced(ts0, ts, donors, receivers) && Movable(ts, h, l, td)
    requires h !in donors + receivers && l !in donors + receivers
    ensures Model.Shaped(ts[h]) && Model.Shaped(ts[l])
    ensures Model.SlotOf(ts[h].threads[td]) < RQ_NQS && ts[h].threads[td].priority <= Model.PRI_MAX
    ensures Balanced(ts0, Moved(ts, h, l, td), donors + {h}, receivers + {l})
  {
    hide Sound, MovedFrom, MovedTo, QueuedAnywhere, AtMost, Model.RunningSet, Model.Shaped, LoadsFollow, TotalLoad,
         SumSquares;
    MoveSound(ts, h, l, td);
    var ts' := Moved(ts, h, l, td);
    MoveSums(ts, h, l, ts'[h], ts'[l]);
    LoadsFollowMore(ts0, ts, donors, receivers, h, l, ts'[h], ts'[l]);
  }

  lemma LoadsFollowMore(ts0: Tdqs, ts: Tdqs, donors: set<int>, receivers: set<int>, h: nat, l: nat, v: Model.Tdq,
                        w: Model.Tdq)
    requires |ts| == |ts0| && h < |ts| && l < |ts| && h != l && LoadsFollow(ts0, ts, donors, receivers)
    requires h !in donors + receivers && l !in donors + receivers
    requires v.load == ts[h].load - 1 && w.load == ts[l].load + 1
    ensures LoadsFollow(ts0, ts[h := v][l := w], donors + {h}, receivers + {l})
  {
  }

  lemma BalancedNothing(ts: Tdqs)
    requires Sound(ts)
    ensures Balanced(ts, ts, {}, {})
  {
  }

  /** What the search looks at; lowpri does not matter to the balancer, which asks for any priority. */
  function Infos(ts: Tdqs): (s: CpuSearch.Cpus)
    requires forall c :: 0 <= c < |ts| ==> ts[c].load >= 0
    ensures |s| == |ts|
    ensures forall c :: 0 <= c < |ts| ==> s[c] == CpuSearch.CpuInfo(ts[c].load, 0, ts[c].transferable)
  {
    seq(|ts|, c requires 0 <= c < |ts| => CpuSearch.CpuInfo(ts[c].load, 0, ts[c].transferable))
  }

  lemma LoadsCount(ts: Tdqs)
    requires Sound(ts)
    ensures forall c :: 0 <= c < |ts| ==> ts[c].load >= 0
  {
    forall c | 0 <= c < |ts| ensures ts[c].load >= 0 { assert Model.Inv(ts[c]); }
  }

  /** What a successful search for a giver or a taker guarantees. */
  lemma {:induction false} HighFound(ts: Tdqs, g: CpuSearch.Group, mask: set<int>, cpu: int)
    requires forall c :: 0 <= c < |ts| ==> ts[c].load >= 0
    requires CpuSearch.GroupOk(g, |ts|) && cpu >= 0
    requires CpuSearch.Found(Infos(ts), None, CpuSearch.Request(CpuSearch.Highest, mask, 0, 2), g, cpu)
    ensures cpu < |ts| && cpu in mask && MayBeHigh(ts, g.mask, cpu)
  {
  }

  lemma {:induction false} LowFound(ts: Tdqs, g: CpuSearch.Group, mask: set<int>, limit: int, prefer: int, cpu: int)
    requires forall c :: 0 <= c < |ts| ==> ts[c].load >= 0
    requires CpuSearch.GroupOk(g, |ts|) && cpu >= 0
    requires CpuSearch.Found(Infos(ts), Some(prefer), CpuSearch.Request(CpuSearch.Lowest, mask, -1, limit), g, cpu)
    ensures cpu < |ts| && cpu in mask && cpu in g.mask && ts[cpu].load <= limit
  {
  }

  // ----- the turns of the balancer -----

  /** Whether CPU `h` has a thread to give to the less loaded CPU `l`. */
  predicate MayGive(ts: Tdqs, affinity: Affinity, h: int, l: int) {
    && 0 <= h < |ts| && 0 <= l < |ts| && h != l && Model.Shaped(ts[h]) && Model.Shaped(ts[l])
    && ts[h].transferable != 0 && ts[h].load > ts[l].load && StealFrom(ts[h], affinity, l).Some?
  }

  /** The thread `l` would steal from `h`. */
  function Stolen(ts: Tdqs, affinity: Affinity, h: int, l: int): int
    requires MayGive(ts, affinity, h, l)
  {
    StealFrom(ts[h], affinity, l).value
  }

  /** One turn of sched_balance_group: CPU `high` was to give, and CPU `low` took, if any could. */
  datatype Turn = Turn(high: int, low: Option<int>)

  /** The CPUs that turns leave out of the search for givers: those that were to give, and those that took. */
  ghost function Out(log: seq<Turn>): set<int> {
    if log == [] then {} else
      var t := log[|log| - 1];
      Out(log[..|log| - 1]) + {t.high} + (if t.low.Some? then {t.low.value} else {})
  }

  ghost predicate MayBeHigh(ts: Tdqs, mask: set<int>, h: int) {
    0 <= h < |ts| && h in mask && ts[h].load >= 2 && ts[h].transferable != 0
  }

  /** A turn goes to a CPU that was not left out, and nobody takes only if nobody left could. */
  ghost predicate TurnOk(ts: Tdqs, mask: set<int>, affinity: Affinity, out: set<int>, t: Turn) {
    && MayBeHigh(ts, mask, t.high) && t.high !in out
    && match t.low
       case Some(l) => l in mask && l !in out && MayGive(ts, affinity, t.high, l)
       case None => forall l :: l in mask && l !in out ==> !MayGive(ts, affinity, t.high, l)
  }

  ghost predicate Turns(ts: Tdqs, mask: set<int>, affinity: Affinity, log: seq<Turn>) {
    log == [] || (Turns(ts, mask, affinity, log[..|log| - 1])
                  && TurnOk(ts, mask, affinity, Out(log[..|log| - 1]), log[|log| - 1]))
  }

  /** The CPUs after a turn, from those before it. */
  ghost predicate Took(ts: Tdqs, t: Turn, affinity: Affinity, ts': Tdqs) {
    match t.low
    case None => ts' == ts
    case Some(l) => MayGive(ts, affinity, t.high, l) && Sound(ts)
                    && MovedBy(ts, t.high, l, Stolen(ts, affinity, t.high, l), affinity, ts')
  }

  ghost function AllCpus(): set<int> {
    set c {:trigger IsCpu(c)} | 0 <= c < CPU_SETSIZE && IsCpu(c)
  }

  /** The CPUs no turn has left out. */
  ghost function Left(log: seq<Turn>): set<int> {
    AllCpus() - Out(log)
  }

  /** CPU `h` is the one sched_highest prefers, among those of `mask`. */
  ghost predicate HighPreferred(ts: Tdqs, g: CpuSearch.Group, mask: set<int>, h: int) {
    && CpuSearch.GroupOk(g, |ts|) && h != -1 && (forall c :: 0 <= c < |ts| ==> ts[c].load >= 0)
    && CpuSearch.Found(Infos(ts), None, CpuSearch.Request(CpuSearch.Highest, mask, 0, 2), g, h)
  }

  /** The CPUs of `mask` that are not in `lmask` could not take from `h`. */
  ghost predicate PassedOver(ts: Tdqs, g: CpuSearch.Group, mask: set<int>, lmask: set<int>, affinity: Affinity,
                             h: int) {
    lmask <= mask && forall l :: l in g.mask && l in mask && l !in lmask ==> !MayGive(ts, affinity, h, l)
  }

  /** CPU `l` is the one sched_lowest prefers below the load of `h`, once CPUs that could not take were passed over. */
  ghost predicate LowPreferred(ts: Tdqs, g: CpuSearch.Group, mask: set<int>, affinity: Affinity, h: int, l: int) {
    && CpuSearch.GroupOk(g, |ts|) && 0 <= h < |ts| && (forall c :: 0 <= c < |ts| ==> ts[c].load >= 0)
    && exists lmask: set<int> :: PassedOver(ts, g, mask, lmask, affinity, h)
         && CpuSearch.Found(Infos(ts), Some(h), CpuSearch.Request(CpuSearch.Lowest, lmask, -1, ts[h].load - 1), g, l)
  }

  /** A turn goes to the CPUs the searches prefer as things stand. */
  ghost predicate Preferred(ts: Tdqs, g: CpuSearch.Group, left: set<int>, affinity: Affinity, t: Turn) {
    && HighPreferred(ts, g, left, t.high)
    && (t.low.Some? ==> LowPreferred(ts, g, left - {t.high}, affinity, t.high, t.low.value))
  }

  /** `states[i]` are the CPUs after the first `i` turns. */
  ghost predicate Path(states: seq<Tdqs>, log: seq<Turn>, g: CpuSearch.Group, affinity: Affinity) {
    && |states| == |log| + 1
    && (forall i :: 0 <= i < |log| ==> Took(states[i], log[i], affinity, states[i + 1]))
    && (forall i :: 0 <= i < |log| ==> Preferred(states[i], g, Left(log[..i]), affinity, log[i]))
  }

  /** The CPUs `ts0` become `ts` by the turns of `log`, one after the other. */
  ghost predicate Outcome(ts0: Tdqs, log: seq<Turn>, g: CpuSearch.Group, affinity: Affinity, ts: Tdqs) {
    exists states :: Path(states, log, g, affinity) && states[0] == ts0 && states[|log|] == ts
  }

  lemma OutcomeStart(ts: Tdqs, g: CpuSearch.Group, affinity: Affinity)
    ensures Outcome(ts, [], g, affinity, ts)
  {
    assert Path([ts], [], g, affinity);
  }

  lemma OutcomeTurn(ts0: Tdqs, log: seq<Turn>, g: CpuSearch.Group, affinity: Affinity, ts: Tdqs, t: Turn, ts': Tdqs)
    requires Outcome(ts0, log, g, affinity, ts) && Took(ts, t, affinity, ts')
             && Preferred(ts, g, Left(log), affinity, t)
    ensures Outcome(ts0, log + [t], g, affinity, ts')
  {
    hide Took, Preferred, Left;
    var states :| Path(states, log, g, affinity) && states[0] == ts0 && states[|log|] == ts;
    var ss, more := states + [ts'], log + [t];
    forall i | 0 <= i < |more| ensures Preferred(ss[i], g, Left(more[..i]), affinity, more[i]) {
      assert more[..i] == log[..i];
      assert log[..|log|] == log;
    }
    assert Path(ss, more, g, affinity);
  }

  /**
   Why the balancer stopped: nobody left has anything to give, or the last giver was no more loaded
   than anyone left.
   */
  ghost predicate Stopped(ts: Tdqs, mask: set<int>, log: seq<Turn>) {
    || NobodyHigh(ts, mask, Out(log))
    || (log != [] && log[|log| - 1].low.None?
        && NoneBelow(ts, mask, Out(log), log[|log| - 1].high))
  }

  ghost predicate NobodyHigh(ts: Tdqs, mask: set<int>, out: set<int>) {
    forall h :: h !in out ==> !MayBeHigh(ts, mask, h)
  }

  ghost predicate NoneBelow(ts: Tdqs, mask: set<int>, out: set<int>, h: int) {
    0 <= h < |ts| && forall l :: l in mask && l !in out && 0 <= l < |ts| ==> ts[l].load >= ts[h].load
  }

  /** The turns so far, in place: `ts` is their outcome, and a CPU not left out is as it was. */
  ghost predicate Progress(ts0: Tdqs, ts: Tdqs, g: CpuSearch.Group, affinity: Affinity, log: seq<Turn>) {
    && Turns(ts0, g.mask, affinity, log) && Outcome(ts0, log, g, affinity, ts)
    && |ts| == |ts0| && forall c :: 0 <= c < |ts| && c !in Out(log) ==> ts[c] == ts0[c]
  }

  lemma ProgressStart(ts: Tdqs, g: CpuSearch.Group, affinity: Affinity)
    ensures Progress(ts, ts, g, affinity, []) && Out([]) == {}
  {
    OutcomeStart(ts, g, affinity);
  }

  lemma ProgressTurn(ts0: Tdqs, ts: Tdqs, g: CpuSearch.Group, affinity: Affinity, log: seq<Turn>, t: Turn, ts': Tdqs)
    requires Progress(ts0, ts, g, affinity, log) && TurnOk(ts, g.mask, affinity, Out(log), t)
    requires Took(ts, t, affinity, ts') && Preferred(ts, g, Left(log), affinity, t)
    ensures Progress(ts0, ts', g, affinity, log + [t])
    ensures Out(log + [t]) == Out(log) + {t.high} + (if t.low.Some? then {t.low.value} else {})
  {
    hide TurnOk, Took, Outcome, Preferred, Left;
    assert (log + [t])[..|log|] == log;
    SameTurn(ts0, ts, g.mask, affinity, Out(log), t);
    TookElsewhere(ts, t, affinity, ts');
    OutcomeTurn(ts0, log, g, affinity, ts, t, ts');
  }

  lemma TookElsewhere(ts: Tdqs, t: Turn, affinity: Affinity, ts': Tdqs)
    requires Took(ts, t, affinity, ts')
    ensures |ts'| == |ts|
    ensures forall c :: 0 <= c < |ts| && c != t.high && (t.low.Some? ==> c != t.low.value) ==> ts'[c] == ts[c]
  {
    hide StealFrom, Sound, MovedFrom, MovedTo;
  }

  /** CPUs that are as they were give and take as they would have. */
  lemma SameTurn(ts0: Tdqs, ts: Tdqs, mask: set<int>, affinity: Affinity, out: set<int>, t: Turn)
    requires |ts| == |ts0| && forall c :: 0 <= c < |ts| && c !in out ==> ts[c] == ts0[c]
    requires TurnOk(ts, mask, affinity, out, t)
    ensures TurnOk(ts0, mask, affinity, out, t)
  {
    hide StealFrom;
  }

  lemma HighNone(ts: Tdqs, g: CpuSearch.Group, mask: set<int>)
    requires forall c :: 0 <= c < |ts| ==> ts[c].load >= 0
    requires CpuSearch.GroupOk(g, |ts|)
    requires CpuSearch.Found(Infos(ts), None, CpuSearch.Request(CpuSearch.Highest, mask, 0, 2), g, -1)
    ensures forall h :: h in g.mask && h in mask ==> !MayBeHigh(ts, g.mask, h)
  {
  }

  lemma LowNone(ts: Tdqs, g: CpuSearch.Group, mask: set<int>, limit: int, prefer: int)
    requires forall c :: 0 <= c < |ts| ==> ts[c].load >= 0
    requires CpuSearch.GroupOk(g, |ts|)
    requires CpuSearch.Found(Infos(ts), Some(prefer), CpuSearch.Request(CpuSearch.Lowest, mask, -1, limit), g, -1)
    ensures forall l :: l in g.mask && l in mask && 0 <= l < |ts| ==> ts[l].load > limit
  {
  }

  lemma PrefersLow(ts: Tdqs, g: CpuSearch.Group, mask: set<int>, lmask: set<int>, affinity: Affinity, h: int, l: int)
    requires CpuSearch.GroupOk(g, |ts|) && 0 <= h < |ts| && lmask <= mask
    requires forall c :: 0 <= c < |ts| ==> ts[c].load >= 0
    requires forall x :: x in g.mask && x in mask && x !in lmask ==> !MayGive(ts, affinity, h, x)
    requires CpuSearch.Found(Infos(ts), Some(h), CpuSearch.Request(CpuSearch.Lowest, lmask, -1, ts[h].load - 1), g, l)
    ensures LowPreferred(ts, g, mask, affinity, h, l)
  {
    hide CpuSearch.Found, CpuSearch.GroupOk, MayGive;
    assert PassedOver(ts, g, mask, lmask, affinity, h);
  }

  class Machine {
    const tdqs: array<Model.Tdq>
    const affinity: Affinity

    constructor (n: nat, affinity: Affinity)
      ensures tdqs.Length == n && fresh(tdqs) && Sound(tdqs[..])
    {
      tdqs := new Model.Tdq[n](_ => Model.Empty());
      this.affinity := affinity;
      new;
      Model.EmptyInv();
      assert Live(Model.Empty()) == {};
      assert forall c :: 0 <= c < n ==> tdqs[..][c] == Model.Empty();
    }

    /**
     sched_balance_pair and tdq_move: moves the thread `low` would steal from `high`, exactly when
     there is one to move.
     */
    method BalancePair(high: nat, low: nat) returns (moved: bool)
      requires high < tdqs.Length && low < tdqs.Length && high != low && Sound(tdqs[..])
      modifies tdqs
      ensures moved <==> MayGive(old(tdqs[..]), affinity, high, low)
      ensures var from, to := old(tdqs[high]), old(tdqs[low]);
              Model.Shaped(from) && (moved <==> from.transferable != 0 && from.load > to.load
                                                && StealFrom(from, affinity, low).Some?)
      ensures !moved ==> tdqs[..] == old(tdqs[..])
      ensures moved ==> MovedBy(old(tdqs[..]), high, low, Stolen(old(tdqs[..]), affinity, high, low), affinity,
              tdqs[..])
    {
      hide Model.Inv, MovedFrom, MovedTo, StealFrom;
      ghost var ts := tdqs[..];
      assert Model.Inv(ts[high]) && Model.Inv(ts[low]);
      IsShaped(tdqs[high]);
      IsShaped(tdqs[low]);
      if tdqs[high].transferable == 0 || tdqs[high].load <= tdqs[low].load {
        return false;
      }
      var td := TdqSteal(tdqs[high], affinity, low);
      if td.None? {
        return false;
      }
      StealSound(tdqs[high], affinity, low);
      MovableFits(ts, high, low, td.value);
      var from, to := MovedFrom(tdqs[high], td.value), MovedTo(tdqs[high], tdqs[low], td.value);
      tdqs[high] := from;
      tdqs[low] := to;
      assert MovedBy(ts, high, low, td.value, affinity, tdqs[..]);
      moved := true;
    }

    /**
     The search for a CPU to take from `high`, among those of `hmask`: less loaded ones are
     tried until one takes a thread.  `stop` says that there was no less loaded one at all.
     */
    method NextLow(g: CpuSearch.Group, high: nat, hmask: set<int>) returns (low: Option<int>, stop: bool)
      requires Sound(tdqs[..]) && CpuSearch.GroupOk(g, tdqs.Length) && high < tdqs.Length && high !in hmask
      modifies tdqs
      ensures Took(old(tdqs[..]), Turn(high, low), affinity, tdqs[..])
      ensures low.Some? ==> low.value in g.mask && low.value in hmask
                            && LowPreferred(old(tdqs[..]), g, hmask, affinity, high, low.value)
      ensures low.None? ==> forall l :: l in g.mask && l in hmask ==> !MayGive(tdqs[..], affinity, high, l)
      ensures stop ==> low.None? && forall l :: l in g.mask && l in hmask && 0 <= l < tdqs.Length
                                         ==> tdqs[l].load >= tdqs[high].load
    {
      hide CpuSearch.Found, CpuSearch.GroupOk, Sound, Infos, MayGive, MovedBy, Stolen, LowPreferred;
      ghost var ts := tdqs[..];
      LoadsCount(ts);
      var lmask, anylow := hmask, true;
      while true
        invariant tdqs[..] == ts && lmask <= hmask && (anylow ==> lmask == hmask)
        invariant forall l :: l in g.mask && l in hmask && l !in lmask ==> !MayGive(ts, affinity, high, l)
        decreases |lmask|
      {
        var l := CpuSearch.SchedLowest(g, Infos(tdqs[..]), lmask, -1, tdqs[high].load - 1, high);
        if l == -1 {
          LowNone(ts, g, lmask, ts[high].load - 1, high);
          NoneLess(ts, affinity, high);
          return None, anylow;
        }
        LowFound(ts, g, lmask, ts[high].load - 1, high, l);
        PrefersLow(ts, g, hmask, lmask, affinity, high, l);
        var moved := BalancePair(high, l);
        if moved {
          return Some(l), false;
        }
        lmask := lmask - {l};
        anylow := false;
      }
    }

    /**
     sched_balance_group.  The turns of `log` lead from the old CPUs to the new ones: each goes
     to a CPU with a thread to give that has neither given, been asked nor taken, and a thread
     moves whenever some CPU left could take one.  In one call a CPU gives at most one thread or
     takes at most one, never both; no thread is lost or doubled; and neither the greatest load
     nor the sum of the squares of the loads grows.
     */
    method BalanceGroup(g: CpuSearch.Group)
        returns (ghost log: seq<Turn>, ghost donors: set<int>, ghost receivers: set<int>)
      requires Sound(tdqs[..]) && CpuSearch.GroupOk(g, tdqs.Length) && tdqs.Length <= CPU_SETSIZE
      modifies tdqs
      ensures Balanced(old(tdqs[..]), tdqs[..], donors, receivers)
      ensures Turns(old(tdqs[..]), g.mask, affinity, log) && Outcome(old(tdqs[..]), log, g, affinity, tdqs[..])
      ensures Stopped(tdqs[..], g.mask, log)
    {
      hide CpuSearch.Found, CpuSearch.GroupOk, Sound, Infos, MayGive, Balancing, Took, MayBeHigh, Stopped, Balanced,
           Turns, Outcome, LowPreferred;
      ghost var ts0 := tdqs[..];
      donors, receivers, log := {}, {}, [];
      var hmask := set c {:trigger IsCpu(c)} | 0 <= c < CPU_SETSIZE && IsCpu(c);
      BalancingStart(ts0, g, affinity, hmask);
      while true
        invariant Balancing(ts0, tdqs[..], g, affinity, log, hmask, donors, receivers)
        decreases |hmask|
      {
        ghost var ts := tdqs[..];
        BalancingIsSound(ts0, ts, g, affinity, log, hmask, donors, receivers);
        var high := CpuSearch.SchedHighest(g, Infos(tdqs[..]), hmask, 2);
        if high == -1 {
          HighNone(ts, g, hmask);
          BalancingDry(ts0, ts, g, affinity, log, hmask, donors, receivers);
          break;
        }
        HighFound(ts, g, hmask, high);
        ghost var before := hmask;
        hmask := hmask - {high};
        if hmask == {} {
          NothingLeft(ts, high, affinity);
          BalancingTurn(ts0, ts, g, affinity, log, before, donors, receivers, Turn(high, None), ts);
          log := log + [Turn(high, None)];
          BalancingLevel(ts0, ts, g, affinity, log, hmask, donors, receivers, high);
          break;
        }
        var low, stop := NextLow(g, high, hmask);
        BalancingTurn(ts0, ts, g, affinity, log, before, donors, receivers, Turn(high, low), tdqs[..]);
        log := log + [Turn(high, low)];
        if low.Some? {
          donors, receivers := donors + {high}, receivers + {low.value};
          hmask := hmask - {low.value};
        }
        if stop {
          BalancingLevel(ts0, tdqs[..], g, affinity, log, hmask, donors, receivers, high);
          break;
        }
      }
    }
  }

  /** The loop of sched_balance_group. */
  ghost predicate Balancing(ts0: Tdqs, ts: Tdqs, g: CpuSearch.Group, affinity: Affinity, log: seq<Turn>,
                            hmask: set<int>, donors: set<int>, receivers: set<int>) {
    && Balanced(ts0, ts, donors, receivers) && hmask !! donors + receivers
    && Progress(ts0, ts, g, affinity, log) && Remaining(hmask, log) && (forall c :: c in g.mask ==> IsCpu(c))
  }

  lemma BalancingStart(ts: Tdqs, g: CpuSearch.Group, affinity: Affinity, hmask: set<int>)
    requires Sound(ts) && CpuSearch.GroupOk(g, |ts|) && |ts| <= CPU_SETSIZE && forall c :: c in hmask <==> IsCpu(c)
    ensures Balancing(ts, ts, g, affinity, [], hmask, {}, {})
  {
    hide Balanced, Progress, Sound;
    BalancedNothing(ts);
    ProgressStart(ts, g, affinity);
    MaskIsCpus(g, |ts|);
    RemainingStart(hmask);
  }

  lemma BalancingIsSound(ts0: Tdqs, ts: Tdqs, g: CpuSearch.Group, affinity: Affinity, log: seq<Turn>, hmask: set<int>,
                         donors: set<int>, receivers: set<int>)
    requires Balancing(ts0, ts, g, affinity, log, hmask, donors, receivers)
    ensures Sound(ts) && |ts| == |ts0| && forall c :: 0 <= c < |ts| ==> ts[c].load >= 0
  {
    hide Balanced, Progress, Remaining, Sound;
    BalancedIsSound(ts0, ts, donors, receivers);
  }

  lemma BalancingDry(ts0: Tdqs, ts: Tdqs, g: CpuSearch.Group, affinity: Affinity, log: seq<Turn>, hmask: set<int>,
                     donors: set<int>, receivers: set<int>)
    requires Balancing(ts0, ts, g, affinity, log, hmask, donors, receivers)
    requires forall h :: h in g.mask && h in hmask ==> !MayBeHigh(ts, g.mask, h)
    ensures Balanced(ts0, ts, donors, receivers) && Turns(ts0, g.mask, affinity, log)
            && Outcome(ts0, log, g, affinity, ts)
    ensures Stopped(ts, g.mask, log)
  {
    hide Balanced, Progress, Remaining, Stopped;
    StoppedDry(ts, g, hmask, log);
    ProgressEnds(ts0, ts, g, affinity, log);
  }

  lemma BalancingLevel(ts0: Tdqs, ts: Tdqs, g: CpuSearch.Group, affinity: Affinity, log: seq<Turn>, hmask: set<int>,
                       donors: set<int>, receivers: set<int>, high: nat)
    requires Balancing(ts0, ts, g, affinity, log, hmask, donors, receivers)
    requires log != [] && log[|log| - 1] == Turn(high, None) && high < |ts|
    requires forall l :: l in g.mask && l in hmask && 0 <= l < |ts| ==> ts[l].load >= ts[high].load
    ensures Balanced(ts0, ts, donors, receivers) && Turns(ts0, g.mask, affinity, log)
            && Outcome(ts0, log, g, affinity, ts)
    ensures Stopped(ts, g.mask, log)
  {
    hide Balanced, Progress, Remaining, Stopped;
    StoppedLevel(ts, g, hmask, log, high);
    ProgressEnds(ts0, ts, g, affinity, log);
  }

  lemma BalancingTurn(ts0: Tdqs, ts: Tdqs, g: CpuSearch.Group, affinity: Affinity, log: seq<Turn>, hmask: set<int>,
                      donors: set<int>, receivers: set<int>, t: Turn, ts': Tdqs)
    requires Balancing(ts0, ts, g, affinity, log, hmask, donors, receivers)
    requires t.high in hmask && MayBeHigh(ts, g.mask, t.high) && Took(ts, t, affinity, ts')
    requires HighPreferred(ts, g, hmask, t.high)
    requires t.low.Some? ==> t.low.value in g.mask && t.low.value in hmask - {t.high}
                             && LowPreferred(ts, g, hmask - {t.high}, affinity, t.high, t.low.value)
    requires t.low.None? ==> forall l :: l in g.mask && l in hmask - {t.high} ==> !MayGive(ts', affinity, t.high, l)
    ensures match t.low
      case None => Balancing(ts0, ts', g, affinity, log + [t], hmask - {t.high}, donors, receivers)
      case Some(l) => Balancing(ts0, ts', g, affinity, log + [t], hmask - {t.high} - {l},
                                    donors + {t.high}, receivers + {l})
  {
    hide Balanced, Progress, Remaining, MayBeHigh, Took, MayGive, Out, TurnOk, HighPreferred, LowPreferred, Left;
    RemainingIs(hmask, log);
    assert Preferred(ts, g, hmask, affinity, t);
    assert (hmask - {t.high}) + {t.high} == hmask;
    GoodTurn(ts, g, hmask - {t.high}, affinity, log, t, ts');
    ProgressTurn(ts0, ts, g, affinity, log, t, ts');
    RemainingTurn(hmask - {t.high}, log, t, if t.low.Some? then hmask - {t.high} - {t.low.value} else hmask - {t.high});
    if t.low.Some? {
      TookMore(ts0, ts, donors, receivers, t.high, t.low.value, affinity, ts');
    } else {
      TookNothing(ts, t.high, affinity, ts');
    }
  }

  lemma NothingLeft(ts: Tdqs, high: int, affinity: Affinity)
    ensures Took(ts, Turn(high, None), affinity, ts)
  {
  }

  lemma MaskIsCpus(g: CpuSearch.Group, n: nat)
    requires CpuSearch.GroupOk(g, n) && n <= CPU_SETSIZE
    ensures forall c :: c in g.mask ==> IsCpu(c)
  {
  }

  /** `hmask` is every CPU that no turn has left out. */
  ghost predicate Remaining(hmask: set<int>, log: seq<Turn>) {
    forall c :: c in hmask <==> IsCpu(c) && c !in Out(log)
  }

  lemma RemainingIs(hmask: set<int>, log: seq<Turn>)
    requires Remaining(hmask, log)
    ensures hmask == Left(log)
  {
    hide Out;
  }

  lemma StoppedDry(ts: Tdqs, g: CpuSearch.Group, hmask: set<int>, log: seq<Turn>)
    requires (forall c :: c in g.mask ==> IsCpu(c)) && Remaining(hmask, log)
    requires forall h :: h in g.mask && h in hmask ==> !MayBeHigh(ts, g.mask, h)
    ensures Stopped(ts, g.mask, log)
  {
    hide Out;
  }

  lemma StoppedLevel(ts: Tdqs, g: CpuSearch.Group, hmask: set<int>, log: seq<Turn>, high: nat)
    requires (forall c :: c in g.mask ==> IsCpu(c)) && Remaining(hmask, log)
    requires log != [] && log[|log| - 1] == Turn(high, None) && high < |ts|
    requires forall l :: l in g.mask && l in hmask && 0 <= l < |ts| ==> ts[l].load >= ts[high].load
    ensures Stopped(ts, g.mask, log)
  {
    hide Out;
  }

  /** A turn as NextLow leaves it is a good one. */
  lemma GoodTurn(ts: Tdqs, g: CpuSearch.Group, hmask: set<int>, affinity: Affinity, log: seq<Turn>, t: Turn, ts': Tdqs)
    requires (forall c :: c in g.mask ==> IsCpu(c)) && Remaining(hmask + {t.high}, log) && t.high !in hmask
    requires MayBeHigh(ts, g.mask, t.high) && Took(ts, t, affinity, ts')
    requires t.low.Some? ==> t.low.value in g.mask && t.low.value in hmask
    requires t.low.None? ==> forall l :: l in g.mask && l in hmask ==> !MayGive(ts', affinity, t.high, l)
    ensures TurnOk(ts, g.mask, affinity, Out(log), t)
  {
    hide Out, StealFrom, Sound;
    assert IsCpu(t.high);
    assert forall l :: l in g.mask ==> IsCpu(l);
  }

  lemma RemainingStart(hmask: set<int>)
    requires forall c :: c in hmask <==> IsCpu(c)
    ensures Remaining(hmask, [])
  {
  }

  lemma ProgressEnds(ts0: Tdqs, ts: Tdqs, g: CpuSearch.Group, affinity: Affinity, log: seq<Turn>)
    requires Progress(ts0, ts, g, affinity, log)
    ensures Turns(ts0, g.mask, affinity, log) && Outcome(ts0, log, g, affinity, ts)
  {
  }

  lemma RemainingTurn(hmask: set<int>, log: seq<Turn>, t: Turn, left: set<int>)
    requires Remaining(hmask + {t.high}, log)
    requires left == hmask - {t.high} - (if t.low.Some? then {t.low.value} else {})
    requires Out(log + [t]) == Out(log) + {t.high} + (if t.low.Some? then {t.low.value} else {})
    ensures Remaining(left, log + [t])
  {
    hide Out;
  }

  lemma TookNothing(ts: Tdqs, high: int, affinity: Affinity, ts': Tdqs)
    requires Took(ts, Turn(high, None), affinity, ts')
    ensures ts' == ts
  {
  }

  lemma TookMore(ts0: Tdqs, ts: Tdqs, donors: set<int>, receivers: set<int>, high: int, low: int, affinity: Affinity,
                 ts': Tdqs)
    requires Balanced(ts0, ts, donors, receivers) && Took(ts, Turn(high, Some(low)), affinity, ts')
    requires high !in donors + receivers && low !in donors + receivers
    ensures Balanced(ts0, ts', donors + {high}, receivers + {low})
  {
    hide Balanced, StealFrom, Sound, MovedFrom, MovedTo;
    BalancedMore(ts0, ts, donors, receivers, high, low, Stolen(ts, affinity, high, low));
  }

  lemma NoneLess(ts: Tdqs, affinity: Affinity, high: nat)
    requires high < |ts|
    ensures forall l :: 0 <= l < |ts| && ts[l].load >= ts[high].load ==> !MayGive(ts, affinity, high, l)
    ensures forall l :: !(0 <= l < |ts|) ==> !MayGive(ts, affinity, high, l)
  {
  }

  predicate IsCpu(c: int) { 0 <= c < CPU_SETSIZE }

  lemma IsShaped(v: Model.Tdq)
    requires Model.Inv(v)
    ensures Model.Shaped(v)
  {
  }

  lemma BalancedIsSound(ts0: Tdqs, ts: Tdqs, donors: set<int>, receivers: set<int>)
    requires Balanced(ts0, ts, donors, receivers)
    ensures Sound(ts) && |ts| == |ts0| && forall c :: 0 <= c < |ts| ==> ts[c].load >= 0
  {
    LoadsCount(ts);
  }
}
