/**
 Safety of the busy lock: each thread's step keeps the others' assertions, so every step keeps
 the invariant, and every schedule of every number of threads is safe.
 */
module BusyLockRuns {
  import opened Prelude
  import opened BusyLock

  /** The assertion of a thread survives the steps of the others. */
  lemma OtherStable(word: nat, lock: Option<nat>, t: nat, e: Effect, u: nat, th: Thread)
    requires u != t && Guarantee(word, lock, t, e)
    requires PcOk(word, lock == Some(u), th)
    ensures PcOk(e.word, e.lock == Some(u), th)
    ensures th.pc == Asleep ==> PcOk(e.word, e.lock == Some(u), th.(pc := Idle))
  {
  }

  /** After an effect of `t`, thread `u` is still where its program counter says. */
  lemma ApplyThread(s: State, t: nat, e: Effect, u: nat)
    requires Inv(s) && t < |s.threads| && u < |s.threads|
    requires Guarantee(s.word, s.lock, t, e) && PcOk(e.word, e.lock == Some(t), e.th)
    requires (AtWakeup(s.threads[t].pc) ==> e.wake) && (e.th.pc == Asleep ==> HasWaiters(e.word))
    ensures var s' := Apply(s, t, e);
            && PcOk(s'.word, s'.lock == Some(u), s'.threads[u])
            && (s'.threads[u].pc == Asleep ==> HasWaiters(s'.word) || WakeupPending(s'))
  {
    if u != t {
      OtherStable(s.word, s.lock, t, e, u, s.threads[u]);
      ApplyAnnounced(s, t, e, u);
    }
  }

  lemma ApplyAnnounced(s: State, t: nat, e: Effect, u: nat)
    requires t < |s.threads| && u < |s.threads| && u != t && SleepersAnnounced(s)
    requires s.lock.Some? ==> s.lock.value < |s.threads|
    requires Guarantee(s.word, s.lock, t, e)
    requires AtWakeup(s.threads[t].pc) ==> e.wake
    ensures var s' := Apply(s, t, e);
            s'.threads[u].pc == Asleep ==> HasWaiters(s'.word) || WakeupPending(s')
  {
  }

  lemma ContinueKeepsInv(s: State, t: nat)
    requires Inv(s) && Step(s, t, Continue).Some? && !Overflows(s, t, Continue)
    ensures Inv(Step(s, t, Continue).value)
  {
    var th := s.threads[t];
    var e := Act(s.word, s.lock, t, th).value;
    SumsUpdate(s.threads, t, th);
    ActLocal(s.word, s.lock, t, th, TotalShares(s.threads), ExclCount(s.threads), e);
    EffectKeepsInv(s, t, e);
  }

  lemma EffectKeepsInv(s: State, t: nat, e: Effect)
    requires Inv(s) && t < |s.threads|
    requires LocalStepOk(s.word, s.lock, t, s.threads[t], TotalShares(s.threads), ExclCount(s.threads), e)
    ensures Inv(Apply(s, t, e))
  {
    var base := if e.wake then Woken(s.threads) else s.threads;
    var s' := Apply(s, t, e);
    SumsWoken(s.threads);
    SumsUpdate(base, t, e.th);
    forall u | 0 <= u < |s'.threads|
      ensures PcOk(s'.word, s'.lock == Some(u), s'.threads[u])
      ensures s'.threads[u].pc == Asleep ==> HasWaiters(s'.word) || WakeupPending(s')
    {
      ApplyThread(s, t, e, u);
    }
  }

  /** Gaining a hold, or an idle thread changing anything, keeps a thread's assertion. */
  lemma HoldsGrow(word: nat, owned: bool, th: Thread, th': Thread)
    requires PcOk(word, owned, th)
    requires th'.pc == th.pc && th'.shares >= th.shares && (th.excl ==> th'.excl)
    ensures PcOk(word, owned, th')
  {
  }

  lemma GiveKeepsPcs(s: State, t: nat, u: nat, th: Thread, th': Thread)
    requires PcsOk(s) && t < |s.threads| && u < |s.threads| && t != u
    requires s.threads[t].pc == Idle && th.pc == Idle
    requires th'.pc == s.threads[u].pc && th'.shares >= s.threads[u].shares && (s.threads[u].excl ==> th'.excl)
    ensures PcsOk(s.(threads := s.threads[t := th][u := th']))
    ensures SleepersAnnounced(s) ==> SleepersAnnounced(s.(threads := s.threads[t := th][u := th']))
  {
    HoldsGrow(s.word, s.lock == Some(u), s.threads[u], th');
  }

  lemma GiveShareKeepsInv(s: State, t: nat, u: nat)
    requires Inv(s) && t < |s.threads| && MayBegin(s, t, GiveShare(u))
    ensures Inv(Start(s, t, GiveShare(u)))
  {
    var s' := Start(s, t, GiveShare(u));
    SumsUpdate(s.threads, t, s'.threads[t]);
    SumsUpdate(s.threads[t := s'.threads[t]], u, s'.threads[u]);
    GiveKeepsPcs(s, t, u, s'.threads[t], s'.threads[u]);
  }

  lemma GiveExclKeepsInv(s: State, t: nat, u: nat)
    requires Inv(s) && t < |s.threads| && MayBegin(s, t, GiveExcl(u))
    ensures Inv(Start(s, t, GiveExcl(u)))
  {
    var s' := Start(s, t, GiveExcl(u));
    var mid := s.threads[t := s'.threads[t]];
    SumsUpdate(s.threads, t, s'.threads[t]);
    SumsUpdate(mid, u, s'.threads[u]);
    assert !s.threads[u].excl && ExclCount(s'.threads) == 1;
    GiveKeepsPcs(s, t, u, s'.threads[t], s'.threads[u]);
  }

  lemma UnlockKeepsInv(s: State, t: nat)
    requires Inv(s) && t < |s.threads| && MayBegin(s, t, UnlockPage)
    ensures Inv(Start(s, t, UnlockPage))
  {
    EffectKeepsInv(s, t, Effect(s.word, None, s.threads[t], false));
    assert Start(s, t, UnlockPage) == Apply(s, t, Effect(s.word, None, s.threads[t], false));
  }

  lemma EntryOk(s: State, t: nat, call: Call)
    requires Inv(s) && t < |s.threads| && MayBegin(s, t, call)
    requires !call.UnlockPage? && !call.GiveShare? && !call.GiveExcl?
    ensures PcOk(s.word, s.lock == Some(t), s.threads[t].(pc := EntryPc(call, s.lock == Some(t))))
    ensures EntryPc(call, s.lock == Some(t)) != Asleep
  {
  }

  lemma BeginKeepsInv(s: State, t: nat, call: Call)
    requires Inv(s) && t < |s.threads| && MayBegin(s, t, call)
    ensures Inv(Start(s, t, call))
  {
    if call.GiveShare? {
      GiveShareKeepsInv(s, t, call.u);
    } else if call.GiveExcl? {
      GiveExclKeepsInv(s, t, call.u);
    } else if call.UnlockPage? {
      UnlockKeepsInv(s, t);
    } else {
      var e := Effect(s.word, s.lock, s.threads[t].(pc := EntryPc(call, s.lock == Some(t))), false);
      EntryOk(s, t, call);
      SumsUpdate(s.threads, t, e.th);
      EffectKeepsInv(s, t, e);
      assert Start(s, t, call) == Apply(s, t, e);
    }
  }

  /**
   The busy lock is correct for one step exactly when the share count does not overflow:
   every step from a good state leads to a good state, except taking share number 2^29.
   */
  lemma StepKeepsInv(s: State, t: nat, move: Move)
    requires Inv(s) && Step(s, t, move).Some?
    ensures Inv(Step(s, t, move).value) <==> !Overflows(s, t, move)
  {
    if Overflows(s, t, move) {
      SumsUpdate(s.threads, t, Step(s, t, move).value.threads[t]);
    } else if move == Continue {
      ContinueKeepsInv(s, t);
    } else {
      BeginKeepsInv(s, t, move.call);
    }
  }

  // ----- every schedule -----

  /** A page nobody holds, with `n` idle threads. */
  function Init(n: nat): State {
    State(UNBUSIED, None, seq(n, _ => Thread(Idle, 0, false)))
  }

  lemma {:induction false} InitInv(n: nat)
    ensures Inv(Init(n))
  {
    var ts := Init(n).threads;
    if n > 0 {
      InitInv(n - 1);
      assert ts[..n - 1] == Init(n - 1).threads;
    }
  }

  /** The state after a schedule of moves, or None if some move was not possible. */
  function Run(s: State, schedule: seq<(nat, Move)>): Option<State>
    decreases |schedule|
  {
    if schedule == [] then Some(s)
    else match Step(s, schedule[0].0, schedule[0].1)
      case None => None
      case Some(s') => Run(s', schedule[1..])
  }

  predicate RunOverflows(s: State, schedule: seq<(nat, Move)>)
    decreases |schedule|
  {
    schedule != [] &&
    (Overflows(s, schedule[0].0, schedule[0].1) ||
     match Step(s, schedule[0].0, schedule[0].1)
     case None => false
     case Some(s') => RunOverflows(s', schedule[1..]))
  }

  lemma {:induction false} RunKeepsInv(s: State, schedule: seq<(nat, Move)>)
    requires Inv(s) && Run(s, schedule).Some? && !RunOverflows(s, schedule)
    ensures Inv(Run(s, schedule).value)
    decreases |schedule|
  {
    if schedule != [] {
      StepKeepsInv(s, schedule[0].0, schedule[0].1);
      RunKeepsInv(Step(s, schedule[0].0, schedule[0].1).value, schedule[1..]);
    }
  }

  /** A hold counts in the totals. */
  lemma HoldCounts(ts: seq<Thread>, t: nat, u: nat)
    requires t < |ts| && u < |ts| && t != u
    ensures TotalShares(ts) >= ts[t].shares + ts[u].shares
    ensures ExclCount(ts) >= (if ts[t].excl then 1 else 0) + (if ts[u].excl then 1 else 0)
  {
    SumsUpdate(ts, t, Thread(Idle, 0, false));
    SumsUpdate(ts[t := Thread(Idle, 0, false)], u, ts[u]);
  }

  lemma {:induction false} SomeHolder(ts: seq<Thread>)
    requires TotalShares(ts) > 0 || ExclCount(ts) > 0
    ensures exists h :: 0 <= h < |ts| && (ts[h].shares > 0 || ts[h].excl)
    decreases |ts|
  {
    var n := |ts| - 1;
    if ts[n].shares == 0 && !ts[n].excl {
      SomeHolder(ts[..n]);
      var h :| 0 <= h < n && (ts[..n][h].shares > 0 || ts[..n][h].excl);
      assert ts[h].shares > 0 || ts[h].excl;
    }
  }

  /** An exclusive hold excludes every other hold. */
  ghost predicate MutualExclusion(s: State) {
    && (forall t :: 0 <= t < |s.threads| && s.threads[t].excl ==> s.threads[t].shares == 0)
    && (forall t, u :: 0 <= t < |s.threads| && 0 <= u < |s.threads| && t != u && s.threads[t].excl
          ==> !s.threads[u].excl && s.threads[u].shares == 0)
  }

  predicate Holds(th: Thread) { th.excl || th.shares > 0 }

  /** The word is UNBUSIED exactly when nobody holds the page, and never UNBUSIED with waiters. */
  ghost predicate WordTellsBusy(s: State) {
    && s.word != UNBUSIED + WAITERS
    && (s.word == UNBUSIED <==> forall t :: 0 <= t < |s.threads| ==> !Holds(s.threads[t]))
  }

  /** A sleeper nobody is about to wake has the waiters bit set and a holder to wait for. */
  ghost predicate NoLostWakeup(s: State) {
    forall t :: 0 <= t < |s.threads| && s.threads[t].pc == Asleep && !WakeupPending(s)
      ==> HasWaiters(s.word) && exists h :: 0 <= h < |s.threads| && Holds(s.threads[h])
  }

  ghost predicate NoAssertionFails(s: State) {
    forall t :: 0 <= t < |s.threads| ==> s.threads[t].pc != Panicked
  }

  lemma InvExcludes(s: State)
    requires Inv(s)
    ensures MutualExclusion(s)
  {
    var ts := s.threads;
    forall t | 0 <= t < |ts| && ts[t].excl ensures ts[t].shares == 0 {
      SumsUpdate(ts, t, ts[t]);
    }
    forall t, u | 0 <= t < |ts| && 0 <= u < |ts| && t != u && ts[t].excl
      ensures !ts[u].excl && ts[u].shares == 0
    {
      HoldCounts(ts, t, u);
      SumsUpdate(ts, u, ts[u]);
    }
  }

  lemma InvTells(s: State)
    requires Inv(s)
    ensures WordTellsBusy(s) && NoLostWakeup(s)
  {
    var ts := s.threads;
    WordFacts(s.word, TotalShares(ts), ExclCount(ts));
    if s.word != UNBUSIED {
      SomeHolder(ts);
    } else {
      forall t | 0 <= t < |ts| ensures !Holds(ts[t]) { SumsUpdate(ts, t, ts[t]); }
    }
  }

  lemma InvNoPanic(s: State)
    requires Inv(s)
    ensures NoAssertionFails(s)
  {
    forall t | 0 <= t < |s.threads| ensures s.threads[t].pc != Panicked {
      assert PcOk(s.word, s.lock == Some(t), s.threads[t]);
    }
  }

  /** Safety of the busy lock over every schedule of every number of threads. */
  lemma BusyLockSafe(n: nat, schedule: seq<(nat, Move)>)
    requires Run(Init(n), schedule).Some? && !RunOverflows(Init(n), schedule)
    ensures var s := Run(Init(n), schedule).value;
            MutualExclusion(s) && WordTellsBusy(s) && NoLostWakeup(s) && NoAssertionFails(s)
  {
    InitInv(n);
    RunKeepsInv(Init(n), schedule);
    var s := Run(Init(n), schedule).value;
    InvExcludes(s);
    InvTells(s);
    InvNoPanic(s);
  }

  /** Once the page is unbusied, the lock owner's next operation wakes every sleeper. */
  lemma ReleaseWakesEverySleeper(s: State, t: nat)
    requires Inv(s) && s.word == UNBUSIED && t < |s.threads| && s.threads[t].pc == Asleep
    ensures s.lock.Some? && Step(s, s.lock.value, Continue).Some?
    ensures var s' := Step(s, s.lock.value, Continue).value;
            forall u :: 0 <= u < |s'.threads| ==> s'.threads[u].pc != Asleep
  {
    assert WakeupPending(s);
  }

  /** The page lock is never held across a wait, so a thread that waits for it waits for one that can run. */
  lemma LockOwnerCanRun(s: State, t: nat)
    requires Inv(s) && s.lock == Some(t)
    ensures t < |s.threads| && s.threads[t].pc != Asleep
    ensures s.threads[t].pc == Idle || Step(s, t, Continue).Some?
  {
  }
}
