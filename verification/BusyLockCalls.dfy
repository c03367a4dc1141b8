/**
 What each call on the busy lock achieves.  `EndOf` says, for a thread anywhere inside an
 operation, how the operation ends if nobody else moves, in terms of the word and the holds
 alone; every step of the thread keeps that promise, and the calls are then told one by one.
 */
module BusyLockCalls {
  import opened Prelude
  import opened BusyLock
  import opened BusyLockRuns
  import opened BusyLockAlone

  /** The word, the page lock and the thread at the end of an operation, and whether the sleepers were woken. */
  datatype Ending = Ending(word: nat, lock: Option<nat>, th: Thread, woken: bool)

  /** One share fewer: the last one leaves the page unbusied. */
  function LessOneShare(word: nat): nat {
    if Sharers(word) > 1 then word - ONE_SHARER else UNBUSIED
  }

  function Unlocked(drop: bool, lock: Option<nat>): Option<nat> {
    if drop then None else lock
  }

  /** A thread falls asleep on a busied page, and if it waits for shared holders to go too, on a shared one. */
  predicate MustWait(word: nat, nonshared: bool) {
    word != UNBUSIED && !(nonshared && HasShared(word))
  }

  /** How the operation thread `t` is in ends when nobody else moves. */
  function EndOf(word: nat, lock: Option<nat>, t: nat, th: Thread): Ending {
    var Thread(pc, n, ex) := th;
    match pc
    case Idle => Ending(word, lock, th, false)
    case Asleep => Ending(word, lock, th, false)
    case Panicked => Ending(word, lock, th, false)
    case LockWait => Ending(word, Some(t), Thread(Idle, n, ex), false)
    case TryShare => if HasShared(word) then Ending(AddSharer(word), lock, Thread(Idle, n + 1, ex), false)
                     else Ending(word, lock, Thread(Idle, n, ex), false)
    case TryShareCas(_) => if HasShared(word) then Ending(AddSharer(word), lock, Thread(Idle, n + 1, ex), false)
                           else Ending(word, lock, Thread(Idle, n, ex), false)
    case TryExcl => if word == UNBUSIED then Ending(SINGLE_EXCLUSIVER, lock, Thread(Idle, n, true), false)
                    else Ending(word, lock, Thread(Idle, n, ex), false)
    case Unshare => Unshared(word, n, ex)
    case UnshareMany(_) => Unshared(word, n, ex)
    case UnshareLast => Unshared(word, n, ex)
    case UnshareLock(_) => Unshared(word, n, ex)
    case UnshareLocked(_) => Unshared(word, n, ex)
    case UnshareRetry => Unshared(word, n, ex)
    case UnshareWake => Ending(word, None, Thread(Idle, n, ex), true)
    case UnshareUnlock => Ending(word, None, Thread(Idle, n, ex), false)
    case UnexclCas(drop) =>
      Ending(UNBUSIED, Unlocked(drop, lock), Thread(Idle, n, false), word != SINGLE_EXCLUSIVER)
    case UnexclLock => Ending(UNBUSIED, None, Thread(Idle, n, false), true)
    case UnexclStore(drop) => Ending(UNBUSIED, Unlocked(drop, lock), Thread(Idle, n, false), true)
    case UnexclWake(drop) => Ending(word, Unlocked(drop, lock), Thread(Idle, n, ex), true)
    case UnexclUnlock => Ending(word, None, Thread(Idle, n, ex), false)
    case Downgrade(locked) => Downgraded(word, Unlocked(!locked, lock), n)
    case DowngradeLock => Downgraded(word, None, n)
    case DowngradeCas(_, locked) => Downgraded(word, Unlocked(!locked, lock), n)
    case DowngradeRetry => Downgraded(word, None, n)
    case DowngradeWake(locked) => Ending(word, Unlocked(!locked, lock), Thread(Idle, n, ex), true)
    case DowngradeUnlock => Ending(word, None, Thread(Idle, n, ex), false)
    case Flash => Ending(ClearWaiters(word), lock, Thread(Idle, n, ex), HasWaiters(word))
    case FlashCas(_) => Ending(ClearWaiters(word), lock, Thread(Idle, n, ex), HasWaiters(word))
    case FlashWake => Ending(word, lock, Thread(Idle, n, ex), true)
    case BusySleep(nonshared) => Slept(word, n, ex, MustWait(word, nonshared))
    case SleepCas(x) => Slept(word, n, ex, word == x)
    case SleepAbort => Ending(word, None, Thread(Idle, n, ex), false)
    case SleepNow => Ending(word, None, Thread(Asleep, n, ex), false)
  }

  /** A share given up: the last one wakes whoever waits. */
  function Unshared(word: nat, n: nat, ex: bool): Ending {
    Ending(LessOneShare(word), None, Thread(Idle, if n > 0 then n - 1 else 0, ex), Sharers(word) <= 1
      && HasWaiters(word))
  }

  /** The exclusive hold turned into the only share. */
  function Downgraded(word: nat, lock: Option<nat>, n: nat): Ending {
    Ending(SharersWord(1), lock, Thread(Idle, n + 1, false), HasWaiters(word))
  }

  function Slept(word: nat, n: nat, ex: bool, wait: bool): Ending {
    if wait then Ending(SetWaiters(word), None, Thread(Asleep, n, ex), false)
    else Ending(word, None, Thread(Idle, n, ex), false)
  }

  // ----- every step keeps it -----

  ghost predicate KeepsEnd(word: nat, lock: Option<nat>, t: nat, th: Thread) {
    var e := Act(word, lock, t, th);
    e.Some? &&
    var was, now := EndOf(word, lock, t, th), EndOf(e.value.word, e.value.lock, t, e.value.th);
    now.word == was.word && now.lock == was.lock && now.th == was.th && (was.woken <==> now.woken || e.value.wake)
  }

  lemma TakeKeeps(word: nat, lock: Option<nat>, t: nat, th: Thread, shares: nat, excls: nat)
    requires Ready(word, lock, t, th, shares, excls)
    requires th.pc.LockWait? || th.pc.TryShare? || th.pc.TryShareCas? || th.pc.TryExcl?
    ensures KeepsEnd(word, lock, t, th)
  {
    hide HasShared, HasExclusive, HasWaiters, Sharers, AddSharer, SetWaiters, ClearWaiters;
    WordFacts(word, shares, excls);
  }

  lemma UnshareKeeps(word: nat, lock: Option<nat>, t: nat, th: Thread, shares: nat, excls: nat)
    requires Ready(word, lock, t, th, shares, excls)
    requires th.pc.Unshare? || th.pc.UnshareMany? || th.pc.UnshareLast?
    ensures KeepsEnd(word, lock, t, th)
  {
    hide HasShared, HasExclusive, HasWaiters, Sharers, AddSharer, SetWaiters, ClearWaiters;
    WordFacts(word, shares, excls);
  }

  lemma UnshareSlowKeeps(word: nat, lock: Option<nat>, t: nat, th: Thread, shares: nat, excls: nat)
    requires Ready(word, lock, t, th, shares, excls)
    requires th.pc.UnshareLock? || th.pc.UnshareLocked? || th.pc.UnshareRetry?
    ensures KeepsEnd(word, lock, t, th)
  {
    hide HasShared, HasExclusive, HasWaiters, Sharers, AddSharer, SetWaiters, ClearWaiters;
    WordFacts(word, shares, excls);
  }

  lemma UnshareEndKeeps(word: nat, lock: Option<nat>, t: nat, th: Thread, shares: nat, excls: nat)
    requires Ready(word, lock, t, th, shares, excls)
    requires th.pc.UnshareWake? || th.pc.UnshareUnlock?
    ensures KeepsEnd(word, lock, t, th)
  {
    hide HasShared, HasExclusive, HasWaiters, Sharers, AddSharer, SetWaiters, ClearWaiters;
    WordFacts(word, shares, excls);
  }

  lemma UnexclKeeps(word: nat, lock: Option<nat>, t: nat, th: Thread, shares: nat, excls: nat)
    requires Ready(word, lock, t, th, shares, excls)
    requires th.pc.UnexclCas? || th.pc.UnexclLock? || th.pc.UnexclStore?
    ensures KeepsEnd(word, lock, t, th)
  {
    hide HasShared, HasExclusive, HasWaiters, Sharers, AddSharer, SetWaiters, ClearWaiters;
    WordFacts(word, shares, excls);
  }

  lemma UnexclEndKeeps(word: nat, lock: Option<nat>, t: nat, th: Thread, shares: nat, excls: nat)
    requires Ready(word, lock, t, th, shares, excls)
    requires th.pc.UnexclWake? || th.pc.UnexclUnlock?
    ensures KeepsEnd(word, lock, t, th)
  {
    hide HasShared, HasExclusive, HasWaiters, Sharers, AddSharer, SetWaiters, ClearWaiters;
    WordFacts(word, shares, excls);
  }

  lemma DowngradeKeeps(word: nat, lock: Option<nat>, t: nat, th: Thread, shares: nat, excls: nat)
    requires Ready(word, lock, t, th, shares, excls)
    requires th.pc.Downgrade? || th.pc.DowngradeRetry?
    ensures KeepsEnd(word, lock, t, th)
  {
    hide HasShared, HasExclusive, HasWaiters, Sharers, AddSharer, SetWaiters, ClearWaiters;
    WordFacts(word, shares, excls);
  }

  lemma DowngradeLockKeeps(word: nat, lock: Option<nat>, t: nat, th: Thread, shares: nat, excls: nat)
    requires Ready(word, lock, t, th, shares, excls)
    requires th.pc.DowngradeLock?
    ensures KeepsEnd(word, lock, t, th)
  {
    hide HasShared, HasExclusive, HasWaiters, Sharers, AddSharer, SetWaiters, ClearWaiters;
    WordFacts(word, shares, excls);
  }

  lemma DowngradeCasKeeps(word: nat, lock: Option<nat>, t: nat, th: Thread, shares: nat, excls: nat)
    requires Ready(word, lock, t, th, shares, excls)
    requires th.pc.DowngradeCas?
    ensures KeepsEnd(word, lock, t, th)
  {
    hide HasShared, HasExclusive, HasWaiters, Sharers, AddSharer, SetWaiters, ClearWaiters;
    WordFacts(word, shares, excls);
  }

  lemma DowngradeEndKeeps(word: nat, lock: Option<nat>, t: nat, th: Thread, shares: nat, excls: nat)
    requires Ready(word, lock, t, th, shares, excls)
    requires th.pc.DowngradeWake? || th.pc.DowngradeUnlock?
    ensures KeepsEnd(word, lock, t, th)
  {
    hide HasShared, HasExclusive, HasWaiters, Sharers, AddSharer, SetWaiters, ClearWaiters;
    WordFacts(word, shares, excls);
  }

  lemma FlashKeeps(word: nat, lock: Option<nat>, t: nat, th: Thread, shares: nat, excls: nat)
    requires Ready(word, lock, t, th, shares, excls)
    requires th.pc.Flash? || th.pc.FlashWake?
    ensures KeepsEnd(word, lock, t, th)
  {
    hide HasShared, HasExclusive, HasWaiters, Sharers, AddSharer;
    WordFacts(word, shares, excls);
  }

  lemma FlashCasKeeps(word: nat, lock: Option<nat>, t: nat, th: Thread, shares: nat, excls: nat)
    requires Ready(word, lock, t, th, shares, excls)
    requires th.pc.FlashCas?
    ensures KeepsEnd(word, lock, t, th)
  {
    hide HasShared, HasExclusive, HasWaiters, Sharers, AddSharer, SetWaiters, ClearWaiters;
    WordFacts(word, shares, excls);
  }

  lemma SleepKeeps(word: nat, lock: Option<nat>, t: nat, th: Thread, shares: nat, excls: nat)
    requires Ready(word, lock, t, th, shares, excls)
    requires th.pc.SleepAbort? || th.pc.SleepNow?
    ensures KeepsEnd(word, lock, t, th)
  {
    hide HasShared, HasExclusive, HasWaiters, Sharers, AddSharer, SetWaiters, ClearWaiters;
    WordFacts(word, shares, excls);
  }

  lemma SleepCasKeeps(word: nat, lock: Option<nat>, t: nat, th: Thread, shares: nat, excls: nat)
    requires Ready(word, lock, t, th, shares, excls)
    requires th.pc.SleepCas?
    ensures KeepsEnd(word, lock, t, th)
  {
    hide HasShared, HasExclusive, HasWaiters, Sharers, AddSharer, SetWaiters, ClearWaiters;
    WordFacts(word, shares, excls);
  }

  lemma BusySleepKeeps(word: nat, lock: Option<nat>, t: nat, th: Thread, shares: nat, excls: nat)
    requires Ready(word, lock, t, th, shares, excls)
    requires th.pc.BusySleep?
    ensures KeepsEnd(word, lock, t, th)
  {
    hide HasShared, HasExclusive, HasWaiters, Sharers, AddSharer;
    WordFacts(word, shares, excls);
  }

  lemma EachKeeps(word: nat, lock: Option<nat>, t: nat, th: Thread, shares: nat, excls: nat)
    requires Ready(word, lock, t, th, shares, excls) && !AtRest(th.pc)
    ensures KeepsEnd(word, lock, t, th)
  {
    hide Ready, KeepsEnd;
    var pc := th.pc;
    if pc.LockWait? || pc.TryShare? || pc.TryShareCas? || pc.TryExcl? {
      TakeKeeps(word, lock, t, th, shares, excls);
    } else if pc.Unshare? || pc.UnshareMany? || pc.UnshareLast? {
      UnshareKeeps(word, lock, t, th, shares, excls);
    } else if pc.UnshareLock? || pc.UnshareLocked? || pc.UnshareRetry? {
      UnshareSlowKeeps(word, lock, t, th, shares, excls);
    } else if pc.UnshareWake? || pc.UnshareUnlock? {
      UnshareEndKeeps(word, lock, t, th, shares, excls);
    } else if pc.UnexclCas? || pc.UnexclLock? || pc.UnexclStore? {
      UnexclKeeps(word, lock, t, th, shares, excls);
    } else if pc.UnexclWake? || pc.UnexclUnlock? {
      UnexclEndKeeps(word, lock, t, th, shares, excls);
    } else if pc.Downgrade? || pc.DowngradeRetry? {
      DowngradeKeeps(word, lock, t, th, shares, excls);
    } else if pc.DowngradeLock? {
      DowngradeLockKeeps(word, lock, t, th, shares, excls);
    } else if pc.DowngradeCas? {
      DowngradeCasKeeps(word, lock, t, th, shares, excls);
    } else if pc.DowngradeWake? || pc.DowngradeUnlock? {
      DowngradeEndKeeps(word, lock, t, th, shares, excls);
    } else if pc.Flash? || pc.FlashWake? {
      FlashKeeps(word, lock, t, th, shares, excls);
    } else if pc.FlashCas? {
      FlashCasKeeps(word, lock, t, th, shares, excls);
    } else if pc.SleepAbort? || pc.SleepNow? {
      SleepKeeps(word, lock, t, th, shares, excls);
    } else if pc.SleepCas? {
      SleepCasKeeps(word, lock, t, th, shares, excls);
    } else {
      BusySleepKeeps(word, lock, t, th, shares, excls);
    }
  }

  // ----- an operation run alone -----

  /** The state when the operation thread `t` is in has ended. */
  function Ended(s: State, t: nat): State
    requires t < |s.threads|
  {
    var e := EndOf(s.word, s.lock, t, s.threads[t]);
    State(e.word, e.lock, (if e.woken then Woken(s.threads) else s.threads)[t := e.th])
  }

  lemma StepKeepsEnd(s: State, t: nat)
    requires Inv(s) && Free(s, t) && !AtRest(s.threads[t].pc)
    ensures Step(s, t, Continue).Some?
    ensures var s' := Step(s, t, Continue).value; |s'.threads| == |s.threads| && Ended(s', t) == Ended(s, t)
  {
    hide Act, PcOk, Decodes, EndOf;
    var th := s.threads[t];
    SumsUpdate(s.threads, t, th);
    assert PcOk(s.word, s.lock == Some(t), th);
    EachKeeps(s.word, s.lock, t, th, TotalShares(s.threads), ExclCount(s.threads));
    var e := Act(s.word, s.lock, t, th).value;
    assert Step(s, t, Continue) == Some(Apply(s, t, e));
    SameThreads(s.threads, t, e.th, EndOf(s.word, s.lock, t, th).th, e.wake);
  }

  /** A wakeup before the end or at the end wakes the same threads. */
  lemma SameThreads(ts: seq<Thread>, t: nat, th: Thread, last: Thread, wake: bool)
    requires t < |ts|
    ensures ts[t := th][t := last] == ts[t := last]
    ensures Woken(ts)[t := th][t := last] == Woken(ts)[t := last]
    ensures Woken(ts[t := th])[t := last] == Woken(ts)[t := last]
    ensures Woken(Woken(ts)[t := th])[t := last] == Woken(ts)[t := last]
  {
  }

  /** From any state of the invariant, a thread that runs alone ends its operation as `EndOf` says. */
  lemma {:induction false} RunsToEnd(s: State, t: nat) returns (k: nat)
    requires Inv(s) && t < |s.threads| && Free(s, t)
    ensures k <= Left(s.word, s.threads[t].pc) <= 8 && Alone(s, t, k) == Some(Ended(s, t))
    decreases Left(s.word, s.threads[t].pc)
  {
    hide Inv, Left, Step, Free, Ended;
    AtMostEight(s.word, s.threads[t].pc);
    FreeMeans(s, t);
    if AtRest(s.threads[t].pc) {
      k := 0;
      EndedAtRest(s, t);
    } else {
      AloneStep(s, t);
      StepKeepsEnd(s, t);
      var n := RunsToEnd(Step(s, t, Continue).value, t);
      k := n + 1;
    }
  }

  lemma EndedAtRest(s: State, t: nat)
    requires t < |s.threads| && AtRest(s.threads[t].pc)
    ensures Ended(s, t) == s
  {
    assert s.threads[t := s.threads[t]] == s.threads;
  }

  // ----- the calls -----

  ghost predicate NobodyHolds(s: State) {
    forall u :: 0 <= u < |s.threads| ==> !Holds(s.threads[u])
  }

  ghost predicate NobodyExcludes(s: State) {
    forall u :: 0 <= u < |s.threads| ==> !s.threads[u].excl
  }

  /** Nobody else has the page lock, and the caller has what the call asks for. */
  ghost predicate MayCall(s: State, t: nat, call: Call) {
    Inv(s) && t < |s.threads| && (s.lock.None? || s.lock == Some(t)) && MayBegin(s, t, call)
  }

  /** The same, in what the thread is doing and not in what it asks for. */
  ghost predicate Resting(s: State, t: nat) {
    Inv(s) && t < |s.threads| && (s.lock.None? || s.lock == Some(t)) && s.threads[t].pc == Idle
  }

  lemma {:induction false} SomeExcluder(ts: seq<Thread>)
    requires ExclCount(ts) > 0
    ensures exists h :: 0 <= h < |ts| && ts[h].excl
    decreases |ts|
  {
    var n := |ts| - 1;
    if !ts[n].excl {
      SomeExcluder(ts[..n]);
      var h :| 0 <= h < n && ts[..n][h].excl;
      assert ts[h].excl;
    }
  }

  /** The word tells who holds the page, and a page without waiters has no sleepers. */
  lemma CallFacts(s: State, t: nat, call: Call)
    requires MayCall(s, t, call)
    ensures s.word == UNBUSIED <==> NobodyHolds(s)
    ensures HasShared(s.word) <==> NobodyExcludes(s)
    ensures NobodyExcludes(s) ==> Sharers(s.word) == TotalShares(s.threads)
    ensures !HasWaiters(s.word) ==> Woken(s.threads) == s.threads
    ensures Woken(s.threads)[t] == s.threads[t]
  {
    hide HasShared, HasExclusive, HasWaiters, Sharers;
    var ts := s.threads;
    InvTells(s);
    WordFacts(s.word, TotalShares(ts), ExclCount(ts));
    if ExclCount(ts) > 0 {
      SomeExcluder(ts);
    } else {
      forall u | 0 <= u < |ts| ensures !ts[u].excl { SumsUpdate(ts, u, ts[u]); }
    }
  }

  /** A call begun and run to its end, `s.threads[t]` having become `last`. */
  lemma CallRuns(s: State, t: nat, call: Call) returns (k: nat)
    requires MayCall(s, t, call) && !call.UnlockPage? && !call.GiveShare? && !call.GiveExcl?
    requires call.TrySbusy? ==> TotalShares(s.threads) < MAX_SHARERS
    ensures k <= 8 && Alone(Start(s, t, call), t, k).Some?
    ensures var e := EndOf(s.word, s.lock, t, s.threads[t].(pc := EntryPc(call, s.lock == Some(t))));
            Alone(Start(s, t, call), t, k).value
            == State(e.word, e.lock, (if e.woken then Woken(s.threads) else s.threads)[t := e.th])
  {
    hide Inv, EndOf, Left;
    var s1, th := Start(s, t, call), s.threads[t].(pc := EntryPc(call, s.lock == Some(t)));
    BeginKeepsInv(s, t, call);
    SumsUpdate(s.threads, t, th);
    k := RunsToEnd(s1, t);
    SameThreads(s.threads, t, th, EndOf(s.word, s.lock, t, th).th, false);
  }

  /** How each call ends, from its beginning. */
  lemma CallEnds(word: nat, lock: Option<nat>, t: nat, th: Thread, owned: bool)
    ensures EndOf(word, lock, t, th.(pc := EntryPc(TrySbusy, owned)))
            == if HasShared(word) then Ending(AddSharer(word), lock, Thread(Idle, th.shares + 1, th.excl), false)
               else Ending(word, lock, Thread(Idle, th.shares, th.excl), false)
    ensures EndOf(word, lock, t, th.(pc := EntryPc(Sunbusy, owned))) == Unshared(word, th.shares, th.excl)
    ensures EndOf(word, lock, t, th.(pc := EntryPc(Xunbusy, owned)))
            == Ending(UNBUSIED, None, Thread(Idle, th.shares, false), word != SINGLE_EXCLUSIVER)
    ensures EndOf(word, lock, t, th.(pc := EntryPc(XunbusyMaybeLocked, owned)))
            == Ending(UNBUSIED, Unlocked(!owned, lock), Thread(Idle, th.shares, false), word != SINGLE_EXCLUSIVER)
    ensures EndOf(word, lock, t, th.(pc := EntryPc(BusyDowngrade, owned)))
            == Downgraded(word, Unlocked(!owned, lock), th.shares)
  {
    hide HasShared, HasWaiters, Sharers, AddSharer;
  }

  /** vm_page_tryxbusy takes the page exactly when nobody holds it, and otherwise does nothing. */
  lemma TryXbusyTakes(s: State, t: nat) returns (k: nat)
    requires Resting(s, t)
    ensures k <= 8 && Alone(Start(s, t, TryXbusy), t, k).Some?
    ensures Alone(Start(s, t, TryXbusy), t, k).value
            == if NobodyHolds(s) then s.(word := SINGLE_EXCLUSIVER,
              threads := s.threads[t := s.threads[t].(excl := true)])
               else s
  {
    hide Inv, Alone, Woken, NobodyHolds, NobodyExcludes;
    CallFacts(s, t, TryXbusy);
    k := CallRuns(s, t, TryXbusy);
    assert s.threads[t := s.threads[t]] == s.threads;
  }

  /** vm_page_trysbusy gains one share exactly when nobody holds the page exclusively. */
  lemma TrySbusyShares(s: State, t: nat) returns (k: nat)
    requires Resting(s, t) && TotalShares(s.threads) < MAX_SHARERS
    ensures k <= 8 && Alone(Start(s, t, TrySbusy), t, k).Some?
    ensures Alone(Start(s, t, TrySbusy), t, k).value
            == if NobodyExcludes(s)
               then s.(word := s.word + ONE_SHARER,
                 threads := s.threads[t := s.threads[t].(shares := s.threads[t].shares + 1)])
               else s
  {
    hide Alone, Woken, NobodyHolds, NobodyExcludes, PcsOk, SleepersAnnounced, HasShared, HasWaiters, HasExclusive,
         Sharers, EndOf, EntryPc;
    CallEnds(s.word, s.lock, t, s.threads[t], s.lock == Some(t));
    CallFacts(s, t, TrySbusy);
    k := CallRuns(s, t, TrySbusy);
    if NobodyExcludes(s) {
      WordFacts(s.word, TotalShares(s.threads), ExclCount(s.threads));
      AddSharerDecodes(s.word, TotalShares(s.threads));
    }
    assert s.threads[t := s.threads[t]] == s.threads;
  }

  /** vm_page_sunbusy gives up one share; with the last one the page is unbusied and its sleepers are woken. */
  lemma SunbusyGives(s: State, t: nat) returns (k: nat)
    requires Resting(s, t) && s.threads[t].shares > 0 && s.lock.None?
    ensures k <= 8 && Alone(Start(s, t, Sunbusy), t, k).Some?
    ensures var s', th := Alone(Start(s, t, Sunbusy), t, k).value, s.threads[t].(shares := s.threads[t].shares - 1);
            && (TotalShares(s.threads) > 1 ==> s' == s.(word := s.word - ONE_SHARER, threads := s.threads[t := th]))
            && (TotalShares(s.threads) == 1 ==> s' == s.(word := UNBUSIED, threads := Woken(s.threads)[t := th]))
            && TotalShares(s.threads) >= 1
  {
    hide Alone, Woken, NobodyHolds, PcsOk, SleepersAnnounced, HasWaiters, HasShared, Sharers, EndOf, EntryPc;
    CallEnds(s.word, s.lock, t, s.threads[t], s.lock == Some(t));
    CallFacts(s, t, Sunbusy);
    SumsUpdate(s.threads, t, s.threads[t]);
    WordFacts(s.word, TotalShares(s.threads), ExclCount(s.threads));
    k := CallRuns(s, t, Sunbusy);
  }

  /** vm_page_xunbusy and its maybelocked form give up the exclusive hold and wake the sleepers. */
  lemma XunbusyGives(s: State, t: nat, call: Call) returns (k: nat)
    requires Resting(s, t) && s.threads[t].excl
    requires call.XunbusyMaybeLocked? || (call.Xunbusy? && s.lock.None?)
    ensures k <= 8 && Alone(Start(s, t, call), t, k).Some?
    ensures Alone(Start(s, t, call), t, k).value
            == s.(word := UNBUSIED, threads := Woken(s.threads)[t := s.threads[t].(excl := false)])
  {
    hide Alone, Woken, NobodyHolds, PcsOk, SleepersAnnounced, HasWaiters, HasShared, Sharers, EndOf, EntryPc;
    CallEnds(s.word, s.lock, t, s.threads[t], s.lock == Some(t));
    CallFacts(s, t, call);
    SumsUpdate(s.threads, t, s.threads[t]);
    WordFacts(s.word, TotalShares(s.threads), ExclCount(s.threads));
    k := CallRuns(s, t, call);
  }

  /** vm_page_busy_downgrade turns the exclusive hold into the only share and wakes the sleepers. */
  lemma DowngradeShares(s: State, t: nat) returns (k: nat)
    requires Resting(s, t) && s.threads[t].excl
    ensures k <= 8 && Alone(Start(s, t, BusyDowngrade), t, k).Some?
    ensures var th := s.threads[t];
            && th.shares == 0
            && Alone(Start(s, t, BusyDowngrade), t, k).value
               == s.(word := SharersWord(1), threads := Woken(s.threads)[t := th.(shares := 1, excl := false)])
  {
    hide Alone, Woken, NobodyHolds, PcsOk, SleepersAnnounced, HasWaiters, HasShared, Sharers, EndOf, EntryPc;
    CallEnds(s.word, s.lock, t, s.threads[t], s.lock == Some(t));
    CallFacts(s, t, BusyDowngrade);
    SumsUpdate(s.threads, t, s.threads[t]);
    k := CallRuns(s, t, BusyDowngrade);
  }

  /** vm_page_flash leaves no waiters bit and no sleeper, and every hold as it was. */
  lemma FlashWakes(s: State, t: nat) returns (k: nat)
    requires Resting(s, t) && s.lock == Some(t)
    ensures k <= 8 && Alone(Start(s, t, FlashPage), t, k).Some?
    ensures var s' := Alone(Start(s, t, FlashPage), t, k).value;
            && s'.lock == s.lock && s'.threads == Woken(s.threads) && !HasWaiters(s'.word)
            && s'.word == (if HasWaiters(s.word) then s.word - WAITERS else s.word)
  {
    hide Alone, Woken, NobodyHolds, PcsOk, SleepersAnnounced, HasShared, Sharers;
    CallFacts(s, t, FlashPage);
    k := CallRuns(s, t, FlashPage);
    assert Woken(s.threads)[t := Woken(s.threads)[t]] == Woken(s.threads);
  }

  /**
   vm_page_busy_sleep ends asleep, and announced, exactly when somebody holds the page, and, if
   shared holders are not waited for, exclusively; else only the page lock is given up.
   */
  lemma SleepOnBusyWaits(s: State, t: nat, nonshared: bool) returns (k: nat)
    requires Resting(s, t) && s.lock == Some(t)
    ensures k <= 8 && Alone(Start(s, t, SleepOnBusy(nonshared)), t, k).Some?
    ensures var s' := Alone(Start(s, t, SleepOnBusy(nonshared)), t, k).value;
            if NobodyHolds(s) || (nonshared && NobodyExcludes(s)) then s' == s.(lock := None)
            else s' == State(if HasWaiters(s.word) then s.word else s.word + WAITERS, None,
                             s.threads[t := s.threads[t].(pc := Asleep)])
  {
    hide Inv, Alone, Woken, NobodyHolds, NobodyExcludes;
    CallFacts(s, t, SleepOnBusy(nonshared));
    k := CallRuns(s, t, SleepOnBusy(nonshared));
    assert s.threads[t := s.threads[t]] == s.threads;
  }

  /** vm_page_lock takes the page lock. */
  lemma LockTakes(s: State, t: nat) returns (k: nat)
    requires Resting(s, t) && s.lock.None?
    ensures k <= 8 && Alone(Start(s, t, LockPage), t, k) == Some(s.(lock := Some(t)))
  {
    hide Inv, Alone, Woken, NobodyHolds, NobodyExcludes;
    k := CallRuns(s, t, LockPage);
    assert s.threads[t := s.threads[t]] == s.threads;
  }

  /** Once its owner unlocks the page, anybody at rest can lock it. */
  lemma LockIsHandedOn(s: State, t: nat, u: nat) returns (k: nat)
    requires Resting(s, t) && s.lock == Some(t) && u < |s.threads| && u != t && s.threads[u].pc == Idle
    ensures MayBegin(s, t, UnlockPage) && MayBegin(Start(s, t, UnlockPage), u, LockPage)
    ensures k <= 8
    ensures Alone(Start(Start(s, t, UnlockPage), u, LockPage), u, k) == Some(s.(lock := Some(u)))
  {
    BeginKeepsInv(s, t, UnlockPage);
    k := LockTakes(Start(s, t, UnlockPage), u);
  }

  /** A share given away is one the giver has no more and the receiver has, and the word does not change. */
  lemma ShareIsHandedOn(s: State, t: nat, u: nat)
    requires Resting(s, t) && u < |s.threads| && u != t && s.threads[t].shares > 0
    ensures MayBegin(s, t, GiveShare(u)) && Start(s, t, GiveShare(u)).word == s.word
    ensures var ts := Start(s, t, GiveShare(u)).threads;
            && |ts| == |s.threads| && ts[t] == s.threads[t].(shares := s.threads[t].shares - 1)
            && ts[u] == s.threads[u].(shares := s.threads[u].shares + 1)
            && TotalShares(ts) == TotalShares(s.threads)
  {
    hide Inv, TotalShares, ExclCount;
    var ts := s.threads;
    var th := ts[t].(shares := ts[t].shares - 1);
    SumsUpdate(ts, t, th);
    SumsUpdate(ts[t := th], u, ts[u].(shares := ts[u].shares + 1));
  }

  /** The same for the exclusive hold. */
  lemma ExclIsHandedOn(s: State, t: nat, u: nat)
    requires Resting(s, t) && u < |s.threads| && u != t && s.threads[t].excl
    ensures MayBegin(s, t, GiveExcl(u)) && Start(s, t, GiveExcl(u)).word == s.word
    ensures var ts := Start(s, t, GiveExcl(u)).threads;
            |ts| == |s.threads| && !ts[t].excl && ts[u].excl && !s.threads[u].excl
            && ExclCount(ts) == ExclCount(s.threads)
  {
    hide PcsOk, SleepersAnnounced, TotalShares, ExclCount;
    var ts := s.threads;
    HoldCounts(ts, t, u);
    SumsUpdate(ts, t, ts[t].(excl := false));
    SumsUpdate(ts[t := ts[t].(excl := false)], u, ts[u].(excl := true));
  }
}
