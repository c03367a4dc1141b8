/**
 What one thread of the busy lock does when nobody else moves: every operation ends after a
 few steps, the last release frees the page and leaves no sleeper, and a single thread can
 take so many shares that the count overflows.
 */
module BusyLockAlone {
  import opened Prelude
  import opened BusyLock
  import opened BusyLockRuns

  /** Thread `t` makes `k` steps of its operation, nobody else moving. */
  function Alone(s: State, t: nat, k: nat): Option<State>
    decreases k
  {
    if k == 0 then Some(s)
    else match Step(s, t, Continue)
      case None => None
      case Some(s') => Alone(s', t, k - 1)
  }

  predicate AtRest(pc: Pc) {
    pc == Idle || pc == Asleep || pc == Panicked
  }

  // ----- how many steps are left -----

  function UnshareSteps(word: nat): nat {
    if Sharers(word) > 1 || !HasWaiters(word) then 2 else 5
  }

  function DowngradeSteps(word: nat, locked: bool): nat {
    if !HasWaiters(word) then 2 else if locked then 3 else 5
  }

  /** The steps thread `t` needs to come to rest, from the word as it is. */
  function Left(word: nat, pc: Pc): nat {
    match pc
    case Idle => 0
    case Asleep => 0
    case Panicked => 0
    case LockWait => 1
    case TryShare => if HasShared(word) then 2 else 1
    case TryShareCas(x) => if word == x then 1 else 3
    case TryExcl => 1
    case Unshare => UnshareSteps(word)
    case UnshareMany(x) => if word == x then 1 else 1 + UnshareSteps(word)
    case UnshareLast => if word == SharersWord(1) then 1 else 1 + UnshareSteps(word)
    case UnshareLock(x) => if word == x then 4 else 3 + UnshareSteps(word)
    case UnshareLocked(x) => if word == x then 3 else 2 + UnshareSteps(word)
    case UnshareRetry => 1 + UnshareSteps(word)
    case UnshareWake => 2
    case UnshareUnlock => 1
    case UnexclCas(drop) => if word == SINGLE_EXCLUSIVER then 1 else if drop then 5 else 3
    case UnexclLock => 4
    case UnexclStore(drop) => if drop then 3 else 2
    case UnexclWake(drop) => if drop then 2 else 1
    case UnexclUnlock => 1
    case Downgrade(locked) => DowngradeSteps(word, locked)
    case DowngradeLock => if word == SINGLE_EXCLUSIVER + WAITERS then 4 else 3 + DowngradeSteps(word, false)
    case DowngradeCas(w, locked) =>
      if word == SINGLE_EXCLUSIVER + w then (if w == 0 then 1 else if locked then 2 else 3)
      else if w != 0 && !locked then 2 + DowngradeSteps(word, false)
      else 1 + DowngradeSteps(word, locked)
    case DowngradeRetry => 1 + DowngradeSteps(word, false)
    case DowngradeWake(locked) => if locked then 1 else 2
    case DowngradeUnlock => 1
    case Flash => if HasWaiters(word) then 3 else 1
    case FlashCas(x) => if word == x then 2 else if HasWaiters(word) then 4 else 2
    case FlashWake => 1
    case BusySleep(nonshared) => if word == UNBUSIED || (nonshared && HasShared(word)) || HasWaiters(word) then 2 else 3
    case SleepCas(x) => 2
    case SleepAbort => 1
    case SleepNow => 1
  }

  lemma AtMostEight(word: nat, pc: Pc)
    ensures Left(word, pc) <= 8 && (Left(word, pc) == 0 <==> AtRest(pc))
  {
  }

  /** A step, when nobody else has the page lock, brings the thread nearer to rest. */
  ghost predicate Nearer(word: nat, lock: Option<nat>, t: nat, th: Thread) {
    var e := Act(word, lock, t, th);
    && e.Some? && Left(e.value.word, e.value.th.pc) < Left(word, th.pc)
    && (e.value.lock.None? || e.value.lock == Some(t))
  }

  ghost predicate Ready(word: nat, lock: Option<nat>, t: nat, th: Thread, shares: nat, excls: nat) {
    && (lock.None? || lock == Some(t)) && PcOk(word, lock == Some(t), th) && Decodes(word, shares, excls)
    && shares >= th.shares && excls >= (if th.excl then 1 else 0)
  }

  lemma ShareNearer(word: nat, lock: Option<nat>, t: nat, th: Thread, shares: nat, excls: nat)
    requires Ready(word, lock, t, th, shares, excls)
    requires th.pc.LockWait? || th.pc.TryShare? || th.pc.TryShareCas? || th.pc.TryExcl?
    ensures Nearer(word, lock, t, th)
  {
    hide HasShared, HasExclusive, HasWaiters, Sharers, AddSharer;
    WordFacts(word, shares, excls);
  }

  lemma UnshareNearer(word: nat, lock: Option<nat>, t: nat, th: Thread, shares: nat, excls: nat)
    requires Ready(word, lock, t, th, shares, excls)
    requires th.pc.Unshare? || th.pc.UnshareMany? || th.pc.UnshareLast?
    ensures Nearer(word, lock, t, th)
  {
    hide HasShared, HasExclusive, HasWaiters, Sharers, AddSharer;
    WordFacts(word, shares, excls);
  }

  lemma UnshareSlowNearer(word: nat, lock: Option<nat>, t: nat, th: Thread, shares: nat, excls: nat)
    requires Ready(word, lock, t, th, shares, excls)
    requires th.pc.UnshareLock? || th.pc.UnshareLocked? || th.pc.UnshareRetry? || th.pc.UnshareWake?
             || th.pc.UnshareUnlock?
    ensures Nearer(word, lock, t, th)
  {
    hide HasShared, HasExclusive, HasWaiters, Sharers, AddSharer;
    WordFacts(word, shares, excls);
  }

  lemma UnexclNearer(word: nat, lock: Option<nat>, t: nat, th: Thread, shares: nat, excls: nat)
    requires Ready(word, lock, t, th, shares, excls)
    requires th.pc.UnexclCas? || th.pc.UnexclLock? || th.pc.UnexclStore? || th.pc.UnexclWake?
             || th.pc.UnexclUnlock?
    ensures Nearer(word, lock, t, th)
  {
    hide HasShared, HasExclusive, HasWaiters, Sharers, AddSharer;
    WordFacts(word, shares, excls);
  }

  lemma DowngradeNearer(word: nat, lock: Option<nat>, t: nat, th: Thread, shares: nat, excls: nat)
    requires Ready(word, lock, t, th, shares, excls)
    requires th.pc.Downgrade? || th.pc.DowngradeRetry?
    ensures Nearer(word, lock, t, th)
  {
    hide HasShared, HasExclusive, HasWaiters, Sharers, AddSharer;
    WordFacts(word, shares, excls);
  }

  lemma DowngradeEndNearer(word: nat, lock: Option<nat>, t: nat, th: Thread, shares: nat, excls: nat)
    requires Ready(word, lock, t, th, shares, excls)
    requires th.pc.DowngradeWake? || th.pc.DowngradeUnlock?
    ensures Nearer(word, lock, t, th)
  {
    hide HasShared, HasExclusive, HasWaiters, Sharers, AddSharer;
    WordFacts(word, shares, excls);
  }

  lemma DowngradeLockNearer(word: nat, lock: Option<nat>, t: nat, th: Thread, shares: nat, excls: nat)
    requires Ready(word, lock, t, th, shares, excls)
    requires th.pc.DowngradeLock?
    ensures Nearer(word, lock, t, th)
  {
    hide HasShared, HasExclusive, HasWaiters, Sharers, AddSharer;
    WordFacts(word, shares, excls);
  }

  lemma DowngradeCasNearer(word: nat, lock: Option<nat>, t: nat, th: Thread, shares: nat, excls: nat)
    requires Ready(word, lock, t, th, shares, excls)
    requires th.pc.DowngradeCas?
    ensures Nearer(word, lock, t, th)
  {
    hide HasShared, HasExclusive, HasWaiters, Sharers, AddSharer;
    WordFacts(word, shares, excls);
  }

  lemma FlashNearer(word: nat, lock: Option<nat>, t: nat, th: Thread, shares: nat, excls: nat)
    requires Ready(word, lock, t, th, shares, excls)
    requires th.pc.Flash? || th.pc.FlashWake?
    ensures Nearer(word, lock, t, th)
  {
    hide HasShared, HasExclusive, HasWaiters, Sharers, AddSharer;
    WordFacts(word, shares, excls);
  }

  lemma FlashCasNearer(word: nat, lock: Option<nat>, t: nat, th: Thread, shares: nat, excls: nat)
    requires Ready(word, lock, t, th, shares, excls)
    requires th.pc.FlashCas?
    ensures Nearer(word, lock, t, th)
  {
    hide HasShared, HasExclusive, HasWaiters, Sharers, AddSharer;
    WordFacts(word, shares, excls);
  }

  lemma SleepNearer(word: nat, lock: Option<nat>, t: nat, th: Thread, shares: nat, excls: nat)
    requires Ready(word, lock, t, th, shares, excls)
    requires th.pc.SleepAbort? || th.pc.SleepNow?
    ensures Nearer(word, lock, t, th)
  {
    hide HasShared, HasExclusive, HasWaiters, Sharers, AddSharer;
    WordFacts(word, shares, excls);
  }

  lemma SleepCasNearer(word: nat, lock: Option<nat>, t: nat, th: Thread, shares: nat, excls: nat)
    requires Ready(word, lock, t, th, shares, excls)
    requires th.pc.SleepCas?
    ensures Nearer(word, lock, t, th)
  {
    hide HasShared, HasExclusive, HasWaiters, Sharers, AddSharer;
    WordFacts(word, shares, excls);
  }

  lemma BusySleepNearer(word: nat, lock: Option<nat>, t: nat, th: Thread, shares: nat, excls: nat)
    requires Ready(word, lock, t, th, shares, excls)
    requires th.pc.BusySleep?
    ensures Nearer(word, lock, t, th)
  {
    hide HasShared, HasExclusive, HasWaiters, Sharers, AddSharer;
    WordFacts(word, shares, excls);
  }


  lemma EachNearer(word: nat, lock: Option<nat>, t: nat, th: Thread, shares: nat, excls: nat)
    requires Ready(word, lock, t, th, shares, excls) && !AtRest(th.pc)
    ensures Nearer(word, lock, t, th)
  {
    hide Ready, Nearer;
    var pc := th.pc;
    if pc.LockWait? || pc.TryShare? || pc.TryShareCas? || pc.TryExcl? {
      ShareNearer(word, lock, t, th, shares, excls);
    } else if pc.Unshare? || pc.UnshareMany? || pc.UnshareLast? {
      UnshareNearer(word, lock, t, th, shares, excls);
    } else if pc.UnshareLock? || pc.UnshareLocked? || pc.UnshareRetry? || pc.UnshareWake? || pc.UnshareUnlock? {
      UnshareSlowNearer(word, lock, t, th, shares, excls);
    } else if pc.UnexclCas? || pc.UnexclLock? || pc.UnexclStore? || pc.UnexclWake? || pc.UnexclUnlock? {
      UnexclNearer(word, lock, t, th, shares, excls);
    } else if pc.Downgrade? || pc.DowngradeRetry? {
      DowngradeNearer(word, lock, t, th, shares, excls);
    } else if pc.DowngradeWake? || pc.DowngradeUnlock? {
      DowngradeEndNearer(word, lock, t, th, shares, excls);
    } else if pc.DowngradeLock? {
      DowngradeLockNearer(word, lock, t, th, shares, excls);
    } else if pc.DowngradeCas? {
      DowngradeCasNearer(word, lock, t, th, shares, excls);
    } else if pc.FlashCas? {
      FlashCasNearer(word, lock, t, th, shares, excls);
    } else if pc.Flash? || pc.FlashWake? {
      FlashNearer(word, lock, t, th, shares, excls);
    } else if pc.SleepCas? {
      SleepCasNearer(word, lock, t, th, shares, excls);
    } else if pc.BusySleep? {
      BusySleepNearer(word, lock, t, th, shares, excls);
    } else {
      SleepNearer(word, lock, t, th, shares, excls);
    }
  }

  // ----- every operation ends -----

  /** Thread `t` may go on by itself: the page lock is free or its own, and the share it may be taking fits. */
  ghost predicate Free(s: State, t: nat) {
    && t < |s.threads| && (s.lock.None? || s.lock == Some(t))
    && (Taking(s.threads[t].pc) ==> TotalShares(s.threads) < MAX_SHARERS)
  }

  /** Only a thread taking a share goes on taking one, and it has not taken it yet. */
  predicate Taking(pc: Pc) { pc.TryShare? || pc.TryShareCas? }

  lemma TakingGoesOn(word: nat, lock: Option<nat>, t: nat, th: Thread)
    requires Taking(th.pc) && Act(word, lock, t, th).Some?
    ensures var e := Act(word, lock, t, th).value;
            Taking(e.th.pc) ==> e.th.shares == th.shares && !e.wake
  {
  }

  lemma ReleaseTakesNone(word: nat, lock: Option<nat>, t: nat, th: Thread)
    requires Releasing(th.pc) && Act(word, lock, t, th).Some?
    ensures !Taking(Act(word, lock, t, th).value.th.pc)
  {
    hide HasShared, HasExclusive, HasWaiters, Sharers, AddSharer, SetWaiters, ClearWaiters, SharersWord;
  }

  lemma TakesNoMore(word: nat, lock: Option<nat>, t: nat, th: Thread)
    requires !Taking(th.pc) && !Releasing(th.pc) && Act(word, lock, t, th).Some?
    ensures !Taking(Act(word, lock, t, th).value.th.pc)
  {
    hide HasShared, HasExclusive, HasWaiters, Sharers, AddSharer, SetWaiters, ClearWaiters, SharersWord;
  }

  lemma StillTaking(word: nat, lock: Option<nat>, t: nat, th: Thread)
    requires Act(word, lock, t, th).Some?
    ensures var e := Act(word, lock, t, th).value;
            Taking(e.th.pc) ==> Taking(th.pc) && e.th.shares == th.shares && !e.wake
  {
    hide HasShared, HasExclusive, HasWaiters, Sharers, AddSharer, SetWaiters, ClearWaiters, Taking, Releasing, Act;
    if Taking(th.pc) {
      TakingGoesOn(word, lock, t, th);
    } else if Releasing(th.pc) {
      ReleaseTakesNone(word, lock, t, th);
    } else {
      TakesNoMore(word, lock, t, th);
    }
  }

  lemma AloneStep(s: State, t: nat)
    requires Inv(s) && Free(s, t) && !AtRest(s.threads[t].pc)
    ensures Step(s, t, Continue).Some?
    ensures var s' := Step(s, t, Continue).value;
            && Inv(s') && Free(s', t) && |s'.threads| == |s.threads|
            && Left(s'.word, s'.threads[t].pc) < Left(s.word, s.threads[t].pc)
  {
    hide Act, PcOk, Decodes, Left;
    var th := s.threads[t];
    SumsUpdate(s.threads, t, th);
    assert PcOk(s.word, s.lock == Some(t), th);
    EachNearer(s.word, s.lock, t, th, TotalShares(s.threads), ExclCount(s.threads));
    WordFacts(s.word, TotalShares(s.threads), ExclCount(s.threads));
    SharesFit(s, t);
    ContinueKeepsInv(s, t);
    StillTaking(s.word, s.lock, t, th);
    var e := Act(s.word, s.lock, t, th).value;
    SumsUpdate(s.threads, t, e.th);
    assert Step(s, t, Continue) == Some(Apply(s, t, e));
  }

  lemma SharesFit(s: State, t: nat)
    requires Inv(s) && Free(s, t)
    ensures !Overflows(s, t, Continue)
  {
    WordFacts(s.word, TotalShares(s.threads), ExclCount(s.threads));
    assert PcOk(s.word, s.lock == Some(t), s.threads[t]);
  }

  lemma FreeMeans(s: State, t: nat)
    requires Inv(s) && Free(s, t)
    ensures t < |s.threads| && (s.lock.None? || s.lock == Some(t)) && s.threads[t].pc != Panicked
  {
    assert PcOk(s.word, s.lock == Some(t), s.threads[t]);
  }

  /**
   From any state of the invariant, a thread that runs alone comes to rest, done or asleep,
   after at most eight steps, holding the page lock only if it was its own to hold.
   */
  lemma {:induction false} AloneEnds(s: State, t: nat) returns (k: nat)
    requires Inv(s) && t < |s.threads| && Free(s, t)
    ensures k <= Left(s.word, s.threads[t].pc) <= 8
    ensures Alone(s, t, k).Some?
    ensures var s' := Alone(s, t, k).value;
            && Inv(s') && |s'.threads| == |s.threads| && (s'.lock.None? || s'.lock == Some(t))
            && (s'.threads[t].pc == Idle || s'.threads[t].pc == Asleep)
    decreases Left(s.word, s.threads[t].pc)
  {
    hide Inv, Left, Step, Free;
    AtMostEight(s.word, s.threads[t].pc);
    FreeMeans(s, t);
    if AtRest(s.threads[t].pc) {
      k := 0;
    } else {
      AloneStep(s, t);
      var n := AloneEnds(Step(s, t, Continue).value, t);
      k := n + 1;
    }
  }

  // ----- the last release -----

  /** Inside a release, with the hold still to be given up or already given up. */
  predicate Owing(pc: Pc) {
    || pc.Unshare? || pc.UnshareMany? || pc.UnshareLast? || pc.UnshareLock? || pc.UnshareLocked? || pc.UnshareRetry?
    || pc.UnexclCas? || pc.UnexclLock? || pc.UnexclStore?
  }

  predicate Releasing(pc: Pc) {
    Owing(pc) || pc.UnshareWake? || pc.UnshareUnlock? || pc.UnexclWake? || pc.UnexclUnlock? || pc.Idle?
  }

  /** The holds a thread has, less the one its release still has to give up. */
  function Kept(th: Thread): int {
    th.shares + (if th.excl then 1 else 0) - (if Owing(th.pc) then 1 else 0)
  }

  lemma ReleaseStep(word: nat, lock: Option<nat>, t: nat, th: Thread)
    requires Releasing(th.pc) && PcOk(word, lock == Some(t), th) && Act(word, lock, t, th).Some?
    ensures var e := Act(word, lock, t, th).value;
            e.th.pc != Panicked ==> Releasing(e.th.pc) && Kept(e.th) == Kept(th)
  {
    hide HasShared, HasExclusive, HasWaiters, Sharers, AddSharer, SetWaiters, ClearWaiters;
  }

  /** The holds of everybody, less the one thread `t` still has to give up. */
  function AllKept(s: State, t: nat): int
    requires t < |s.threads|
  {
    TotalShares(s.threads) + ExclCount(s.threads) - (if Owing(s.threads[t].pc) then 1 else 0)
  }

  lemma ReleaseAlone(s: State, t: nat)
    requires Inv(s) && Free(s, t) && !AtRest(s.threads[t].pc) && Releasing(s.threads[t].pc)
    ensures Step(s, t, Continue).Some?
    ensures var s' := Step(s, t, Continue).value;
            && |s'.threads| == |s.threads|
            && (s'.threads[t].pc != Panicked ==> Releasing(s'.threads[t].pc) && AllKept(s', t) == AllKept(s, t))
  {
    AloneStep(s, t);
    var th := s.threads[t];
    assert PcOk(s.word, s.lock == Some(t), th);
    ReleaseStep(s.word, s.lock, t, th);
    var e := Act(s.word, s.lock, t, th).value;
    KeptMoves(s, t, e);
  }

  lemma KeptMoves(s: State, t: nat, e: Effect)
    requires t < |s.threads| && Kept(e.th) == Kept(s.threads[t])
    ensures AllKept(Apply(s, t, e), t) == AllKept(s, t)
  {
    var base := if e.wake then Woken(s.threads) else s.threads;
    SumsWoken(s.threads);
    SumsUpdate(base, t, e.th);
  }

  lemma {:induction false} ReleaseEnds(s: State, t: nat, k: nat)
    requires Inv(s) && t < |s.threads| && Free(s, t) && Releasing(s.threads[t].pc) && AllKept(s, t) == 0
    requires Alone(s, t, k).Some?
    ensures var s' := Alone(s, t, k).value;
            |s'.threads| == |s.threads| && Inv(s') && Releasing(s'.threads[t].pc) && AllKept(s', t) == 0
    decreases k
  {
    hide Inv, Free, AllKept, Left, Step, Releasing;
    if k > 0 {
      NotAtRest(s, t);
      AloneStep(s, t);
      ReleaseAlone(s, t);
      var s' := Step(s, t, Continue).value;
      FreeMeans(s', t);
      ReleaseEnds(s', t, k - 1);
    }
  }

  lemma NotAtRest(s: State, t: nat)
    requires t < |s.threads| && Step(s, t, Continue).Some?
    ensures !AtRest(s.threads[t].pc)
  {
  }

  predicate IsRelease(call: Call) {
    call.Sunbusy? || call.Xunbusy? || call.XunbusyMaybeLocked?
  }

  /**
   The last hold of the page released by a thread that runs alone: in at most eight steps the
   release is over, the page is unbusied, nobody holds it and nobody sleeps on it any more.
   */
  lemma LastReleaseFrees(s: State, t: nat, call: Call) returns (k: nat)
    requires Inv(s) && t < |s.threads| && (s.lock.None? || s.lock == Some(t))
    requires IsRelease(call) && MayBegin(s, t, call)
    requires TotalShares(s.threads) + ExclCount(s.threads) == 1
    ensures k <= 8 && Alone(Start(s, t, call), t, k).Some?
    ensures var s' := Alone(Start(s, t, call), t, k).value;
            && |s'.threads| == |s.threads| && s'.word == UNBUSIED && s'.threads[t].pc == Idle
            && (forall u :: 0 <= u < |s'.threads| ==> !Holds(s'.threads[u]) && s'.threads[u].pc != Asleep)
  {
    hide PcsOk, SleepersAnnounced, Act, Left;
    var s1 := Start(s, t, call);
    BeginKeepsInv(s, t, call);
    SumsUpdate(s.threads, t, s1.threads[t]);
    k := AloneEnds(s1, t);
    ReleaseEnds(s1, t, k);
    var s' := Alone(s1, t, k).value;
    NobodyLeft(s', t);
  }

  lemma NobodyLeft(s: State, t: nat)
    requires Inv(s) && t < |s.threads| && (s.lock.None? || s.lock == Some(t))
    requires s.threads[t].pc == Idle && AllKept(s, t) == 0
    ensures s.word == UNBUSIED
    ensures forall u :: 0 <= u < |s.threads| ==> !Holds(s.threads[u]) && s.threads[u].pc != Asleep
  {
    hide PcOk, PcsOk;
    InvTells(s);
    WordFacts(s.word, TotalShares(s.threads), ExclCount(s.threads));
  }

  // ----- one thread can take every share -----

  /** One page and one thread, idle, with `n` shares. */
  function Sharing(n: nat): State {
    State(SharersWord(n), None, [Thread(Idle, n, false)])
  }

  /** `n` calls of vm_page_trysbusy, each begun and run to its end. */
  function Takes(n: nat): seq<(nat, Move)> {
    if n == 0 then [] else [(0, Begin(TrySbusy)), (0, Continue), (0, Continue)] + Takes(n - 1)
  }

  /** The first move of a schedule, and then the rest of it. */
  lemma RunHead(s: State, t: nat, move: Move, s': State, rest: seq<(nat, Move)>)
    requires Step(s, t, move) == Some(s')
    ensures Run(s, [(t, move)] + rest) == Run(s', rest)
    ensures RunOverflows(s, [(t, move)] + rest) == (Overflows(s, t, move) || RunOverflows(s', rest))
  {
    hide Step, Overflows;
    var moves := [(t, move)] + rest;
    assert moves[0] == (t, move) && moves[1..] == rest;
  }

  /** In the middle of taking one more share: about to load, and about to compare and set. */
  function Loading(n: nat): State {
    State(SharersWord(n), None, [Thread(TryShare, n, false)])
  }

  function Adding(n: nat): State {
    State(SharersWord(n), None, [Thread(TryShareCas(SharersWord(n)), n, false)])
  }

  lemma TakeBegins(n: nat)
    ensures Step(Sharing(n), 0, Begin(TrySbusy)) == Some(Loading(n))
  {
    hide Act, SharersWord;
    assert Start(Sharing(n), 0, TrySbusy).threads == Loading(n).threads;
  }

  lemma TakeLoads(n: nat)
    ensures Step(Loading(n), 0, Continue) == Some(Adding(n))
  {
    hide SharersWord, Sharers, HasShared;
    SharedWord(n);
    var s := Loading(n);
    assert Act(s.word, None, 0, s.threads[0]) == Go(s.word, None, s.threads[0], TryShareCas(s.word));
    assert s.threads[0 := Thread(TryShareCas(s.word), n, false)] == Adding(n).threads;
  }

  /** The share number `n + 1`, whatever its effect on the word. */
  lemma TakeAdds(n: nat)
    ensures Step(Adding(n), 0, Continue)
            == Some(State(AddSharer(SharersWord(n)), None, [Thread(Idle, n + 1, false)]))
    ensures Overflows(Adding(n), 0, Continue) <==> n == MAX_SHARERS
  {
    hide SharersWord, Sharers, AddSharer;
    SharedWord(n);
    var s := Adding(n);
    var th := Thread(Idle, n + 1, false);
    var e := Effect(AddSharer(s.word), None, th, false);
    assert Act(s.word, None, 0, s.threads[0]) == Some(e);
    assert s.threads[0 := th] == [th];
  }

  lemma OneTake(n: nat, rest: seq<(nat, Move)>)
    requires n < MAX_SHARERS
    ensures var moves := [(0, Begin(TrySbusy)), (0, Continue), (0, Continue)] + rest;
            && Run(Sharing(n), moves) == Run(Sharing(n + 1), rest)
            && RunOverflows(Sharing(n), moves) == RunOverflows(Sharing(n + 1), rest)
  {
    hide Run, RunOverflows, Step;
    TakeBegins(n);
    TakeLoads(n);
    TakeAdds(n);
    assert AddSharer(SharersWord(n)) == SharersWord(n + 1);
    var last := [(0, Continue)] + rest;
    var two := [(0, Continue)] + last;
    RunHead(Adding(n), 0, Continue, Sharing(n + 1), rest);
    RunHead(Loading(n), 0, Continue, Adding(n), last);
    RunHead(Sharing(n), 0, Begin(TrySbusy), Loading(n), two);
    assert [(0, Begin(TrySbusy)), (0, Continue), (0, Continue)] + rest == [(0, Begin(TrySbusy))] + two;
  }

  lemma {:induction false} TakesAll(m: nat, n: nat, rest: seq<(nat, Move)>)
    requires m + n <= MAX_SHARERS
    ensures Run(Sharing(m), Takes(n) + rest) == Run(Sharing(m + n), rest)
    ensures RunOverflows(Sharing(m), Takes(n) + rest) == RunOverflows(Sharing(m + n), rest)
    decreases n
  {
    hide Run, RunOverflows, Sharing;
    if n == 0 {
      assert Takes(n) + rest == rest;
    } else {
      OneTake(m, Takes(n - 1) + rest);
      assert Takes(n) + rest == [(0, Begin(TrySbusy)), (0, Continue), (0, Continue)] + (Takes(n - 1) + rest);
      TakesAll(m + 1, n - 1, rest);
    }
  }

  lemma AddingInv(n: nat)
    requires n <= MAX_SHARERS
    ensures Inv(Adding(n))
  {
    hide SharersWord, HasShared, HasExclusive, HasWaiters;
    SharedWord(n);
    OneThread(Adding(n).threads[0]);
  }

  lemma OneThread(th: Thread)
    ensures TotalShares([th]) == th.shares && ExclCount([th]) == if th.excl then 1 else 0
  {
    assert [th][..0] == [];
  }

  /**
   The overflow is reached from a fresh page by one thread alone: after the largest number of
   shares it takes one more, and the page it holds reads as unbusied.
   */
  lemma OverflowIsReached() returns (schedule: seq<(nat, Move)>)
    ensures Run(Init(1), schedule).Some? && !RunOverflows(Init(1), schedule)
    ensures var s := Run(Init(1), schedule).value;
            && Inv(s) && Overflows(s, 0, Continue) && Step(s, 0, Continue).Some?
            && Step(s, 0, Continue).value.word == UNBUSIED
            && TotalShares(Step(s, 0, Continue).value.threads) == MAX_SHARERS + 1
  {
    schedule := LastTake(MAX_SHARERS);
    OneThread(Thread(Idle, MAX_SHARERS + 1, false));
    TakeAdds(MAX_SHARERS);
    AddingInv(MAX_SHARERS);
  }

  /** After `n` shares, the thread stands before the compare-and-set of the next. */
  lemma LastTake(n: nat) returns (schedule: seq<(nat, Move)>)
    requires n <= MAX_SHARERS
    ensures Run(Init(1), schedule) == Some(Adding(n)) && !RunOverflows(Init(1), schedule)
  {
    hide Takes, Step;
    var load := [(0, Continue)] + [];
    var rest := [(0, Begin(TrySbusy))] + load;
    schedule := Takes(n) + rest;
    assert Init(1) == Sharing(0);
    TakesAll(0, n, rest);
    TakeBegins(n);
    TakeLoads(n);
    RunHead(Sharing(n), 0, Begin(TrySbusy), Loading(n), load);
    RunHead(Loading(n), 0, Continue, Adding(n), []);
  }
}
