/**
 The busy lock of a VM page: a reader/writer lock packed into one 32-bit word, taken and
 released with compare-and-set, with a waiters bit and sleep/wakeup under the page lock.

 Any number of threads take atomic steps (one load, one compare-and-set, one lock or
 unlock, one sleep or wakeup) in any order.  `Act` is what one thread does next, `Step`
 applies it to the whole state, and `Run` is an arbitrary schedule of such steps.
 */
module BusyLock {
  import opened Prelude
  import Words
  import Rounding

  // ----- the word -----

  const WORD_MODULUS := 0x1_0000_0000
  const UNBUSIED := 1
  const SINGLE_EXCLUSIVER := 2
  const WAITERS := 4
  const ONE_SHARER := 8
  /** The largest number of sharers the word can count. */
  const MAX_SHARERS := 0x1FFF_FFFF

  predicate HasShared(x: nat) { x % 2 == 1 }
  predicate HasExclusive(x: nat) { x / 2 % 2 == 1 }
  predicate HasWaiters(x: nat) { x / 4 % 2 == 1 }
  function Sharers(x: nat): nat { x / 8 }
  function SharersWord(n: nat): nat { 8 * n + 1 }
  function SetWaiters(x: nat): nat { if HasWaiters(x) then x else x + WAITERS }
  function ClearWaiters(x: nat): nat { if HasWaiters(x) then x - WAITERS else x }

  /** x + ONE_SHARER in 32-bit arithmetic. */
  function AddSharer(x: nat): nat {
    if x + ONE_SHARER < WORD_MODULUS then x + ONE_SHARER else x + ONE_SHARER - WORD_MODULUS
  }

  /** The arithmetic reading of the word is the bitwise one of the source, for every 32-bit word. */
  lemma WordOperators(x: nat)
    requires x < WORD_MODULUS
    ensures HasShared(x) <==> Words.And(x, 1) != 0
    ensures HasExclusive(x) <==> Words.And(x, 2) != 0
    ensures HasWaiters(x) <==> Words.And(x, 4) != 0
    ensures SetWaiters(x) == Words.Or(x, 4)
    ensures ClearWaiters(x) == Words.And(x, Words.Not(4, 32))
    ensures Sharers(x) == Words.And(x, Words.Not(7, 32)) / 8
    ensures SharersWord(x) == Words.Or(Words.Shl(x, 3), 1)
  {
    hide Words.And, Words.Or, Words.Not, Words.Shl, HasShared, HasExclusive, HasWaiters, ClearWaiters;
    AndBits(x);
    OrFour(x);
    AndNotFour(x);
    AndNotSeven(x);
    OrOne(x);
  }

  lemma AndBits(x: nat)
    ensures HasShared(x) <==> Words.And(x, 1) != 0
    ensures HasExclusive(x) <==> Words.And(x, 2) != 0
    ensures HasWaiters(x) <==> Words.And(x, 4) != 0
  {
    AndSmall(x);
  }

  lemma FourBits(k: nat)
    ensures Words.Pow2(k + 4) == 16 * Words.Pow2(k)
  {
    assert Words.Pow2(k + 2) == 4 * Words.Pow2(k);
  }

  lemma EightBits(k: nat)
    ensures Words.Pow2(k + 8) == 256 * Words.Pow2(k)
  {
    FourBits(k);
    FourBits(k + 4);
  }

  lemma Pow32()
    ensures Words.Pow2(3) == 8 && Words.Pow2(29) == 0x2000_0000 && Words.Pow2(32) == WORD_MODULUS
  {
    assert Words.Pow2(5) == 32;
    EightBits(5);
    EightBits(13);
    EightBits(21);
    assert Words.Pow2(32) == 8 * Words.Pow2(29);
  }

  lemma AndNotSeven(x: nat)
    requires x < WORD_MODULUS
    ensures Sharers(x) == Words.And(x, Words.Not(7, 32)) / 8
  {
    hide Words.And, Words.Not, Words.Pow2;
    Pow32();
    Rounding.ClearIsMultiple(x, 3, 32);
  }

  /** ~4 is 29 ones, a zero and two ones. */
  lemma NotFour()
    ensures Words.Not(4, 32) == 2 * (2 * (2 * Words.Not(0, 29)) + 1) + 1
  {
    assert Words.Not(1, 30) == 2 * Words.Not(0, 29);
    assert Words.Not(2, 31) == 2 * Words.Not(1, 30) + 1;
  }

  lemma AndNotFour(x: nat)
    requires x < WORD_MODULUS
    ensures ClearWaiters(x) == Words.And(x, Words.Not(4, 32))
  {
    hide Words.And, Words.Not, Words.Pow2, ClearWaiters;
    var ones := Words.Not(0, 29);
    var h, q, e := x / 2, x / 4, x / 8;
    assert h / 2 == q && q / 2 == e;
    Pow32();
    NotFour();
    Rounding.AllOnes(e, 29);
    Rounding.AndEven(q, ones);
    Rounding.AndOdd(h, 2 * ones);
    Rounding.AndOdd(x, 2 * (2 * ones) + 1);
    ClearedBits(x);
  }

  lemma ClearedBits(x: nat)
    ensures ClearWaiters(x) == 2 * (2 * (2 * (x / 8)) + x / 2 % 2) + x % 2
  {
    assert x / 4 / 2 == x / 8 && x / 2 / 2 == x / 4;
  }

  lemma OrOne(n: nat)
    ensures SharersWord(n) == Words.Or(Words.Shl(n, 3), 1)
  {
    hide Words.Or;
    assert Words.Shl(n, 3) == 2 * Words.Shl(n, 2) && Words.Shl(n, 2) == 2 * Words.Shl(n, 1);
    OrOneEven(4 * n);
  }

  lemma OrOneEven(h: nat)
    ensures Words.Or(2 * h, 1) == 2 * h + 1
  {
    assert 2 * h / 2 == h && 2 * h % 2 == 0;
    assert Words.Or(h, 0) == h;
  }

  lemma AndSmall(x: nat)
    ensures Words.And(x, 1) == x % 2
    ensures Words.And(x, 2) == 2 * (x / 2 % 2)
    ensures Words.And(x, 4) == 4 * (x / 4 % 2)
  {
    assert forall y: nat {:trigger Words.And(y, 0)} :: Words.And(y, 0) == 0;
    assert forall y: nat {:trigger Words.And(y, 1)} :: Words.And(y, 1) == y % 2 by {
      forall y: nat ensures Words.And(y, 1) == y % 2 { assert Words.And(y / 2, 0) == 0; }
    }
    assert forall y: nat {:trigger Words.And(y, 2)} :: Words.And(y, 2) == 2 * (y / 2 % 2) by {
      forall y: nat ensures Words.And(y, 2) == 2 * (y / 2 % 2) { assert Words.And(y / 2, 1) == y / 2 % 2; }
    }
    assert Words.And(x / 2, 2) == 2 * (x / 2 / 2 % 2);
    assert x / 2 / 2 == x / 4;
  }

  lemma OrFour(x: nat)
    ensures Words.Or(x, 4) == SetWaiters(x)
  {
    var h, q := x / 2, x / 4;
    assert h / 2 == q;
    assert Words.Or(q, 1) == if q % 2 == 1 then q else q + 1;
    assert Words.Or(h, 2) == if h == 0 then 2 else 2 * Words.Or(q, 1) + h % 2;
    assert Words.Or(x, 4) == if x == 0 then 4 else 2 * Words.Or(h, 2) + x % 2;
  }

  // ----- threads -----

  /**
   Where a thread is.  Each constructor names the atomic operation the thread performs
   next, with the locals of the C function that are still live.  `drop` says whether the
   function took the page lock itself and must release it.
   */
  datatype Pc =
    | Idle
    | LockWait                           // vm_page_lock
    | TryShare | TryShareCas(x: nat)     // vm_page_trysbusy
    | TryExcl                            // vm_page_tryxbusy
    | Unshare                            // vm_page_sunbusy: load
    | UnshareMany(x: nat)                //   more than one sharer
    | UnshareLast                        //   last sharer, no waiters
    | UnshareLock(x: nat) | UnshareLocked(x: nat) | UnshareRetry | UnshareWake | UnshareUnlock
    | UnexclCas(drop: bool) | UnexclLock // vm_page_xunbusy, _maybelocked, _hard
    | UnexclStore(drop: bool) | UnexclWake(drop: bool) | UnexclUnlock
    | Downgrade(locked: bool)            // vm_page_busy_downgrade: load
    | DowngradeLock | DowngradeCas(w: nat, locked: bool) | DowngradeRetry
    | DowngradeWake(locked: bool) | DowngradeUnlock
    | Flash | FlashCas(x: nat) | FlashWake                        // vm_page_flash
    | BusySleep(nonshared: bool) | SleepCas(x: nat) | SleepAbort  // vm_page_busy_sleep
    | SleepNow | Asleep
    | Panicked                           // a KASSERT failed

  /** `shares` and `excl` are the busy holds the thread really has. */
  datatype Thread = Thread(pc: Pc, shares: nat, excl: bool)


  /** The page: its busy word, the owner of its page lock, and the threads that use it. */
  datatype State = State(word: nat, lock: Option<nat>, threads: seq<Thread>)

  /** What one atomic operation does: the new word, lock and thread, and whether it is a wakeup. */
  datatype Effect = Effect(word: nat, lock: Option<nat>, th: Thread, wake: bool)

  /** The next atomic operation of thread `t`; None when it is idle, asleep, stopped or waiting for the lock. */
  function Act(word: nat, lock: Option<nat>, t: nat, th: Thread): Option<Effect> {
    match th.pc
    case Idle => None
    case Asleep => None
    case Panicked => None
    case LockWait => Acquire(word, lock, t, th.(pc := Idle))
    // vm_page_trysbusy
    case TryShare =>
      Go(word, lock, th, if !HasShared(word) then Idle else TryShareCas(word))
    case TryShareCas(x) =>
      if word == x
      then Some(Effect(AddSharer(x), lock, Thread(Idle, th.shares + 1, th.excl), false))
      else Go(word, lock, th, TryShare)
    // vm_page_tryxbusy
    case TryExcl =>
      if word == UNBUSIED
      then Some(Effect(SINGLE_EXCLUSIVER, lock, Thread(Idle, th.shares, true), false))
      else Go(word, lock, th, Idle)
    // vm_page_sunbusy
    case Unshare =>
      Go(word, lock, th,
         if Sharers(word) > 1 then UnshareMany(word)
         else if !HasWaiters(word) then (if word == SharersWord(1) then UnshareLast else Panicked)
         else if word == SharersWord(1) + WAITERS then UnshareLock(word) else Panicked)
    case UnshareMany(x) =>
      if word == x && th.shares > 0 && x >= ONE_SHARER
      then Some(Effect(x - ONE_SHARER, lock, Thread(Idle, th.shares - 1, th.excl), false))
      else Go(word, lock, th, Unshare)
    case UnshareLast =>
      if word == SharersWord(1) && th.shares > 0
      then Some(Effect(UNBUSIED, lock, Thread(Idle, th.shares - 1, th.excl), false))
      else Go(word, lock, th, Unshare)
    case UnshareLock(x) => Acquire(word, lock, t, th.(pc := UnshareLocked(x)))
    case UnshareLocked(x) =>
      if word == x && th.shares > 0
      then Some(Effect(UNBUSIED, lock, Thread(UnshareWake, th.shares - 1, th.excl), false))
      else Go(word, lock, th, UnshareRetry)
    case UnshareRetry => Go(word, None, th, Unshare)
    case UnshareWake => Some(Effect(word, lock, th.(pc := UnshareUnlock), true))
    case UnshareUnlock => Go(word, None, th, Idle)
    // vm_page_xunbusy and vm_page_xunbusy_maybelocked
    case UnexclCas(drop) =>
      if word == SINGLE_EXCLUSIVER
      then Some(Effect(UNBUSIED, lock, Thread(Idle, th.shares, false), false))
      else Go(word, lock, th, if !HasExclusive(word) then Panicked
                              else if drop then UnexclLock else UnexclStore(false))
    case UnexclLock => Acquire(word, lock, t, th.(pc := UnexclStore(true)))
    case UnexclStore(drop) =>
      if !HasExclusive(word) || lock != Some(t) then Go(word, lock, th, Panicked)
      else Some(Effect(UNBUSIED, lock, Thread(UnexclWake(drop), th.shares, false), false))
    case UnexclWake(drop) =>
      Some(Effect(word, lock, th.(pc := if drop then UnexclUnlock else Idle), true))
    case UnexclUnlock => Go(word, None, th, Idle)
    // vm_page_busy_downgrade
    case Downgrade(locked) =>
      if HasWaiters(word)
      then Go(word, lock, th, if locked then DowngradeCas(WAITERS, true) else DowngradeLock)
      else Go(word, lock, th, DowngradeCas(0, locked))
    case DowngradeLock => Acquire(word, lock, t, th.(pc := DowngradeCas(WAITERS, false)))
    case DowngradeCas(w, locked) =>
      if word == SINGLE_EXCLUSIVER + w
      then Some(Effect(SharersWord(1), lock,
                       Thread(if w != 0 then DowngradeWake(locked) else Idle, th.shares + 1, false), false))
      else Go(word, lock, th, if w != 0 && !locked then DowngradeRetry else Downgrade(locked))
    case DowngradeRetry => Go(word, None, th, Downgrade(false))
    case DowngradeWake(locked) =>
      Some(Effect(word, lock, th.(pc := if locked then Idle else DowngradeUnlock), true))
    case DowngradeUnlock => Go(word, None, th, Idle)
    // vm_page_flash
    case Flash => Go(word, lock, th, if HasWaiters(word) then FlashCas(word) else Idle)
    case FlashCas(x) =>
      if word == x then Go(ClearWaiters(x), lock, th, FlashWake) else Go(word, lock, th, Flash)
    case FlashWake => Some(Effect(word, lock, th.(pc := Idle), true))
    // vm_page_busy_sleep
    case BusySleep(nonshared) =>
      Go(word, lock, th,
         if word == UNBUSIED || (nonshared && HasShared(word)) then SleepAbort
         else if HasWaiters(word) then SleepNow else SleepCas(word))
    case SleepCas(x) =>
      if word == x then Go(SetWaiters(x), lock, th, SleepNow) else Go(word, lock, th, SleepAbort)
    case SleepAbort => Go(word, None, th, Idle)
    case SleepNow => Go(word, None, th, Asleep)
  }

  function Go(word: nat, lock: Option<nat>, th: Thread, pc: Pc): Option<Effect> {
    Some(Effect(word, lock, th.(pc := pc), false))
  }

  function Acquire(word: nat, lock: Option<nat>, t: nat, th: Thread): Option<Effect> {
    if lock.None? then Some(Effect(word, Some(t), th, false)) else None
  }

  /** wakeup(m): every thread sleeping on the page becomes runnable. */
  function Woken(threads: seq<Thread>): (w: seq<Thread>)
    ensures |w| == |threads|
    ensures forall u :: 0 <= u < |w| ==> w[u] == if threads[u].pc == Asleep then threads[u].(pc := Idle) else threads[u]
  {
    seq(|threads|, u requires 0 <= u < |threads| =>
      if threads[u].pc == Asleep then threads[u].(pc := Idle) else threads[u])
  }

  /** The operations a client may begin, and giving a hold to another thread. */
  datatype Call =
    | LockPage | UnlockPage
    | TrySbusy | TryXbusy | Sunbusy | Xunbusy | XunbusyMaybeLocked | BusyDowngrade
    | FlashPage | SleepOnBusy(nonshared: bool)
    | GiveShare(u: nat) | GiveExcl(u: nat)

  datatype Move = Begin(call: Call) | Continue

  /** What the source asks of the caller: the hold being released, and the page lock owned or not. */
  predicate MayBegin(s: State, t: nat, call: Call)
    requires t < |s.threads|
  {
    var th, owned := s.threads[t], s.lock == Some(t);
    th.pc == Idle &&
    match call
    case LockPage => !owned
    case UnlockPage => owned
    case TrySbusy => true
    case TryXbusy => true
    case Sunbusy => th.shares > 0 && !owned
    case Xunbusy => th.excl && !owned
    case XunbusyMaybeLocked => th.excl
    case BusyDowngrade => th.excl
    case FlashPage => owned
    case SleepOnBusy(_) => owned
    case GiveShare(u) => th.shares > 0 && u < |s.threads| && u != t
    case GiveExcl(u) => th.excl && u < |s.threads| && u != t
  }

  function EntryPc(call: Call, owned: bool): Pc {
    match call
    case LockPage => LockWait
    case TrySbusy => TryShare
    case TryXbusy => TryExcl
    case Sunbusy => Unshare
    case Xunbusy => UnexclCas(true)
    case XunbusyMaybeLocked => UnexclCas(!owned)
    case BusyDowngrade => Downgrade(owned)
    case FlashPage => Flash
    case SleepOnBusy(nonshared) => BusySleep(nonshared)
    case _ => Idle
  }

  function Start(s: State, t: nat, call: Call): State
    requires t < |s.threads| && MayBegin(s, t, call)
  {
    var th := s.threads[t];
    match call
    case UnlockPage => s.(lock := None)
    case GiveShare(u) =>
      s.(threads := s.threads[t := th.(shares := th.shares - 1)][u := s.threads[u].(shares := s.threads[u].shares + 1)])
    case GiveExcl(u) =>
      s.(threads := s.threads[t := th.(excl := false)][u := s.threads[u].(excl := true)])
    case _ => s.(threads := s.threads[t := th.(pc := EntryPc(call, s.lock == Some(t)))])
  }

  function Apply(s: State, t: nat, e: Effect): State
    requires t < |s.threads|
  {
    State(e.word, e.lock, (if e.wake then Woken(s.threads) else s.threads)[t := e.th])
  }

  /** One step of thread `t`, or None if it cannot make that move now. */
  function Step(s: State, t: nat, move: Move): (r: Option<State>) {
    if t >= |s.threads| then None
    else match move
      case Begin(call) => if MayBegin(s, t, call) then Some(Start(s, t, call)) else None
      case Continue =>
        match Act(s.word, s.lock, t, s.threads[t])
        case None => None
        case Some(e) => Some(Apply(s, t, e))
  }

  // ----- the invariant -----

  function TotalShares(ts: seq<Thread>): nat {
    if ts == [] then 0 else TotalShares(ts[..|ts| - 1]) + ts[|ts| - 1].shares
  }

  function ExclCount(ts: seq<Thread>): nat {
    if ts == [] then 0 else ExclCount(ts[..|ts| - 1]) + (if ts[|ts| - 1].excl then 1 else 0)
  }

  /** The word says exactly what the holders are. */
  predicate Decodes(word: nat, shares: nat, excls: nat) {
    if excls == 1 then shares == 0 && (word == SINGLE_EXCLUSIVER || word == SINGLE_EXCLUSIVER + WAITERS)
    else excls == 0 && shares <= MAX_SHARERS &&
         (word == SharersWord(shares) || (shares > 0 && word == SharersWord(shares) + WAITERS))
  }

  /** What is known of a thread from its program counter; `owned` says it owns the page lock. */
  predicate PcOk(word: nat, owned: bool, th: Thread) {
    match th.pc
    case Idle => true
    case LockWait => !owned
    case TryShare => true
    case TryShareCas(x) => HasShared(x)
    case TryExcl => true
    case Unshare => th.shares > 0 && !owned
    case UnshareMany(x) => th.shares > 0 && !owned && Sharers(x) > 1
    case UnshareLast => th.shares > 0 && !owned
    case UnshareLock(x) => th.shares > 0 && !owned && x == SharersWord(1) + WAITERS
    case UnshareLocked(x) => th.shares > 0 && owned && x == SharersWord(1) + WAITERS
    case UnshareRetry => th.shares > 0 && owned
    case UnshareWake => owned
    case UnshareUnlock => owned
    case UnexclCas(drop) => th.excl && owned == !drop
    case UnexclLock => th.excl && !owned
    case UnexclStore(drop) => th.excl && owned
    case UnexclWake(drop) => owned
    case UnexclUnlock => owned
    case Downgrade(locked) => th.excl && owned == locked
    case DowngradeLock => th.excl && !owned
    case DowngradeCas(w, locked) => th.excl && (w == 0 || w == WAITERS) && owned == (locked || w != 0)
    case DowngradeRetry => th.excl && owned
    case DowngradeWake(locked) => owned
    case DowngradeUnlock => owned
    case Flash => owned
    case FlashCas(x) => owned && HasWaiters(x)
    case FlashWake => owned
    case BusySleep(nonshared) => owned
    case SleepCas(x) => owned && x != UNBUSIED && !HasWaiters(x)
    case SleepAbort => owned
    case SleepNow => owned && HasWaiters(word)
    case Asleep => !owned
    case Panicked => false
  }

  predicate AtWakeup(pc: Pc) {
    pc.UnshareWake? || pc.UnexclWake? || pc.DowngradeWake? || pc.FlashWake?
  }

  /** The owner of the page lock is about to call wakeup. */
  predicate WakeupPending(s: State) {
    s.lock.Some? && s.lock.value < |s.threads| && AtWakeup(s.threads[s.lock.value].pc)
  }

  ghost predicate PcsOk(s: State) {
    forall u :: 0 <= u < |s.threads| ==> PcOk(s.word, s.lock == Some(u), s.threads[u])
  }

  /** No wakeup is lost: a sleeper is announced by the waiters bit or is about to be woken. */
  ghost predicate SleepersAnnounced(s: State) {
    forall u :: 0 <= u < |s.threads| && s.threads[u].pc == Asleep ==> HasWaiters(s.word) || WakeupPending(s)
  }

  ghost predicate Inv(s: State) {
    && (s.lock.Some? ==> s.lock.value < |s.threads|)
    && Decodes(s.word, TotalShares(s.threads), ExclCount(s.threads))
    && PcsOk(s)
    && SleepersAnnounced(s)
  }

  /** The one step the word cannot represent: a share taken when all 29 bits of the count are in use. */
  predicate Overflows(s: State, t: nat, move: Move) {
    t < |s.threads| && move == Continue && s.threads[t].pc == TryShareCas(s.word) && Sharers(s.word) == MAX_SHARERS
  }

  // ----- sums -----

  lemma {:induction false} SumsUpdate(ts: seq<Thread>, t: nat, th: Thread)
    requires t < |ts|
    ensures TotalShares(ts) >= ts[t].shares
    ensures ExclCount(ts) >= (if ts[t].excl then 1 else 0)
    ensures TotalShares(ts[t := th]) == TotalShares(ts) - ts[t].shares + th.shares
    ensures ExclCount(ts[t := th]) == ExclCount(ts) - (if ts[t].excl then 1 else 0) + (if th.excl then 1 else 0)
    decreases |ts|
  {
    var n := |ts| - 1;
    if t < n {
      SumsUpdate(ts[..n], t, th);
      assert ts[t := th][..n] == ts[..n][t := th];
    } else {
      assert ts[t := th][..n] == ts[..n];
    }
  }

  lemma {:induction false} SumsWoken(ts: seq<Thread>)
    ensures TotalShares(Woken(ts)) == TotalShares(ts) && ExclCount(Woken(ts)) == ExclCount(ts)
    decreases |ts|
  {
    if ts != [] {
      var n := |ts| - 1;
      SumsWoken(ts[..n]);
      assert Woken(ts)[..n] == Woken(ts[..n]);
    }
  }

  // ----- one step -----

  /** What a thread may do to the word and the lock: the promise every other thread relies on. */
  predicate Guarantee(word: nat, lock: Option<nat>, t: nat, e: Effect) {
    && (e.lock == lock || (lock.None? && e.lock == Some(t)) || (lock == Some(t) && e.lock.None?))
    && (HasWaiters(word) && !HasWaiters(e.word) ==> lock == Some(t) && e.lock == lock && AtWakeup(e.th.pc))
  }

  /** One operation keeps the guarantee, the thread's own assertion and the decoding. */
  ghost predicate LocalStepOk(word: nat, lock: Option<nat>, t: nat, th: Thread, shares: nat, excls: nat, e: Effect) {
    && Guarantee(word, lock, t, e)
    && PcOk(e.word, e.lock == Some(t), e.th)
    && shares + e.th.shares >= th.shares
    && excls + (if e.th.excl then 1 else 0) >= (if th.excl then 1 else 0)
    && Decodes(e.word, shares + e.th.shares - th.shares,
               excls + (if e.th.excl then 1 else 0) - (if th.excl then 1 else 0))
    && (AtWakeup(th.pc) ==> e.wake)
    && (e.th.pc == Asleep ==> HasWaiters(e.word))
  }

  ghost predicate LocalPre(word: nat, lock: Option<nat>, t: nat, th: Thread, shares: nat, excls: nat, e: Effect) {
    && PcOk(word, lock == Some(t), th)
    && Decodes(word, shares, excls)
    && shares >= th.shares && excls >= (if th.excl then 1 else 0)
    && Act(word, lock, t, th) == Some(e)
    && !(th.pc == TryShareCas(word) && Sharers(word) == MAX_SHARERS)
  }

  lemma SharedWord(n: nat)
    ensures Sharers(SharersWord(n)) == n && Sharers(SharersWord(n) + WAITERS) == n
    ensures HasShared(SharersWord(n)) && HasShared(SharersWord(n) + WAITERS)
    ensures !HasExclusive(SharersWord(n)) && !HasExclusive(SharersWord(n) + WAITERS)
    ensures !HasWaiters(SharersWord(n)) && HasWaiters(SharersWord(n) + WAITERS)
  {
    assert (8 * n + 1) / 2 == 4 * n && (8 * n + 5) / 2 == 4 * n + 2;
    assert (8 * n + 1) / 4 == 2 * n && (8 * n + 5) / 4 == 2 * n + 1;
  }

  /** Reading the word's fields gives back the holders. */
  lemma WordFacts(word: nat, shares: nat, excls: nat)
    requires Decodes(word, shares, excls)
    ensures HasShared(word) <==> excls == 0
    ensures HasExclusive(word) <==> excls == 1
    ensures excls == 0 ==> Sharers(word) == shares
    ensures HasWaiters(word) <==> word == (if excls == 1 then SINGLE_EXCLUSIVER else SharersWord(shares)) + WAITERS
    ensures word == UNBUSIED <==> shares == 0 && excls == 0
  {
    SharedWord(shares);
  }

  lemma AddSharerDecodes(word: nat, shares: nat)
    requires Decodes(word, shares, 0) && shares < MAX_SHARERS
    ensures AddSharer(word) == word + ONE_SHARER && Decodes(AddSharer(word), shares + 1, 0)
    ensures HasWaiters(AddSharer(word)) <==> HasWaiters(word)
  {
    hide Sharers, HasShared, HasExclusive, HasWaiters;
    SharedWord(shares);
    SharedWord(shares + 1);
    assert SharersWord(shares) + ONE_SHARER == SharersWord(shares + 1);
  }

  lemma ActTryShareCas(word: nat, lock: Option<nat>, t: nat, th: Thread, shares: nat, excls: nat, e: Effect)
    requires LocalPre(word, lock, t, th, shares, excls, e) && th.pc.TryShareCas?
    ensures LocalStepOk(word, lock, t, th, shares, excls, e)
  {
    hide HasShared, HasExclusive, HasWaiters, Sharers, AddSharer, SharersWord;
    WordFacts(word, shares, excls);
    if word == th.pc.x {
      assert shares < MAX_SHARERS;
      AddSharerDecodes(word, shares);
    }
  }

  lemma ActTry(word: nat, lock: Option<nat>, t: nat, th: Thread, shares: nat, excls: nat, e: Effect)
    requires LocalPre(word, lock, t, th, shares, excls, e)
    requires th.pc.LockWait? || th.pc.TryShare? || th.pc.TryExcl?
    ensures LocalStepOk(word, lock, t, th, shares, excls, e)
  {
    WordFacts(word, shares, excls);
  }

  lemma ActUnshareLoad(word: nat, lock: Option<nat>, t: nat, th: Thread, shares: nat, excls: nat, e: Effect)
    requires LocalPre(word, lock, t, th, shares, excls, e) && th.pc.Unshare?
    ensures LocalStepOk(word, lock, t, th, shares, excls, e)
  {
    WordFacts(word, shares, excls);
  }

  lemma ActUnshareMany(word: nat, lock: Option<nat>, t: nat, th: Thread, shares: nat, excls: nat, e: Effect)
    requires LocalPre(word, lock, t, th, shares, excls, e) && th.pc.UnshareMany?
    ensures LocalStepOk(word, lock, t, th, shares, excls, e)
  {
    WordFacts(word, shares, excls);
  }

  lemma ActUnshare(word: nat, lock: Option<nat>, t: nat, th: Thread, shares: nat, excls: nat, e: Effect)
    requires LocalPre(word, lock, t, th, shares, excls, e)
    requires th.pc.UnshareLast? || th.pc.UnshareLock? || th.pc.UnshareLocked? || th.pc.UnshareRetry?
             || th.pc.UnshareWake? || th.pc.UnshareUnlock?
    ensures LocalStepOk(word, lock, t, th, shares, excls, e)
  {
    hide HasShared, HasExclusive, HasWaiters, Sharers, AddSharer;
    WordFacts(word, shares, excls);
  }

  lemma ActUnexcl(word: nat, lock: Option<nat>, t: nat, th: Thread, shares: nat, excls: nat, e: Effect)
    requires LocalPre(word, lock, t, th, shares, excls, e)
    requires th.pc.UnexclCas? || th.pc.UnexclLock? || th.pc.UnexclStore? || th.pc.UnexclWake? || th.pc.UnexclUnlock?
    ensures LocalStepOk(word, lock, t, th, shares, excls, e)
  {
    hide HasShared, HasExclusive, HasWaiters, Sharers, AddSharer;
    WordFacts(word, shares, excls);
  }

  lemma ActDowngrade(word: nat, lock: Option<nat>, t: nat, th: Thread, shares: nat, excls: nat, e: Effect)
    requires LocalPre(word, lock, t, th, shares, excls, e)
    requires th.pc.Downgrade? || th.pc.DowngradeLock? || th.pc.DowngradeCas? || th.pc.DowngradeRetry?
             || th.pc.DowngradeWake? || th.pc.DowngradeUnlock?
    ensures LocalStepOk(word, lock, t, th, shares, excls, e)
  {
    hide HasShared, HasExclusive, HasWaiters, Sharers, AddSharer;
    WordFacts(word, shares, excls);
  }

  lemma ActFlash(word: nat, lock: Option<nat>, t: nat, th: Thread, shares: nat, excls: nat, e: Effect)
    requires LocalPre(word, lock, t, th, shares, excls, e)
    requires th.pc.Flash? || th.pc.FlashCas? || th.pc.FlashWake?
    ensures LocalStepOk(word, lock, t, th, shares, excls, e)
  {
    hide HasShared, HasExclusive, Sharers, AddSharer;
    WordFacts(word, shares, excls);
  }

  lemma ActSleepCas(word: nat, lock: Option<nat>, t: nat, th: Thread, shares: nat, excls: nat, e: Effect)
    requires LocalPre(word, lock, t, th, shares, excls, e) && th.pc.SleepCas?
    ensures LocalStepOk(word, lock, t, th, shares, excls, e)
  {
    hide HasShared, HasExclusive, Sharers, AddSharer;
    WordFacts(word, shares, excls);
    SharedWord(shares);
  }

  lemma ActSleep(word: nat, lock: Option<nat>, t: nat, th: Thread, shares: nat, excls: nat, e: Effect)
    requires LocalPre(word, lock, t, th, shares, excls, e)
    requires th.pc.BusySleep? || th.pc.SleepAbort? || th.pc.SleepNow?
    ensures LocalStepOk(word, lock, t, th, shares, excls, e)
  {
    hide HasShared, HasExclusive, HasWaiters, Sharers, AddSharer;
    WordFacts(word, shares, excls);
  }

  lemma ActLocal(word: nat, lock: Option<nat>, t: nat, th: Thread, shares: nat, excls: nat, e: Effect)
    requires LocalPre(word, lock, t, th, shares, excls, e)
    ensures LocalStepOk(word, lock, t, th, shares, excls, e)
  {
    var pc := th.pc;
    if pc.TryShareCas? {
      ActTryShareCas(word, lock, t, th, shares, excls, e);
    } else if pc.LockWait? || pc.TryShare? || pc.TryExcl? {
      ActTry(word, lock, t, th, shares, excls, e);
    } else if pc.Unshare? {
      ActUnshareLoad(word, lock, t, th, shares, excls, e);
    } else if pc.UnshareMany? {
      ActUnshareMany(word, lock, t, th, shares, excls, e);
    } else if pc.UnshareLast? || pc.UnshareLock?
              || pc.UnshareLocked? || pc.UnshareRetry? || pc.UnshareWake? || pc.UnshareUnlock? {
      ActUnshare(word, lock, t, th, shares, excls, e);
    } else if pc.UnexclCas? || pc.UnexclLock? || pc.UnexclStore? || pc.UnexclWake? || pc.UnexclUnlock? {
      ActUnexcl(word, lock, t, th, shares, excls, e);
    } else if pc.Downgrade? || pc.DowngradeLock? || pc.DowngradeCas? || pc.DowngradeRetry?
              || pc.DowngradeWake? || pc.DowngradeUnlock? {
      ActDowngrade(word, lock, t, th, shares, excls, e);
    } else if pc.Flash? || pc.FlashCas? || pc.FlashWake? {
      ActFlash(word, lock, t, th, shares, excls, e);
    } else if pc.SleepCas? {
      ActSleepCas(word, lock, t, th, shares, excls, e);
    } else {
      ActSleep(word, lock, t, th, shares, excls, e);
    }
  }
}
