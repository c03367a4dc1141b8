/**
 The lottery over the tickets of the threads of one queue: a thread holds nice + 1 tickets,
 a draw is reduced modulo the tickets of all, and tickets are subtracted from it until it
 drops below zero.
 */
module Lottery {
  import opened Arith

  /** The tickets of each thread of a queue, in queue order. */
  function Tickets(q: seq<int>, nice: map<int, int>): (w: seq<int>)
    requires forall i :: 0 <= i < |q| ==> q[i] in nice
    ensures |w| == |q|
  {
    seq(|q|, i requires 0 <= i < |q| => nice[q[i]] + 1)
  }

  /** The tickets of the first `k` threads. */
  function Sum(w: seq<int>, k: nat): int
    requires k <= |w|
  {
    if k == 0 then 0 else Sum(w, k - 1) + w[k - 1]
  }

  function Total(w: seq<int>): int {
    Sum(w, |w|)
  }

  /** The least place `k` at which the first k + 1 threads hold more than `r` tickets; |w| if there is none. */
  function Stop(w: seq<int>, r: int): (k: nat)
    ensures k <= |w|
    ensures k < |w| ==> Sum(w, k + 1) > r
    ensures forall j :: 1 <= j <= k ==> Sum(w, j) <= r
  {
    StopFrom(w, r, 0)
  }

  function StopFrom(w: seq<int>, r: int, from: nat): (k: nat)
    requires from <= |w| && forall j :: 1 <= j <= from ==> Sum(w, j) <= r
    ensures from <= k <= |w|
    ensures k < |w| ==> Sum(w, k + 1) > r
    ensures forall j :: 1 <= j <= k ==> Sum(w, j) <= r
    decreases |w| - from
  {
    if from == |w| then from
    else if Sum(w, from + 1) > r then from
    else StopFrom(w, r, from + 1)
  }

  lemma StopIs(w: seq<int>, r: int, k: nat)
    requires k < |w| && Sum(w, k + 1) > r && forall j :: 1 <= j <= k ==> Sum(w, j) <= r
    ensures Stop(w, r) == k
  {
    assert Sum(w, k + 1) > r;
  }

  lemma NoStop(w: seq<int>, r: int)
    requires forall j :: 1 <= j <= |w| ==> Sum(w, j) <= r
    ensures Stop(w, r) == |w|
  {
  }

  /** random() stays below this. */
  const RANDOM_LIMIT: nat := 0x8000_0000

  /** What a draw comes to: the place of the winner, or a crash. */
  datatype Draw = Winner(k: nat) | Crash

  /** The draw modulo the tickets; the modulus is unsigned, so a negative number of tickets exceeds every draw. */
  function Reduced(w: seq<int>, draw: nat): nat
    requires Total(w) != 0
  {
    if Total(w) > 0 then draw % Total(w) else draw
  }

  /**
   No tickets at all is a division by zero; and a draw no prefix exceeds leaves no thread, which is
   then looked at.
   */
  function DrawOf(w: seq<int>, draw: nat): (d: Draw)
    ensures d.Winner? ==> d.k < |w|
  {
    if Total(w) == 0 then Crash
    else if Stop(w, Reduced(w, draw)) < |w| then Winner(Stop(w, Reduced(w, draw)))
    else Crash
  }

  lemma NoTickets(w: seq<int>, draw: nat)
    requires Total(w) == 0
    ensures DrawOf(w, draw) == Crash
  {
  }

  lemma DrawIs(w: seq<int>, draw: nat)
    requires Total(w) != 0
    ensures var k := Stop(w, Reduced(w, draw)); DrawOf(w, draw) == if k < |w| then Winner(k) else Crash
  {
  }

  /** A draw crashes exactly when the tickets add up to nothing, or to less and no prefix of them exceeds the draw. */
  lemma CrashIff(w: seq<int>, draw: nat)
    ensures DrawOf(w, draw) == Crash
       <==> Total(w) == 0 || (Total(w) < 0 && forall k :: 1 <= k <= |w| ==> Sum(w, k) <= draw)
  {
    if Total(w) > 0 {
      DrawStops(w, draw);
    } else if Total(w) < 0 && Stop(w, draw) < |w| {
      assert Sum(w, Stop(w, draw) + 1) > draw;
    }
  }

  /** Every draw has a winner exactly when the tickets add up to something. */
  lemma NeverCrashesIff(w: seq<int>)
    requires forall k :: 0 <= k <= |w| ==> Sum(w, k) < RANDOM_LIMIT
    ensures (forall draw: nat :: draw < RANDOM_LIMIT ==> DrawOf(w, draw).Winner?) <==> Total(w) > 0
  {
    hide DrawOf, Sum, Total;
    forall draw: nat ensures Total(w) > 0 ==> DrawOf(w, draw).Winner? {
      CrashIff(w, draw);
    }
    CrashIff(w, RANDOM_LIMIT - 1);
    assert DrawOf(w, RANDOM_LIMIT - 1).Crash? <==> Total(w) <= 0;
  }

  /** A lone thread of nice -1 has no tickets, one of nice -20 owes nineteen: each draw crashes. */
  lemma LoneNiceCrashes(draw: nat)
    ensures DrawOf(Tickets([1], map[1 := -1]), draw) == Crash
    ensures DrawOf(Tickets([1], map[1 := -20]), draw) == Crash
  {
    assert Sum([0], 1) == Sum([0], 0) + 0 && Sum([-19], 1) == Sum([-19], 0) - 19;
    assert Tickets([1], map[1 := -1]) == [0] && Tickets([1], map[1 := -20]) == [-19];
    CrashIff([0], draw);
    CrashIff([-19], draw);
  }

  ghost predicate NonNegative(w: seq<int>) {
    forall i :: 0 <= i < |w| ==> w[i] >= 0
  }

  lemma {:induction false} SumGrows(w: seq<int>, j: nat, k: nat)
    requires NonNegative(w) && j <= k <= |w|
    ensures Sum(w, j) <= Sum(w, k)
    decreases k
  {
    if j < k { SumGrows(w, j, k - 1); }
  }

  /** Whatever the draw, as long as there are tickets at all, the subtraction stops on a thread. */
  lemma DrawStops(w: seq<int>, draw: nat)
    requires Total(w) > 0
    ensures Stop(w, draw % Total(w)) < |w|
  {
    var r := draw % Total(w);
    assert r < Sum(w, |w|);
  }

  /** Thread `k` wins exactly the residues between the tickets before it and its own. */
  lemma WinningResidues(w: seq<int>, k: nat, r: nat)
    requires NonNegative(w) && k < |w|
    ensures Stop(w, r) == k <==> Sum(w, k) <= r < Sum(w, k + 1)
  {
    var s := Stop(w, r);
    if Sum(w, k) <= r < Sum(w, k + 1) {
      if s < k { SumGrows(w, s + 1, k); }
    }
  }

  /** How many of the residues 0 .. n-1 select thread `k`. */
  function Wins(w: seq<int>, k: nat, n: nat): nat {
    if n == 0 then 0 else Wins(w, k, n - 1) + (if Stop(w, n - 1) == k then 1 else 0)
  }

  lemma {:induction false} WinsBelow(w: seq<int>, k: nat, n: nat)
    requires NonNegative(w) && k < |w|
    ensures Sum(w, k) >= 0 && Sum(w, k + 1) >= Sum(w, k)
    ensures Wins(w, k, n) == if n <= Sum(w, k) then 0 else if n <= Sum(w, k + 1) then n - Sum(w, k) else w[k]
    decreases n
  {
    SumGrows(w, 0, k);
    SumGrows(w, k, k + 1);
    if n > 0 {
      WinsBelow(w, k, n - 1);
      WinningResidues(w, k, n - 1);
    }
  }

  /**
   The lottery is exact: of the residues modulo all the tickets, each thread is selected
   by as many as it holds, wherever it stands in the queue.
   */
  lemma LotteryExact(w: seq<int>, k: nat)
    requires NonNegative(w) && k < |w|
    ensures Total(w) >= 0 && Wins(w, k, Total(w)) == w[k]
  {
    SumGrows(w, 0, |w|);
    SumGrows(w, k + 1, |w|);
    WinsBelow(w, k, Total(w));
  }

  /** How many of the raw draws 0 .. n-1 select thread `k`. */
  function RawWins(w: seq<int>, k: nat, n: nat): nat
    requires Total(w) > 0
  {
    if n == 0 then 0 else RawWins(w, k, n - 1) + (if Stop(w, (n - 1) % Total(w)) == k then 1 else 0)
  }

  /** After whole rounds and part of one, a thread has its tickets for every round and its wins in the part. */
  lemma {:induction false} RawWinsAre(w: seq<int>, k: nat, n: nat)
    requires NonNegative(w) && k < |w| && Total(w) > 0
    ensures RawWins(w, k, n) == (n / Total(w)) * w[k] + Wins(w, k, n % Total(w))
    decreases n
  {
    hide Stop, Sum, Total;
    if n == 0 {
      DivUnique(0, 0, 0, Total(w));
    } else {
      RawWinsAre(w, k, n - 1);
      var q, r := Quotient(n - 1, Total(w));
      if r + 1 < Total(w) {
        NextInRound(n - 1, Total(w), q, r);
      } else {
        NextRound(n - 1, Total(w), q, r);
        LotteryExact(w, k);
        MulNext(q, w[k]);
      }
    }
  }

  lemma {:induction false} WinsMonotone(w: seq<int>, k: nat, m: nat, n: nat)
    requires m <= n
    ensures Wins(w, k, m) <= Wins(w, k, n)
    decreases n
  {
    if m < n { WinsMonotone(w, k, m, n - 1); }
  }

  /** n divided by d, rounded up. */
  function CeilDiv(n: nat, d: nat): nat
    requires d > 0
  {
    n / d + (if n % d == 0 then 0 else 1)
  }

  /** Over raw draws from [0, n), the wins of a thread are its tickets times the rounds, up to one round. */
  lemma RawDrawsFair(w: seq<int>, k: nat, n: nat)
    requires NonNegative(w) && k < |w| && Total(w) > 0
    ensures (n / Total(w)) * w[k] <= RawWins(w, k, n) <= CeilDiv(n, Total(w)) * w[k]
  {
    hide Stop, Sum, Total, RawWins;
    RawWinsAre(w, k, n);
    var q, r := Quotient(n, Total(w));
    WinsMonotone(w, k, r, Total(w));
    LotteryExact(w, k);
    MulNext(q, w[k]);
  }

  // ----- the law on a queue of threads -----

  /** The tickets of the first `k` threads of a queue: one more than its nice value for each. */
  function QueueTickets(q: seq<int>, nice: map<int, int>, k: nat): int
    requires k <= |q| && forall i :: 0 <= i < |q| ==> q[i] in nice
  {
    if k == 0 then 0 else QueueTickets(q, nice, k - 1) + nice[q[k - 1]] + 1
  }

  lemma {:induction false} TicketsAre(q: seq<int>, nice: map<int, int>, k: nat)
    requires k <= |q| && forall i :: 0 <= i < |q| ==> q[i] in nice
    ensures Sum(Tickets(q, nice), k) == QueueTickets(q, nice, k)
  {
    if k > 0 { TicketsAre(q, nice, k - 1); }
  }

  /** How many of the draws 0 .. n-1 the thread at place `k` wins. */
  function Won(q: seq<int>, nice: map<int, int>, k: nat, n: nat): nat
    requires forall i :: 0 <= i < |q| ==> q[i] in nice
  {
    if n == 0 then 0
    else Won(q, nice, k, n - 1) + (if DrawOf(Tickets(q, nice), n - 1) == Winner(k) then 1 else 0)
  }

  lemma {:induction false} WonIs(q: seq<int>, nice: map<int, int>, k: nat, n: nat)
    requires (forall i :: 0 <= i < |q| ==> q[i] in nice) && k < |q| && Total(Tickets(q, nice)) > 0
    ensures Won(q, nice, k, n) == RawWins(Tickets(q, nice), k, n)
  {
    hide Tickets, Total, Stop;
    if n > 0 {
      WonIs(q, nice, k, n - 1);
      DrawStops(Tickets(q, nice), n - 1);
    }
  }

  /** Threads of no negative nice value all have tickets. */
  predicate AllNice(q: seq<int>, nice: map<int, int>) {
    forall i :: 0 <= i < |q| ==> q[i] in nice && nice[q[i]] >= 0
  }

  lemma NiceTickets(q: seq<int>, nice: map<int, int>, k: nat)
    requires AllNice(q, nice) && k < |q|
    ensures NonNegative(Tickets(q, nice)) && Tickets(q, nice)[k] == nice[q[k]] + 1
    ensures Total(Tickets(q, nice)) == QueueTickets(q, nice, |q|) > 0
  {
    var w := Tickets(q, nice);
    TicketsAre(q, nice, |q|);
    SumGrows(w, 0, k);
    SumGrows(w, k + 1, |q|);
    assert Sum(w, k + 1) == Sum(w, k) + w[k];
  }

  /** Of as many draws as the queue has tickets, each thread wins one more than its nice value. */
  lemma LotteryLaw(q: seq<int>, nice: map<int, int>, k: nat)
    requires AllNice(q, nice) && k < |q|
    ensures QueueTickets(q, nice, |q|) > 0 && Won(q, nice, k, QueueTickets(q, nice, |q|)) == nice[q[k]] + 1
  {
    hide Tickets, Total, Won, QueueTickets, RawWins;
    var w, n := Tickets(q, nice), QueueTickets(q, nice, |q|);
    NiceTickets(q, nice, k);
    WonIs(q, nice, k, n);
    RawWinsAre(w, k, n);
    DivUnique(n, 1, 0, n);
  }

  /** Of any number of draws, a thread wins its nice value and one for every round of tickets, up to one round. */
  lemma LotteryLawRaw(q: seq<int>, nice: map<int, int>, k: nat, n: nat)
    requires AllNice(q, nice) && k < |q|
    ensures var all := QueueTickets(q, nice, |q|);
            all > 0 && (n / all) * (nice[q[k]] + 1) <= Won(q, nice, k, n) <= ((n + all - 1) / all) * (nice[q[k]] + 1)
  {
    hide Tickets, Total, Won, QueueTickets, RawWins;
    var w, all := Tickets(q, nice), QueueTickets(q, nice, |q|);
    NiceTickets(q, nice, k);
    WonIs(q, nice, k, n);
    RawDrawsFair(w, k, n);
    RoundedUp(n, all);
  }

  lemma RoundedUp(n: nat, d: nat)
    requires d > 0
    ensures CeilDiv(n, d) == (n + d - 1) / d
  {
    var q, r := Quotient(n, d);
    MulNext(q, d);
    if r == 0 {
      DivUnique(n + d - 1, q, d - 1, d);
    } else {
      DivUnique(n + d - 1, q + 1, r - 1, d);
    }
  }

  /** A draw of a queue with tickets falls on the thread whose tickets it lies among. */
  lemma DrawFallsOn(q: seq<int>, nice: map<int, int>, draw: nat, k: nat)
    requires AllNice(q, nice) && k < |q|
    ensures var all := QueueTickets(q, nice, |q|);
            all > 0 && (DrawOf(Tickets(q, nice), draw) == Winner(k)
                        <==> QueueTickets(q, nice, k) <= draw % all < QueueTickets(q, nice, k + 1))
  {
    hide Tickets, Stop, QueueTickets;
    var w := Tickets(q, nice);
    NiceTickets(q, nice, k);
    TicketsAre(q, nice, k);
    TicketsAre(q, nice, k + 1);
    DrawStops(w, draw);
    WinningResidues(w, k, draw % Total(w));
  }
}
