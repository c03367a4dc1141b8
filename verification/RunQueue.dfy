/**
 A run queue: RQ_NQS FIFO queues of threads, with a status bitmap of several words that
 says which of them are not empty, and the searches by priority that use the bitmap.
 */
module RunQueue {
  import opened Prelude
  import opened Arith
  import Words
  import opened Lottery
  import opened Seqs

  const RQ_NQS := 64
  const RQ_PPQ := 4

  type Queues = seq<seq<int>>


  function EmptyQueues(): Queues {
    seq(RQ_NQS, _ => [])
  }

  /** How far slot `q` is from slot `from`, going round. */
  function Distance(from: nat, q: nat): nat
    requires from < RQ_NQS && q < RQ_NQS
  {
    if q >= from then q - from else q - from + RQ_NQS
  }

  /** Queue `p` is the least that is not empty. */
  ghost predicate IsFirst(qs: Queues, p: nat)
    requires |qs| == RQ_NQS && p < RQ_NQS
  {
    qs[p] != [] && forall q :: 0 <= q < p ==> qs[q] == []
  }

  /** Queue `p` is the first, going round from slot `from`, that is not empty. */
  ghost predicate IsFirstFrom(qs: Queues, from: nat, p: nat)
    requires |qs| == RQ_NQS && p < RQ_NQS && from < RQ_NQS
  {
    qs[p] != [] && forall q :: 0 <= q < RQ_NQS && Distance(from, q) < Distance(from, p) ==> qs[q] == []
  }

  /** The head of the least non-empty queue. */
  ghost predicate IsChoice(qs: Queues, r: Option<int>)
    requires |qs| == RQ_NQS
  {
    match r
    case None => forall q :: 0 <= q < RQ_NQS ==> qs[q] == []
    case Some(td) => exists p :: 0 <= p < RQ_NQS && IsFirst(qs, p) && td == qs[p][0]
  }

  /** The head of the first non-empty queue met going round from slot `from`. */
  ghost predicate IsChoiceFrom(qs: Queues, from: nat, r: Option<int>)
    requires |qs| == RQ_NQS && from < RQ_NQS
  {
    match r
    case None => forall q :: 0 <= q < RQ_NQS ==> qs[q] == []
    case Some(td) => exists p :: 0 <= p < RQ_NQS && IsFirstFrom(qs, from, p) && td == qs[p][0]
  }

  // ----- slots and words -----

  /** RQB_WORD and the position that RQB_BIT shifts to. */
  function WordOf(pri: nat, bpw: nat): nat
    requires bpw > 0
  {
    pri / bpw
  }

  function BitOf(pri: nat, bpw: nat): nat
    requires bpw > 0
  {
    pri % bpw
  }

  lemma SlotParts(pri: nat, bpw: nat, words: nat)
    requires bpw > 0 && words * bpw == RQ_NQS && pri < RQ_NQS
    ensures 0 <= WordOf(pri, bpw) < words && 0 <= BitOf(pri, bpw) < bpw
            && pri == (WordOf(pri, bpw)) * bpw + BitOf(pri, bpw)
  {
    if WordOf(pri, bpw) >= words {
      MulMono(words, WordOf(pri, bpw), bpw);
    }
  }

  lemma SlotOf(i: nat, f: nat, bpw: nat, words: nat)
    requires bpw > 0 && words * bpw == RQ_NQS && i < words && f < bpw
    ensures i * bpw + f < RQ_NQS && WordOf(i * bpw + f, bpw) == i && BitOf(i * bpw + f, bpw) == f
  {
    MulNext(i, bpw);
    MulMono(i + 1, words, bpw);
    DivUnique(i * bpw + f, i, f, bpw);
  }

  /** Slots are ordered by word, then by bit. */
  lemma SlotOrder(p: nat, q: nat, bpw: nat)
    requires bpw > 0
    ensures p < q <==> WordOf(p, bpw) < WordOf(q, bpw)
                       || (WordOf(p, bpw) == WordOf(q, bpw) && BitOf(p, bpw) < BitOf(q, bpw))
  {
    if WordOf(p, bpw) < WordOf(q, bpw) || (WordOf(p, bpw) == WordOf(q, bpw) && BitOf(p, bpw) < BitOf(q, bpw)) {
      DivOrder(p, q, bpw);
    } else if WordOf(q, bpw) < WordOf(p, bpw) || (WordOf(p, bpw) == WordOf(q, bpw) && BitOf(q, bpw) < BitOf(p, bpw)) {
      DivOrder(q, p, bpw);
    } else {
      var a, r := Quotient(p, bpw);
      var b, t := Quotient(q, bpw);
    }
  }

  /** All ones from bit `k` on: (rqb_word_t)-1 << k, whose high bits the word it meets cuts off. */
  function MaskFrom(k: nat, bpw: nat): nat {
    Words.Shl(Words.Not(0, bpw), k)
  }

  lemma MaskBits(word: nat, k: nat, bpw: nat, b: nat)
    requires word < Words.Pow2(bpw)
    ensures Words.Bit(Words.And(word, MaskFrom(k, bpw)), b) <==> b >= k && Words.Bit(word, b)
  {
    Words.AndBit(word, MaskFrom(k, bpw), b);
    Words.ShlBit(Words.Not(0, bpw), k, b);
    if b >= k {
      Words.NotBit(0, bpw, b - k);
      Words.ZeroBits(b - k);
    }
    if b >= bpw { Words.HighBits(word, bpw, b); }
  }

  // ----- the bitmap -----

  /** The slot of bit `f` of word `i`: RQB_FFS(...) + (i << RQB_L2BPW). */
  function SlotNumber(i: nat, f: nat, bpw: nat): nat {
    f + i * bpw
  }

  /** Bit `q` of the status words. */
  predicate StatusBit(ws: seq<nat>, bpw: nat, q: nat)
    requires bpw > 0
  {
    0 <= WordOf(q, bpw) < |ws| && Words.Bit(ws[WordOf(q, bpw)], BitOf(q, bpw))
  }

  ghost predicate WordsOk(ws: seq<nat>, bpw: nat) {
    bpw > 0 && |ws| * bpw == RQ_NQS && forall i :: 0 <= i < |ws| ==> ws[i] < Words.Pow2(bpw)
  }

  /** Bit q of the bitmap is set exactly when queue q is not empty. */
  ghost predicate Agrees(ws: seq<nat>, bpw: nat, qs: Queues) {
    && bpw > 0 && WordsOk(ws, bpw) && |qs| == RQ_NQS
    && forall q :: 0 <= q < RQ_NQS ==> (StatusBit(ws, bpw, q) <==> qs[q] != [])
  }

  lemma SlotIn(ws: seq<nat>, bpw: nat, q: nat)
    requires bpw > 0 && WordsOk(ws, bpw) && q < RQ_NQS
    ensures 0 <= WordOf(q, bpw) < |ws|
  {
    SlotParts(q, bpw, |ws|);
  }

  lemma WordFits(ws: seq<nat>, bpw: nat, i: nat)
    requires WordsOk(ws, bpw) && i < |ws|
    ensures ws[i] < Words.Pow2(bpw)
  {
  }

  /** An empty word, or what is left of it beyond a bit, means empty queues. */
  lemma NothingIn(ws: seq<nat>, bpw: nat, qs: Queues, i: nat, from: nat)
    requires Agrees(ws, bpw, qs) && i < |ws| && Words.And(ws[i], MaskFrom(from, bpw)) == 0
    ensures forall q :: 0 <= q < RQ_NQS && WordOf(q, bpw) == i && BitOf(q, bpw) >= from ==> qs[q] == []
  {
    forall q | 0 <= q < RQ_NQS && WordOf(q, bpw) == i && BitOf(q, bpw) >= from ensures qs[q] == [] {
      MaskBits(ws[i], from, bpw, BitOf(q, bpw));
      Words.ZeroBits(BitOf(q, bpw));
    }
  }

  /** The least bit of a word beyond `from` names a non-empty queue, and those before it in the word are empty. */
  lemma FoundIn(ws: seq<nat>, bpw: nat, qs: Queues, i: nat, from: nat) returns (p: nat)
    requires Agrees(ws, bpw, qs) && i < |ws| && Words.And(ws[i], MaskFrom(from, bpw)) != 0
    ensures p == SlotNumber(i, Words.Ffs(Words.And(ws[i], MaskFrom(from, bpw))), bpw)
    ensures p < RQ_NQS && WordOf(p, bpw) == i && BitOf(p, bpw) >= from && qs[p] != []
    ensures forall q :: 0 <= q < RQ_NQS && WordOf(q, bpw) == i && from <= BitOf(q, bpw) < BitOf(p, bpw) ==> qs[q] == []
  {
    var rest := Words.And(ws[i], MaskFrom(from, bpw));
    var f := Words.Ffs(rest);
    Words.FfsIsLeast(rest, 0);
    MaskBits(ws[i], from, bpw, f);
    if f >= bpw { Words.HighBits(ws[i], bpw, f); }
    SlotOf(i, f, bpw, |ws|);
    p := i * bpw + f;
    assert StatusBit(ws, bpw, p);
    forall q | 0 <= q < RQ_NQS && WordOf(q, bpw) == i && from <= BitOf(q, bpw) < BitOf(p, bpw) ensures qs[q] == [] {
      Words.FfsIsLeast(rest, BitOf(q, bpw));
      MaskBits(ws[i], from, bpw, BitOf(q, bpw));
    }
  }

  lemma MaskAll(word: nat, bpw: nat)
    requires word < Words.Pow2(bpw)
    ensures word != 0 <==> Words.And(word, MaskFrom(0, bpw)) != 0
    ensures word != 0 ==> Words.Ffs(Words.And(word, MaskFrom(0, bpw))) == Words.Ffs(word)
  {
    var all := Words.And(word, MaskFrom(0, bpw));
    if word != 0 {
      Words.FfsIsLeast(word, 0);
      MaskBits(word, 0, bpw, Words.Ffs(word));
      Words.ZeroBits(Words.Ffs(word));
      Words.FfsIsLeast(all, Words.Ffs(word));
      MaskBits(word, 0, bpw, Words.Ffs(all));
      Words.FfsIsLeast(word, Words.Ffs(all));
    } else {
      assert all == 0;
    }
  }

  /** Setting or clearing one bit tells of one queue. */
  lemma AgreesAfter(ws: seq<nat>, ws': seq<nat>, bpw: nat, qs: Queues, pri: nat, q': seq<int>)
    requires Agrees(ws, bpw, qs) && pri < RQ_NQS && WordsOk(ws', bpw) && |ws'| == |ws|
    requires forall q :: 0 <= q < RQ_NQS ==>
               (StatusBit(ws', bpw, q) <==> if q == pri then q' != [] else StatusBit(ws, bpw, q))
    ensures Agrees(ws', bpw, qs[pri := q'])
  {
  }

  lemma SameSlot(p: nat, q: nat, bpw: nat)
    requires bpw > 0 && WordOf(p, bpw) == WordOf(q, bpw) && BitOf(p, bpw) == BitOf(q, bpw)
    ensures p == q
  {
    SlotOrder(p, q, bpw);
    SlotOrder(q, p, bpw);
  }

  // ----- what the operations do to the queues -----

  function Added(qs: Queues, pri: nat, td: int, atHead: bool): (r: Queues)
    requires |qs| == RQ_NQS && pri < RQ_NQS
    ensures |r| == RQ_NQS
  {
    qs[pri := if atHead then [td] + qs[pri] else qs[pri] + [td]]
  }

  function Removed(qs: Queues, pri: nat, td: int): (r: Queues)
    requires |qs| == RQ_NQS && pri < RQ_NQS
    ensures |r| == RQ_NQS
  {
    qs[pri := Remove(qs[pri], td)]
  }

  class Runq {
    const bpw: nat
    const words: array<nat>
    const queues: array<seq<int>>

    ghost predicate Valid()
      reads words, queues
    {
      Agrees(words[..], bpw, queues[..])
    }

    ghost function Value(): Queues
      reads queues
    {
      queues[..]
    }

    /** runq_init, on words of `bpw` bits. */
    constructor (bpw: nat, len: nat)
      requires bpw > 0 && len * bpw == RQ_NQS
      ensures Valid() && Value() == EmptyQueues() && fresh(words) && fresh(queues)
    {
      this.bpw := bpw;
      words := new nat[len](_ => 0);
      queues := new seq<int>[RQ_NQS](_ => []);
      new;
      forall q | 0 <= q < RQ_NQS ensures !StatusBit(words[..], bpw, q) {
        Words.ZeroBits(BitOf(q, bpw));
      }
    }

    method SetBit(pri: nat)
      requires WordsOk(words[..], bpw) && pri < RQ_NQS
      modifies words
      ensures WordsOk(words[..], bpw)
      ensures forall q :: 0 <= q < RQ_NQS ==>
                (StatusBit(words[..], bpw, q) <==> q == pri || StatusBit(old(words[..]), bpw, q))
    {
      SlotParts(pri, bpw, words.Length);
      var i, k := WordOf(pri, bpw), BitOf(pri, bpw);
      ghost var was := words[..];
      Words.ShlPow2(k, bpw);
      Words.OrRange(words[i], Words.Shl(1, k), bpw);
      words[i] := Words.Or(words[i], Words.Shl(1, k));
      forall q | 0 <= q < RQ_NQS ensures StatusBit(words[..], bpw, q) <==> q == pri || StatusBit(was, bpw, q) {
        SlotParts(q, bpw, words.Length);
        if WordOf(q, bpw) == i {
          Words.OrBit(was[i], Words.Shl(1, k), BitOf(q, bpw));
          Words.OneBit(k, BitOf(q, bpw));
          if BitOf(q, bpw) == k { SameSlot(q, pri, bpw); }
        }
      }
    }

    method ClrBit(pri: nat)
      requires WordsOk(words[..], bpw) && pri < RQ_NQS
      modifies words
      ensures WordsOk(words[..], bpw)
      ensures forall q :: 0 <= q < RQ_NQS ==>
                (StatusBit(words[..], bpw, q) <==> q != pri && StatusBit(old(words[..]), bpw, q))
    {
      SlotParts(pri, bpw, words.Length);
      var i, k := WordOf(pri, bpw), BitOf(pri, bpw);
      ghost var was := words[..];
      var mask := Words.Not(Words.Shl(1, k), bpw);
      Words.AndRange(words[i], mask);
      words[i] := Words.And(words[i], mask);
      forall q | 0 <= q < RQ_NQS ensures StatusBit(words[..], bpw, q) <==> q != pri && StatusBit(was, bpw, q) {
        SlotParts(q, bpw, words.Length);
        if WordOf(q, bpw) == i {
          Words.AndBit(was[i], mask, BitOf(q, bpw));
          Words.NotBit(Words.Shl(1, k), bpw, BitOf(q, bpw));
          Words.OneBit(k, BitOf(q, bpw));
          if BitOf(q, bpw) == k { SameSlot(q, pri, bpw); }
        }
      }
    }

    /** runq_findbit: the least non-empty queue, or -1. */
    method FindBit() returns (pri: int)
      requires Valid()
      ensures pri == -1 || (0 <= pri < RQ_NQS && IsFirst(Value(), pri))
      ensures pri == -1 <==> forall q :: 0 <= q < RQ_NQS ==> Value()[q] == []
    {
      ghost var qs := Value();
      for i := 0 to words.Length
        invariant forall q :: 0 <= q < RQ_NQS && WordOf(q, bpw) < i ==> qs[q] == []
      {
        MaskAll(words[i], bpw);
        if words[i] != 0 {
          ghost var p := FoundIn(words[..], bpw, qs, i, 0);
          pri := SlotNumber(i, Words.Ffs(words[i]), bpw);
          forall q | 0 <= q < p ensures qs[q] == [] { SlotOrder(q, p, bpw); }
          return;
        }
        NothingIn(words[..], bpw, qs, i, 0);
      }
      forall q | 0 <= q < RQ_NQS ensures qs[q] == [] { SlotParts(q, bpw, words.Length); }
      pri := -1;
    }

    /** One scan of the words from slot `from` to the end: the first non-empty queue there, or -1. */
    method ScanFrom(from: nat) returns (pri: int)
      requires Valid() && from < RQ_NQS
      ensures pri == -1 || (from <= pri < RQ_NQS && Value()[pri] != []
                            && forall q :: from <= q < pri ==> Value()[q] == [])
      ensures pri == -1 ==> forall q :: from <= q < RQ_NQS ==> Value()[q] == []
    {
      hide IsFirst, IsFirstFrom, StatusBit, MaskFrom, WordsOk, SlotNumber, WordOf, BitOf;
      ghost var qs := Value();
      SlotIn(words[..], bpw, from);
      forall q | from <= q < RQ_NQS ensures WordOf(q, bpw) >= WordOf(from, bpw) { SlotOrder(q, from, bpw); }
      var first := WordOf(from, bpw);
      var mask := MaskFrom(BitOf(from, bpw), bpw);
      for i := first to words.Length
        invariant mask == MaskFrom(if i == first then BitOf(from, bpw) else 0, bpw)
        invariant forall q :: from <= q < RQ_NQS && WordOf(q, bpw) < i ==> qs[q] == []
      {
        ghost var low := if i == first then BitOf(from, bpw) else 0;
        var rest := Words.And(words[i], mask);
        if rest != 0 {
          ghost var p := FoundIn(words[..], bpw, qs, i, low);
          pri := SlotNumber(i, Words.Ffs(rest), bpw);
          FirstFrom(qs, bpw, from, i, low, p);
          return;
        }
        NothingIn(words[..], bpw, qs, i, low);
        StillNothing(qs, bpw, from, i, low);
        mask := MaskFrom(0, bpw);
      }
      NothingFrom(words[..], qs, bpw, from);
      pri := -1;
    }

    /** runq_findbit_from: the first non-empty queue from slot `start` on, wrapping round at most once; or -1. */
    method FindBitFrom(start: nat) returns (pri: int)
      requires Valid() && start < RQ_NQS
      ensures pri == -1 || (0 <= pri < RQ_NQS && IsFirstFrom(Value(), start, pri))
      ensures pri == -1 <==> forall q :: 0 <= q < RQ_NQS ==> Value()[q] == []
    {
      var from := start;
      while true
        invariant from == start || from == 0
        invariant from == 0 && start != 0 ==> forall q :: start <= q < RQ_NQS ==> Value()[q] == []
        decreases from
      {
        pri := ScanFrom(from);
        if pri != -1 || from == 0 {
          return;
        }
        from := 0;
      }
    }

    /** runq_add and runq_add_pri: `td` joins queue `pri`, at its head if it was preempted. */
    method Add(pri: nat, td: int, preempted: bool)
      requires Valid() && pri < RQ_NQS
      modifies words, queues
      ensures Valid() && Value() == Added(old(Value()), pri, td, preempted)
    {
      ghost var ws, qs := words[..], Value();
      SetBit(pri);
      if preempted {
        queues[pri] := [td] + queues[pri];
      } else {
        queues[pri] := queues[pri] + [td];
      }
      AgreesAfter(ws, words[..], bpw, qs, pri, queues[pri]);
    }

    /**
     runq_remove_idx: takes `td` out of queue `pri`.  When that leaves the queue empty and
     an index given by the caller points to it, the index moves on to the next slot.
     */
    method RemoveIdx(pri: nat, td: int, idx: Option<nat>) returns (moved: Option<nat>)
      requires Valid() && pri < RQ_NQS && td in Value()[pri]
      modifies words, queues
      ensures Valid() && Value() == Removed(old(Value()), pri, td)
      ensures moved == if idx == Some(pri) && Value()[pri] == [] then Some((pri + 1) % RQ_NQS) else idx
    {
      ghost var ws, qs := words[..], Value();
      moved := idx;
      queues[pri] := Remove(queues[pri], td);
      if queues[pri] == [] {
        ClrBit(pri);
        if idx.Some? && idx.value == pri {
          moved := Some((pri + 1) % RQ_NQS);
        }
      }
      AgreesAfter(ws, words[..], bpw, qs, pri, queues[pri]);
    }

    /** runq_check: whether any queue has a thread. */
    method Check() returns (any: bool)
      requires Valid()
      ensures !any <==> forall q :: 0 <= q < RQ_NQS ==> Value()[q] == []
    {
      hide StatusBit, MaskFrom, WordsOk, SlotNumber, WordOf, BitOf;
      ghost var qs := Value();
      for i := 0 to words.Length
        invariant forall q :: 0 <= q < RQ_NQS && WordOf(q, bpw) < i ==> qs[q] == []
      {
        WordFits(words[..], bpw, i);
        MaskAll(words[i], bpw);
        if words[i] != 0 {
          ghost var p := FoundIn(words[..], bpw, qs, i, 0);
          assert Value()[p] != [];
          return true;
        }
        NothingIn(words[..], bpw, qs, i, 0);
      }
      NothingFrom(words[..], qs, bpw, 0);
      any := false;
    }

    /** runq_choose. */
    method Choose() returns (td: Option<int>)
      requires Valid()
      ensures IsChoice(Value(), td)
    {
      var pri := FindBit();
      if pri != -1 {
        return Some(queues[pri][0]);
      }
      td := None;
    }

    /** runq_choose_from. */
    method ChooseFrom(idx: nat) returns (td: Option<int>)
      requires Valid() && idx < RQ_NQS
      ensures IsChoiceFrom(Value(), idx, td)
    {
      var pri := FindBitFrom(idx);
      if pri != -1 {
        return Some(queues[pri][0]);
      }
      td := None;
    }

    /** lottery_q_add: every thread goes to the head of queue 0. */
    method LotteryAdd(td: int)
      requires Valid()
      modifies words, queues
      ensures Valid() && Value() == Added(old(Value()), 0, td, true)
    {
      Add(0, td, true);
    }

    /** lottery_q_remove. */
    method LotteryRemove(td: int)
      requires Valid() && td in Value()[0]
      modifies words, queues
      ensures Valid() && Value() == Removed(old(Value()), 0, td)
    {
      var moved := RemoveIdx(0, td, None);
    }

    /**
     lottery_q_choose: adds up the tickets, then subtracts them from the draw until it drops below
     zero.  `crash` is a division by zero, or the look at a thread when none was stopped at.
     */
    method LotteryChoose(nice: map<int, int>, draw: nat) returns (crash: bool, td: Option<int>)
      requires Valid() && forall i :: 0 <= i < |Value()[0]| ==> Value()[0][i] in nice
      ensures Value()[0] == [] ==> !crash && td == None
      ensures Value()[0] != [] ==>
                match DrawOf(Tickets(Value()[0], nice), draw)
                case Crash => crash
                case Winner(k) => !crash && td == Some(Value()[0][k])
    {
      hide DrawOf, Stop, WordsOk, StatusBit;
      var q := queues[0];
      crash, td := false, None;
      if q == [] {
        return;
      }
      assert q == Value()[0];
      ghost var w := Tickets(q, nice);
      var tickets := 0;
      for i := 0 to |q|
        invariant tickets == Sum(w, i)
      {
        tickets := tickets + (nice[q[i]] + 1);
      }
      if tickets == 0 {
        NoTickets(w, draw);
        return true, None;
      }
      var r := if tickets > 0 then draw % tickets else draw;
      ghost var drawn := Reduced(w, draw);
      crash := true;
      var k := 0;
      while k < |q|
        invariant 0 <= k <= |q| && r == drawn - Sum(w, k)
        invariant forall j :: 1 <= j <= k ==> Sum(w, j) <= drawn
        invariant crash
      {
        r := r - (nice[q[k]] + 1);
        if r < 0 {
          StopIs(w, drawn, k);
          DrawIs(w, draw);
          return false, Some(q[k]);
        }
        k := k + 1;
      }
      NoStop(w, drawn);
      DrawIs(w, draw);
    }
  }

  lemma NothingFrom(ws: seq<nat>, qs: Queues, bpw: nat, from: nat)
    requires |qs| == RQ_NQS && bpw > 0 && WordsOk(ws, bpw)
    requires forall q :: from <= q < RQ_NQS && WordOf(q, bpw) < |ws| ==> qs[q] == []
    ensures forall q :: from <= q < RQ_NQS ==> qs[q] == []
  {
    forall q | from <= q < RQ_NQS ensures qs[q] == [] { SlotIn(ws, bpw, q); }
  }

  lemma FirstFrom(qs: Queues, bpw: nat, from: nat, i: nat, low: nat, p: nat)
    requires |qs| == RQ_NQS && bpw > 0 && from < RQ_NQS
    requires WordOf(from, bpw) <= i && low == (if i == WordOf(from, bpw) then BitOf(from, bpw) else 0)
    requires forall q :: from <= q < RQ_NQS && WordOf(q, bpw) < i ==> qs[q] == []
    requires p < RQ_NQS && WordOf(p, bpw) == i && BitOf(p, bpw) >= low
    requires forall q :: 0 <= q < RQ_NQS && WordOf(q, bpw) == i && low <= BitOf(q, bpw) < BitOf(p, bpw) ==> qs[q] == []
    ensures from <= p && forall q :: from <= q < p ==> qs[q] == []
  {
    SlotOrder(p, from, bpw);
    forall q | from <= q < p ensures qs[q] == [] {
      SlotOrder(q, p, bpw);
      SlotOrder(q, from, bpw);
    }
  }

  lemma StillNothing(qs: Queues, bpw: nat, from: nat, i: nat, low: nat)
    requires |qs| == RQ_NQS && bpw > 0 && from < RQ_NQS && WordOf(from, bpw) <= i
             && low == (if i == WordOf(from, bpw) then BitOf(from, bpw) else 0)
    requires forall q :: from <= q < RQ_NQS && WordOf(q, bpw) < i ==> qs[q] == []
    requires forall q :: 0 <= q < RQ_NQS && WordOf(q, bpw) == i && BitOf(q, bpw) >= low ==> qs[q] == []
    ensures forall q :: from <= q < RQ_NQS && WordOf(q, bpw) < i + 1 ==> qs[q] == []
  {
    forall q | from <= q < RQ_NQS && WordOf(q, bpw) < i + 1 ensures qs[q] == [] {
      SlotOrder(q, from, bpw);
    }
  }
}
