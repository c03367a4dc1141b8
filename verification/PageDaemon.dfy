/**
 The page queues changed in place: the queue operations of vm_page.c and the inactive scan of
 vm_pageout.c.  Wherever the scan drops the queue lock, others run any operations they like.
 */
module PageDaemon {
  import opened Prelude
  import opened ScanTrace
  import opened Seqs
  import opened PageQueues
  import opened Pageout

  class Domain {
    /** Whether the page daemon has the machine to itself: then nothing happens while it drops a lock. */
    const alone: bool
    var inactive: seq<Item>
    var active: seq<int>
    var laundry: seq<int>
    var inactiveCnt: int
    var activeCnt: int
    var laundryCnt: int
    var pgCnt: nat
    var pages: map<int, PageRec>

    function Value(): Vm
      reads this
    {
      Vm(inactive, active, laundry, inactiveCnt, activeCnt, laundryCnt, pgCnt, pages)
    }

    constructor (all: map<int, PageRec>, head: int, alone: bool)
      requires forall p :: p in all ==> all[p].queue == NoQueue
      ensures Inv(Value()) && inactive == [Marker(head)] && pages == all && this.alone == alone
    {
      this.alone := alone;
      inactive, active, laundry := [Marker(head)], [], [];
      inactiveCnt, activeCnt, laundryCnt, pgCnt, pages := 0, 0, 0, 0, all;
      new;
      StartIsSound(Value(), head);
    }

    // ----- vm_page.c -----

    method SetQueue(p: int, q: Queue)
      requires p in pages
      modifies this`pages
      ensures Value() == PageQueues.SetQueue(old(Value()), p, q)
    {
      pages := pages[p := pages[p].(queue := q)];
    }

    method Enqueue(queue: Queue, p: int)
      requires p in pages && queue != NoQueue
      modifies this
      ensures Value() == PageQueues.Enqueue(old(Value()), queue, p)
    {
      var q := if queue == Active then Inactive else queue;
      var id := pgCnt;
      if q == Inactive {
        pgCnt := pgCnt + 1;
      }
      SetQueue(p, q);
      if q == Laundry {
        laundry := laundry + [p];
        laundryCnt := laundryCnt + 1;
      } else {
        inactive := inactive + [Page(p, id)];
        inactiveCnt := inactiveCnt + 1;
      }
    }

    method Dequeue(p: int)
      requires p in pages && pages[p].queue != NoQueue
      modifies this
      ensures Value() == PageQueues.Dequeue(old(Value()), p)
    {
      var q := pages[p].queue;
      SetQueue(p, NoQueue);
      if q == Inactive {
        inactive := RemovePage(inactive, p);
        inactiveCnt := inactiveCnt - 1;
      } else if q == Active {
        active := Remove(active, p);
        activeCnt := activeCnt - 1;
      } else {
        laundry := Remove(laundry, p);
        laundryCnt := laundryCnt - 1;
      }
    }

    method Activate(p: int)
      requires p in pages
      modifies this
      ensures Value() == PageQueues.Activate(old(Value()), p)
    {
      hide PageQueues.Enqueue, PageQueues.Dequeue;
      var queue := pages[p].queue;
      if queue != Active {
        if pages[p].wire == 0 && !pages[p].unmanaged {
          if queue != NoQueue {
            Dequeue(p);
          }
          Enqueue(Inactive, p);
        }
      }
    }

    method Deactivate(p: int, noreuse: bool)
      requires p in pages
      modifies this
      ensures Value() == PageQueues.Deactivate(old(Value()), p, noreuse)
    {
      hide PageQueues.Dequeue;
      var queue := pages[p].queue;
      if queue == Inactive && !noreuse {
        return;
      }
      if pages[p].wire == 0 && !pages[p].unmanaged {
        if queue != NoQueue {
          Dequeue(p);
        }
        SetQueue(p, Inactive);
        inactive := inactive + [Page(p, pgCnt)];
        pgCnt := pgCnt + 1;
        inactiveCnt := inactiveCnt + 1;
      }
    }

    method LaunderPage(p: int)
      requires p in pages
      modifies this
      ensures Value() == Launder(old(Value()), p)
    {
      hide PageQueues.Enqueue, PageQueues.Dequeue;
      var queue := pages[p].queue;
      if queue != Laundry {
        if pages[p].wire == 0 && !pages[p].unmanaged {
          if queue != NoQueue {
            Dequeue(p);
          }
          Enqueue(Laundry, p);
        }
      }
    }

    method Wire(p: int)
      requires p in pages
      modifies this
      ensures Value() == PageQueues.Wire(old(Value()), p)
    {
      hide PageQueues.Dequeue;
      if pages[p].wire == 0 {
        if pages[p].queue != NoQueue {
          Dequeue(p);
        }
      }
      pages := pages[p := pages[p].(wire := pages[p].wire + 1)];
    }

    method Unwire(p: int, queue: Queue) returns (released: bool)
      requires p in pages && pages[p].wire > 0
      modifies this
      ensures Value() == PageQueues.Unwire(old(Value()), p, queue)
      ensures released <==> old(pages[p].wire) == 1
    {
      hide PageQueues.Enqueue;
      pages := pages[p := pages[p].(wire := pages[p].wire - 1)];
      if pages[p].wire == 0 {
        if !pages[p].unmanaged && pages[p].attr.owner != 0 && queue != NoQueue {
          Enqueue(queue, p);
        }
        return true;
      }
      return false;
    }

    method FreePage(p: int)
      requires p in pages
      modifies this
      ensures Value() == Free(old(Value()), p)
    {
      hide PageQueues.Dequeue;
      if pages[p].queue != NoQueue {
        Dequeue(p);
      }
      pages := pages[p := pages[p].(attr := pages[p].attr.(owner := 0, valid := false, dirty := false))];
    }

    method Requeue(p: int)
      requires p in pages && pages[p].queue == Laundry
      modifies this`laundry
      ensures Value() == RequeueLaundry(old(Value()), p)
    {
      laundry := Remove(laundry, p);
      laundry := laundry + [p];
    }

    method SetAttr(p: int, attr: Attr)
      requires p in pages
      modifies this`pages
      ensures Value() == PageQueues.SetAttr(old(Value()), p, attr)
    {
      pages := pages[p := pages[p].(attr := attr)];
    }

    method Perform(op: Op)
      modifies this
      ensures Value() == Apply(old(Value()), op)
    {
      hide PageQueues.Activate, PageQueues.Deactivate, Launder, PageQueues.Wire, PageQueues.Unwire, Free,
           RequeueLaundry;
      if op.p !in pages {
        return;
      }
      match op
      case DoActivate(p) => Activate(p);
      case DoDeactivate(p, noreuse) => Deactivate(p, noreuse);
      case DoLaunder(p) => LaunderPage(p);
      case DoWire(p) => Wire(p);
      case DoUnwire(p, q) =>
        if pages[p].wire > 0 {
          var released := Unwire(p, q);
        }
      case DoFree(p) => FreePage(p);
      case DoRequeue(p) =>
        if pages[p].queue == Laundry {
          Requeue(p);
        }
      case DoAttr(p, attr) => SetAttr(p, attr);
    }

    // ----- others, while the queue lock is dropped -----

    /** Other threads run any operations at all, but none on the page whose lock is held. */
    method Others(locked: set<int>) returns (ghost ops: seq<Op>)
      modifies this
      ensures Value() == ApplyAll(old(Value()), ops)
      ensures forall i :: 0 <= i < |ops| ==> ops[i].p !in locked
      ensures alone ==> ops == []
    {
      hide Apply;
      ops := [];
      if alone {
        return;
      }
      var todo: seq<Op> := *;
      var i := 0;
      while i < |todo|
        invariant i <= |todo|
        invariant Value() == ApplyAll(old(Value()), ops)
        invariant forall j :: 0 <= j < |ops| ==> ops[j].p !in locked
      {
        if todo[i].p !in locked {
          label before:
          Perform(todo[i]);
          ApplyJoin(old(Value()), ops, [todo[i]]);
          ghost var was := old@before(Value());
          assert ApplyAll(was, [todo[i]]) == Apply(was, todo[i]) by { ApplyOne(was, todo[i]); }
          ops := ops + [todo[i]];
        }
        i := i + 1;
      }
    }

    // ----- vm_pageout.c -----

    /**
     vm_pageout_page_lock: if the page lock is not free, wait for it behind a marker with the
     queue unlocked.  `same` says whether the page is still the entry before the marker; in any
     case the scan goes on from `next`.
     */
    method PageLock(m: nat, ghost skipped: set<Item>, ghost bound: int)
        returns (next: nat, same: bool, ghost drop: Option<seq<Op>>)
      requires At(Value(), m, skipped, bound) && m < |inactive| && inactive[m].Page?
      modifies this
      ensures Standing(Value(), next, same) == Locked(old(Value()), m, drop)
      ensures alone && drop.Some? ==> drop.value == []
    {
      hide At, InsertMarker, ApplyAll, Remove, IndexOf;
      if * {
        return m + 1, true, None;
      }
      var p := inactive[m].p;
      PutMarker(m, STACK_MARKER);
      ghost var ops := Others({});
      next := IndexOf(inactive, Marker(STACK_MARKER), 0);
      same := Precedes(inactive, next, p);
      inactive := Remove(inactive, Marker(STACK_MARKER));
      drop := Some(ops);
    }

    /**
     VM_OBJECT_TRYWLOCK and, if that fails, vm_pageout_fallback_object_lock: as before, with the
     page unlocked too; it is also a change if the page left the object it had.
     */
    method ObjectLock(m: nat, ghost skipped: set<Item>, ghost bound: int)
        returns (next: nat, same: bool, waited: bool, ghost drop: Option<seq<Op>>)
      requires At(Value(), m, skipped, bound) && m < |inactive| && inactive[m].Page?
      modifies this
      ensures Standing(Value(), next, same) == ObjectLocked(old(Value()), m, drop) && (waited <==> drop.Some?)
      ensures alone && drop.Some? ==> drop.value == []
    {
      hide At, InsertMarker, ApplyAll, Remove, IndexOf;
      if * {
        return m + 1, true, false, None;
      }
      ghost var v := Value();
      AtPage(v, m, skipped, bound);
      var p := inactive[m].p;
      var owner := pages[p].attr.owner;
      PutMarker(m, STACK_MARKER);
      ghost var ops := Others({});
      DropEnds(v, m, ops, skipped, bound);
      next := IndexOf(inactive, Marker(STACK_MARKER), 0);
      same := Precedes(inactive, next, p);
      inactive := Remove(inactive, Marker(STACK_MARKER));
      same := pages[p].attr.owner == owner && same;
      waited, drop := true, Some(ops);
    }

    method PutMarker(m: nat, k: int)
      requires m < |inactive|
      modifies this`inactive
      ensures Value() == InsertMarker(old(Value()), m, k)
    {
      inactive := inactive[..m + 1] + [Marker(k)] + inactive[m + 1..];
    }

    /**
     With the page locked and off its queue: free it if invalid or clean, else launder it unless
     its object is dying.
     */
    method Dispose(p: int) returns (fate: Fate, ghost attr: Attr, ghost written: bool, ghost dead: bool)
      requires p in pages
      modifies this
      ensures Value() == ApplyAll(old(Value()), FateOps(p, attr, fate))
      ensures attr == Tested(old(pages[p].attr), written) && fate == FateOf(attr, dead)
    {
      hide Free, Launder;
      ghost var v := Value();
      var a := pages[p].attr;
      var found: bool := false;
      if a.valid {
        var referenced: bool, modified: bool := *, *;
        found := referenced && modified;
        if found {
          a := a.(dirty := true);
        }
      }
      attr, written := a, found;
      SetAttr(p, a);
      var dying: bool := *;
      dead := dying;
      if !a.valid || !a.dirty {
        fate := Freed;
        FreePage(p);
      } else if !dying {
        fate := Laundered;
        LaunderPage(p);
      } else {
        fate := LeftOff;
      }
      FateIs(v, p, attr, fate);
    }

    /** The page at place `m` is taken off the queue and dealt with, the domain's marker holding the place. */
    method Take(m: nat, ghost skipped: set<Item>, ghost bound: int, ghost sofar: Choices)
        returns (next: nat, fate: Fate, ghost ch: Choices)
      requires At(Value(), m, skipped, bound) && m < |inactive| && inactive[m].Page?
      modifies this
      ensures old(Stands(Value(), m, inactive[m].p))
      ensures Result(Value(), next, Some(fate)) == Disposed(old(Value()), m, ch)
      ensures ch.pageDrop == sofar.pageDrop && ch.objectDrop == sofar.objectDrop && Legal(old(inactive[m].p), ch)
      ensures alone ==> ch.before == [] && ch.after == []
    {
      hide At, InsertMarker, ApplyAll, Remove, IndexOf, FateOps, PageQueues.Dequeue, Tested, FateOf;
      ghost var v := Value();
      AtStands(v, m, skipped, bound);
      var p := inactive[m].p;
      PutMarker(m, VMD_MARKER);
      Dequeue(p);
      ghost var before := Others({p});
      TakenRecord(v, m, before);
      ghost var attr: Attr, written: bool, dead: bool;
      fate, attr, written, dead := Dispose(p);
      ghost var after := Others({});
      JoinThree(TakenOut(v, m), before, FateOps(p, attr, fate), after);
      next := IndexOf(inactive, Marker(VMD_MARKER), 0);
      inactive := Remove(inactive, Marker(VMD_MARKER));
      ch := Choices(sofar.pageDrop, sofar.objectDrop, before, written, dead, after);
    }

    /** One turn of the scan at a page. */
    method Visit(m: nat, ghost skipped: set<Item>, ghost bound: int)
        returns (next: nat, took: Option<Fate>, ghost ch: Choices)
      requires At(Value(), m, skipped, bound) && m < |inactive| && inactive[m].Page?
      modifies this
      ensures Result(Value(), next, took) == Visited(old(Value()), m, ch) && Legal(old(inactive[m].p), ch)
      ensures alone ==> Quietly(ch)
    {
      hide At, Locked, ObjectLocked, Disposed;
      ghost var v := Value();
      var p := inactive[m].p;
      ghost var pageDrop: Option<seq<Op>>, objectDrop: Option<seq<Op>>;
      var same: bool;
      next, same, pageDrop := PageLock(m, skipped, bound);
      ch := Choices(pageDrop, None, [], false, false, []);
      LockedAt(v, m, pageDrop, skipped, bound);
      if !same {
        return next, None, ch;
      }
      AtStands(Value(), next - 1, skipped, bound);
      if pages[p].attr.hold != 0 {
        return next, None, ch;
      }
      var waited: bool;
      ghost var w, place := Value(), next - 1;
      next, same, waited, objectDrop := ObjectLock(next - 1, skipped, bound);
      ch := ch.(objectDrop := objectDrop);
      ObjectLockedAt(w, place, objectDrop, skipped, bound);
      if !same {
        return next, None, ch;
      }
      AtStands(Value(), next - 1, skipped, bound);
      if waited && pages[p].attr.hold != 0 {
        return next, None, ch;
      }
      if pages[p].attr.busied {
        return next, None, ch;
      }
      var fate: Fate;
      next, fate, ch := Take(next - 1, skipped, bound, ch);
      took := Some(fate);
    }

    /**
     vm_pageout_scan of the inactive queue, `target` being the pages it is short of.  `choices`
     are the operations of others at each lock drop and what the hardware and the objects said;
     the queues are then those of the replay, which also tells what was taken, passed over,
     freed and laundered.  A turn is used only while pages are short and entries are left, and
     the scan gives up before the target only when it has had as many turns as there were pages
     or is at the end of the queue.
     */
    method Scan(target: int) returns (met: bool, ghost choices: seq<Choices>)
      requires Inv(Value()) && NoMarker(inactive, STACK_MARKER) && NoMarker(inactive, VMD_MARKER)
      modifies this
      ensures Inv(Value()) && NoMarker(inactive, STACK_MARKER) && NoMarker(inactive, VMD_MARKER)
      ensures Value() == Replay(old(Value()), choices).v
      ensures AllLegal(old(Value()), choices) && Needed(old(Value()), choices, target)
      ensures |choices| <= old(inactiveCnt)
      ensures met <==> |Met(Replay(old(Value()), choices).log, Freed)| >= target
      ensures met || |choices| == old(inactiveCnt) || Replay(old(Value()), choices).m == |inactive|
      ensures alone ==> QuietRun(old(Value()), choices)
    {
      hide At, Replay, Turned, Inv, NoMarker, Visited, Met, Needed, AllLegal, QuietRun, Legal, Scanning;
      ghost var u := Value();
      StartAt(u);
      CountNat(u, {}, -1);
      var maxscan := inactiveCnt;
      var m: nat := 0;
      var shortage := target;
      choices := [];
      ReplayStart(u, target);
      while m < |inactive| && maxscan > 0 && shortage > 0
        invariant Scanning(u, Value(), m, choices, target, shortage) && AllLegal(u, choices)
        invariant |choices| + maxscan == old(inactiveCnt) && maxscan >= 0
        invariant alone ==> QuietRun(u, choices)
        decreases maxscan
      {
        maxscan := maxscan - 1;
        ghost var v, ch := Value(), Choices(None, None, [], false, false, []);
        ScanningAt(u, v, m, choices, target, shortage);
        if inactive[m].Marker? {
          m := m + 1;
          ScanningMarker(u, v, m - 1, choices, target, shortage, ch);
        } else {
          var p := inactive[m].p;
          ghost var r := Replay(u, choices);
          var took: Option<Fate>;
          ghost var place := m;
          m, took, ch := Visit(m, Skipped(r.log), Bound(Taken(r.log)));
          ScanningTurn(u, v, place, choices, target, shortage, ch, Value(), m, took);
          if took.Some? && took.value == Freed {
            shortage := shortage - 1;
          }
        }
        LegalMore(u, choices, ch);
        if alone {
          QuietMore(u, choices, ch);
        }
        choices := choices + [ch];
      }
      met := shortage <= 0;
      ScanningEnds(u, Value(), m, choices, target, shortage);
    }
  }
}
