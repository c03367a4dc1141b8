/** Where each operation on the page queues leaves its page, and that it leaves every other page alone. */
module PageMoves {
  import opened Seqs
  import opened PageQueues

  /** The page's queue is `q`, it is last there, and if that is the inactive queue it has a fresh birthday. */
  ghost predicate LastOn(v: Vm, p: int, q: Queue, was: Vm) {
    && p in v.pages && v.pages[p].queue == q
    && (q == Inactive ==> |v.inactive| > 0 && v.inactive[|v.inactive| - 1] == Page(p, was.pgCnt))
    && (q == Laundry ==> |v.laundry| > 0 && v.laundry[|v.laundry| - 1] == p)
  }

  predicate IsPage(x: Item, p: int) { x.Page? && x.p == p }

  /** Every other page has its record, and its entry if it had one. */
  ghost predicate OthersStay(v: Vm, w: Vm, p: int) {
    && w.pages.Keys == v.pages.Keys
    && (forall x :: x in v.pages && x != p ==> w.pages[x] == v.pages[x])
    && (forall i :: 0 <= i < |v.inactive| && !IsPage(v.inactive[i], p) ==> v.inactive[i] in w.inactive)
    && (forall i :: 0 <= i < |v.laundry| && v.laundry[i] != p ==> v.laundry[i] in w.laundry)
  }

  /** The page has moved to the tail of queue `q`, and nothing else has changed. */
  ghost predicate Moved(v: Vm, w: Vm, p: int, q: Queue) {
    p in v.pages && LastOn(w, p, q, v) && OthersStay(v, w, p) && w.pages[p] == v.pages[p].(queue := q)
  }

  lemma RemoveStays<T>(s: seq<T>, x: T, y: T)
    requires y in s && y != x
    ensures y in Remove(s, x)
  {
    var i := IndexOf(s, x, 0);
    var j :| 0 <= j < |s| && s[j] == y;
    if i < |s| {
      CutKeeps(s, i, j);
    }
  }

  lemma RemovePageStays(s: seq<Item>, p: int, y: Item)
    requires y in s && !IsPage(y, p)
    ensures y in RemovePage(s, p)
  {
    var i := PlaceOf(s, p, 0);
    var j :| 0 <= j < |s| && s[j] == y;
    if i < |s| {
      CutKeeps(s, i, j);
    }
  }

  lemma DequeuedStays(v: Vm, p: int)
    requires Inv(v) && p in v.pages
    ensures var w := Dequeued(v, p);
            OthersStay(v, w, p) && w.pgCnt == v.pgCnt && w.pages[p] == v.pages[p].(queue := NoQueue)
  {
    hide PlaceOf, IndexOf, Remove, RemovePage, Cut, Sorted, Lists, ListsLaundry, Counted;
    forall i | 0 <= i < |v.inactive| && !IsPage(v.inactive[i], p)
      ensures v.inactive[i] in RemovePage(v.inactive, p)
    {
      RemovePageStays(v.inactive, p, v.inactive[i]);
    }
    forall i | 0 <= i < |v.laundry| && v.laundry[i] != p ensures v.laundry[i] in Remove(v.laundry, p) {
      RemoveStays(v.laundry, p, v.laundry[i]);
    }
    assert v.pages[p].queue == NoQueue ==> v.pages[p] == v.pages[p].(queue := NoQueue);
  }

  /** Off its queue and to the tail of another. */
  lemma MoveEndsLast(v: Vm, q: Queue, p: int)
    requires Inv(v) && p in v.pages && (q == Inactive || q == Laundry)
    ensures Moved(v, Enqueue(Dequeued(v, p), q, p), p, q)
  {
    hide Dequeued, Inv;
    DequeuedStays(v, p);
  }

  /** vm_page_activate: an unwired managed page, wherever it was, is last on the inactive queue; any other stays. */
  lemma ActivateEndsLast(v: Vm, p: int)
    requires Inv(v) && p in v.pages
    ensures var w, free := Activate(v, p), v.pages[p].wire == 0 && !v.pages[p].unmanaged;
            && (free ==> Moved(v, w, p, Inactive))
            && (!free ==> w == v)
  {
    hide Dequeued, Enqueue, Moved, Sorted, Lists, ListsLaundry, Counted;
    MoveEndsLast(v, Inactive, p);
  }

  /** _vm_page_deactivate: the same, but a page already inactive keeps its place unless it is not to be reused. */
  lemma DeactivateEndsLast(v: Vm, p: int, noreuse: bool)
    requires Inv(v) && p in v.pages
    ensures var w, free := Deactivate(v, p, noreuse), v.pages[p].wire == 0 && !v.pages[p].unmanaged;
            var moves := free && (v.pages[p].queue != Inactive || noreuse);
            && (moves ==> Moved(v, w, p, Inactive))
            && (!moves ==> w == v)
  {
    hide Dequeued, Enqueue, Moved, Inv;
    MoveEndsLast(v, Inactive, p);
  }

  /** vm_page_launder. */
  lemma LaunderEndsLast(v: Vm, p: int)
    requires Inv(v) && p in v.pages
    ensures var w := Launder(v, p);
            var moves := v.pages[p].wire == 0 && !v.pages[p].unmanaged && v.pages[p].queue != Laundry;
            && (moves ==> Moved(v, w, p, Laundry))
            && (!moves ==> w == v)
  {
    hide Dequeued, Enqueue, Moved, Inv;
    MoveEndsLast(v, Laundry, p);
  }

  /** vm_page_wire: one more wiring, and the page is on no queue. */
  lemma WireUnqueues(v: Vm, p: int)
    requires Inv(v) && p in v.pages
    ensures var w := Wire(v, p);
            OthersStay(v, w, p) && w.pages[p] == v.pages[p].(wire := v.pages[p].wire + 1, queue := NoQueue)
  {
    hide Dequeued, Sorted, Lists, ListsLaundry, Counted;
    DequeuedStays(v, p);
    if v.pages[p].wire > 0 {
      WiredIsUnqueued(v, p);
      assert v.pages[p] == v.pages[p].(queue := NoQueue);
    }
  }

  /**
   vm_page_unwire: one wiring fewer; with the last one a managed page that has an object is last
   on the queue asked for, the inactive one standing in for the active one.
   */
  lemma UnwireQueues(v: Vm, p: int, q: Queue)
    requires Inv(v) && p in v.pages && v.pages[p].wire > 0
    ensures var w, t := Unwire(v, p, q), v.pages[p].(wire := v.pages[p].wire - 1);
            var moves := t.wire == 0 && !t.unmanaged && t.attr.owner != 0 && q != NoQueue;
            var to := if !moves then NoQueue else if q == Laundry then Laundry else Inactive;
            OthersStay(v, w, p) && LastOn(w, p, to, v) && w.pages[p] == t.(queue := to)
  {
    hide Sorted, Lists, ListsLaundry, Counted;
    WiredIsUnqueued(v, p);
    var t := v.pages[p].(wire := v.pages[p].wire - 1);
    assert t == t.(queue := NoQueue);
  }

  /** vm_page_requeue: the page is last on the laundry queue, which has the same pages. */
  lemma RequeueEndsLast(v: Vm, p: int)
    requires Inv(v) && p in v.pages && v.pages[p].queue == Laundry
    ensures var w := RequeueLaundry(v, p);
            LastOn(w, p, Laundry, v) && OthersStay(v, w, p) && w.pages == v.pages && |w.laundry| == |v.laundry|
  {
    hide IndexOf, Cut, Sorted, Lists, Counted;
    OnLaundry(v, p);
    CutPlaces(v.laundry, IndexOf(v.laundry, p, 0));
    forall i | 0 <= i < |v.laundry| && v.laundry[i] != p ensures v.laundry[i] in Remove(v.laundry, p) {
      RemoveStays(v.laundry, p, v.laundry[i]);
    }
  }

  /** vm_page_free_prep: on no queue, in no object, invalid and clean. */
  lemma FreeClears(v: Vm, p: int)
    requires Inv(v) && p in v.pages
    ensures var w := Free(v, p);
            && OthersStay(v, w, p)
            && w.pages[p] == v.pages[p].(queue := NoQueue,
               attr := v.pages[p].attr.(owner := 0, valid := false, dirty := false))
  {
    hide Dequeued, Sorted, Lists, ListsLaundry, Counted;
    DequeuedStays(v, p);
  }
}
