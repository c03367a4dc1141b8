/**
 The page queues as values: every page that would go to the active queue goes to the tail of
 the inactive queue with a fresh birthday id, so that queue is first in, first out.
 */
module PageQueues {
  import opened Seqs

  /** The queues a page can be on; PQ_FIFO is never used. */
  datatype Queue = NoQueue | Inactive | Active | Laundry

  /** The fields of a page the queues and the pageout scan look at; `owner` is 0 for a page of no object. */
  datatype PageRec = PageRec(queue: Queue, wire: nat, unmanaged: bool, attr: Attr)
  datatype Attr = Attr(owner: nat, hold: nat, busied: bool, valid: bool, dirty: bool)

  /** An entry of the inactive queue: a page with the id it entered with, or a marker. */
  datatype Item = Page(p: int, id: nat) | Marker(k: int)

  datatype Vm = Vm(inactive: seq<Item>, active: seq<int>, laundry: seq<int>,
                   inactiveCnt: int, activeCnt: int, laundryCnt: int, pgCnt: nat, pages: map<int, PageRec>)

  // ----- lists -----

  /** The first entry of page `p` from place `from` on, or the length. */
  function PlaceOf(s: seq<Item>, p: int, from: nat): (i: nat)
    requires from <= |s|
    ensures from <= i <= |s| && (i < |s| ==> s[i].Page? && s[i].p == p)
    ensures forall j :: from <= j < i ==> !(s[j].Page? && s[j].p == p)
    decreases |s| - from
  {
    if from == |s| || (s[from].Page? && s[from].p == p) then from else PlaceOf(s, p, from + 1)
  }

  function RemovePage(s: seq<Item>, p: int): seq<Item> {
    var i := PlaceOf(s, p, 0);
    if i < |s| then Cut(s, i) else s
  }

  /** How many entries are pages. */
  function PageCount(s: seq<Item>): nat {
    if s == [] then 0 else PageCount(s[..|s| - 1]) + (if s[|s| - 1].Page? then 1 else 0)
  }

  // ----- operations -----

  function SetQueue(v: Vm, p: int, q: Queue): Vm
    requires p in v.pages
  {
    v.(pages := v.pages[p := v.pages[p].(queue := q)])
  }

  /** vm_page_enqueue: the active queue is funnelled into the inactive one. */
  function Enqueue(v: Vm, q: Queue, p: int): (w: Vm)
    requires p in v.pages && q != NoQueue
    ensures w.pages.Keys == v.pages.Keys
  {
    if q == Laundry then
      SetQueue(v, p, Laundry).(laundry := v.laundry + [p], laundryCnt := v.laundryCnt + 1)
    else
      SetQueue(v, p, Inactive).(inactive := v.inactive + [Page(p, v.pgCnt)], inactiveCnt := v.inactiveCnt + 1,
                                pgCnt := v.pgCnt + 1)
  }

  /** vm_page_dequeue and vm_page_dequeue_locked. */
  function Dequeue(v: Vm, p: int): (w: Vm)
    requires p in v.pages && v.pages[p].queue != NoQueue
    ensures w.pages.Keys == v.pages.Keys
  {
    var w := SetQueue(v, p, NoQueue);
    match v.pages[p].queue
    case Inactive => w.(inactive := RemovePage(v.inactive, p), inactiveCnt := v.inactiveCnt - 1)
    case Active => w.(active := Remove(v.active, p), activeCnt := v.activeCnt - 1)
    case _ => w.(laundry := Remove(v.laundry, p), laundryCnt := v.laundryCnt - 1)
  }

  function Dequeued(v: Vm, p: int): (w: Vm)
    requires p in v.pages
    ensures w.pages.Keys == v.pages.Keys
  {
    if v.pages[p].queue != NoQueue then Dequeue(v, p) else v
  }

  predicate Pageable(v: Vm, p: int)
    requires p in v.pages
  {
    v.pages[p].wire == 0 && !v.pages[p].unmanaged
  }

  /** vm_page_activate: a page not on the active queue (and none is) is put at the tail of the inactive one. */
  function Activate(v: Vm, p: int): Vm
    requires p in v.pages
  {
    if v.pages[p].queue != Active && Pageable(v, p) then Enqueue(Dequeued(v, p), Inactive, p) else v
  }

  /** _vm_page_deactivate: with `noreuse` a page already inactive is given a new place and id. */
  function Deactivate(v: Vm, p: int, noreuse: bool): Vm
    requires p in v.pages
  {
    if v.pages[p].queue == Inactive && !noreuse then v
    else if Pageable(v, p) then Enqueue(Dequeued(v, p), Inactive, p) else v
  }

  /** vm_page_launder. */
  function Launder(v: Vm, p: int): Vm
    requires p in v.pages
  {
    if v.pages[p].queue != Laundry && Pageable(v, p) then Enqueue(Dequeued(v, p), Laundry, p) else v
  }

  /** vm_page_wire. */
  function Wire(v: Vm, p: int): Vm
    requires p in v.pages
  {
    var w := if v.pages[p].wire == 0 then Dequeued(v, p) else v;
    w.(pages := w.pages[p := w.pages[p].(wire := w.pages[p].wire + 1)])
  }

  /** vm_page_unwire of a page that is wired. */
  function Unwire(v: Vm, p: int, q: Queue): Vm
    requires p in v.pages && v.pages[p].wire > 0
  {
    var t := v.pages[p].(wire := v.pages[p].wire - 1);
    var w := v.(pages := v.pages[p := t]);
    if t.wire == 0 && !t.unmanaged && t.attr.owner != 0 && q != NoQueue then Enqueue(w, q, p) else w
  }

  /** vm_page_requeue, which is used on the laundry queue only. */
  function RequeueLaundry(v: Vm, p: int): Vm
    requires p in v.pages && v.pages[p].queue == Laundry
  {
    v.(laundry := Remove(v.laundry, p) + [p])
  }

  /** The page lock and object lock protect these; they do not concern the queues. */
  function SetAttr(v: Vm, p: int, attr: Attr): Vm
    requires p in v.pages
  {
    v.(pages := v.pages[p := v.pages[p].(attr := attr)])
  }

  /** vm_page_free_prep: off its queue, out of its object, invalid and clean. */
  function Free(v: Vm, p: int): Vm
    requires p in v.pages
  {
    var w := Dequeued(v, p);
    SetAttr(w, p, w.pages[p].attr.(owner := 0, valid := false, dirty := false))
  }

  datatype Op =
    | DoActivate(p: int) | DoDeactivate(p: int, noreuse: bool) | DoLaunder(p: int)
    | DoWire(p: int) | DoUnwire(p: int, q: Queue) | DoFree(p: int) | DoRequeue(p: int) | DoAttr(p: int, attr: Attr)

  /** One operation, or nothing when the page is not in a state for it. */
  function Apply(v: Vm, op: Op): Vm {
    if op.p !in v.pages then v
    else match op
      case DoActivate(p) => Activate(v, p)
      case DoDeactivate(p, noreuse) => Deactivate(v, p, noreuse)
      case DoLaunder(p) => Launder(v, p)
      case DoWire(p) => Wire(v, p)
      case DoUnwire(p, q) => if v.pages[p].wire > 0 then Unwire(v, p, q) else v
      case DoFree(p) => Free(v, p)
      case DoRequeue(p) => if v.pages[p].queue == Laundry then RequeueLaundry(v, p) else v
      case DoAttr(p, attr) => SetAttr(v, p, attr)
  }

  function ApplyAll(v: Vm, ops: seq<Op>): Vm
    decreases |ops|
  {
    if ops == [] then v else ApplyAll(Apply(v, ops[0]), ops[1..])
  }

  // ----- the invariant -----

  /** First in, first out: ids grow along the queue, and are all below the counter. */
  ghost predicate Sorted(s: seq<Item>, pgCnt: nat) {
    && (forall i :: 0 <= i < |s| && s[i].Page? ==> s[i].id < pgCnt)
    && (forall i, j :: 0 <= i < j < |s| && s[i].Page? && s[j].Page? ==> s[i].id < s[j].id)
  }

  /** The queue has exactly the pages that say they are on it, each once. */
  ghost predicate Lists(s: seq<Item>, pages: map<int, PageRec>) {
    && (forall i :: 0 <= i < |s| && s[i].Page? ==> s[i].p in pages && pages[s[i].p].queue == Inactive)
    && (forall i, j :: 0 <= i < j < |s| && s[i].Page? && s[j].Page? ==> s[i].p != s[j].p)
    && (forall p :: p in pages && pages[p].queue == Inactive ==> PlaceOf(s, p, 0) < |s|)
  }

  ghost predicate ListsLaundry(s: seq<int>, pages: map<int, PageRec>) {
    && (forall i :: 0 <= i < |s| ==> s[i] in pages && pages[s[i]].queue == Laundry)
    && (forall i, j :: 0 <= i < j < |s| ==> s[i] != s[j])
    && (forall p :: p in pages && pages[p].queue == Laundry ==> IndexOf(s, p, 0) < |s|)
  }

  ghost predicate Counted(v: Vm) {
    v.active == [] && v.activeCnt == 0 && v.inactiveCnt == PageCount(v.inactive) && v.laundryCnt == |v.laundry|
  }

  ghost predicate PagesOk(pages: map<int, PageRec>) {
    forall p :: p in pages ==> pages[p].queue != Active
                               && (pages[p].queue != NoQueue ==> pages[p].wire == 0 && !pages[p].unmanaged)
  }

  ghost predicate Inv(v: Vm) {
    Sorted(v.inactive, v.pgCnt) && Lists(v.inactive, v.pages) && ListsLaundry(v.laundry, v.pages) && Counted(v)
      && PagesOk(v.pages)
  }

  // ----- the two primitives -----

  lemma {:induction false} CountCut(s: seq<Item>, i: nat)
    requires i < |s|
    ensures PageCount(Cut(s, i)) == PageCount(s) - (if s[i].Page? then 1 else 0)
    decreases |s|
  {
    var n := |s| - 1;
    if i < n {
      CountCut(s[..n], i);
      assert Cut(s, i)[..n - 1] == Cut(s[..n], i);
      assert Cut(s, i)[n - 1] == s[n];
    } else {
      assert Cut(s, i) == s[..n];
    }
  }

  lemma {:induction false} CountAdd(s: seq<Item>, x: Item)
    ensures PageCount(s + [x]) == PageCount(s) + (if x.Page? then 1 else 0)
  {
    assert (s + [x])[..|s|] == s;
  }

  lemma PlaceFound(s: seq<Item>, p: int, i: nat)
    requires i < |s| && s[i].Page? && s[i].p == p
    ensures PlaceOf(s, p, 0) <= i
  {
  }

  lemma CutSorted(s: seq<Item>, pgCnt: nat, i: nat)
    requires Sorted(s, pgCnt) && i < |s|
    ensures Sorted(Cut(s, i), pgCnt)
  {
    CutPlaces(s, i);
  }

  /** A page still listed is found again after another entry is cut out. */
  lemma PlaceAfterCut(s: seq<Item>, i: nat, x: int)
    requires i < |s| && PlaceOf(s, x, 0) < |s| && PlaceOf(s, x, 0) != i
    ensures PlaceOf(Cut(s, i), x, 0) < |Cut(s, i)|
  {
    CutPlaces(s, i);
    var j := PlaceOf(s, x, 0);
    PlaceFound(Cut(s, i), x, if j < i then j else j - 1);
  }

  lemma CutLists(s: seq<Item>, pages: map<int, PageRec>, i: nat, q: Queue)
    requires Lists(s, pages) && i < |s| && s[i].Page? && q != Inactive
    ensures s[i].p in pages
    ensures Lists(Cut(s, i), pages[s[i].p := pages[s[i].p].(queue := q)])
  {
    hide PlaceOf, Cut;
    CutPlaces(s, i);
    var p := s[i].p;
    var after := pages[p := pages[p].(queue := q)];
    forall x | x in after && after[x].queue == Inactive ensures PlaceOf(Cut(s, i), x, 0) < |Cut(s, i)| {
      PlaceAfterCut(s, i, x);
    }
  }

  lemma AddLists(s: seq<Item>, pages: map<int, PageRec>, p: int, id: nat, t: PageRec)
    requires Lists(s, pages) && (p in pages ==> pages[p].queue != Inactive) && t.queue == Inactive
    ensures Lists(s + [Page(p, id)], pages[p := t])
  {
    var after, list := pages[p := t], s + [Page(p, id)];
    forall x | x in after && after[x].queue == Inactive ensures PlaceOf(list, x, 0) < |list| {
      PlaceFound(list, x, if x == p then |s| else PlaceOf(s, x, 0));
    }
  }

  /** A page that is not inactive before or after says nothing of the inactive queue. */
  lemma ListsSame(s: seq<Item>, pages: map<int, PageRec>, p: int, t: PageRec)
    requires Lists(s, pages)
    requires if p in pages then (pages[p].queue == Inactive <==> t.queue == Inactive) else t.queue != Inactive
    ensures Lists(s, pages[p := t])
  {
  }

  lemma LaundryCut(s: seq<int>, pages: map<int, PageRec>, i: nat, q: Queue)
    requires ListsLaundry(s, pages) && i < |s| && q != Laundry
    ensures s[i] in pages
    ensures ListsLaundry(Cut(s, i), pages[s[i] := pages[s[i]].(queue := q)])
  {
    hide IndexOf, Cut;
    CutPlaces(s, i);
    var p := s[i];
    var after := pages[p := pages[p].(queue := q)];
    forall x | x in after && after[x].queue == Laundry ensures IndexOf(Cut(s, i), x, 0) < |Cut(s, i)| {
      IndexAfterCut(s, i, x);
    }
  }

  lemma LaundryAdd(s: seq<int>, pages: map<int, PageRec>, p: int, t: PageRec)
    requires ListsLaundry(s, pages) && (p in pages ==> pages[p].queue != Laundry) && t.queue == Laundry
    ensures ListsLaundry(s + [p], pages[p := t])
  {
    var after, list := pages[p := t], s + [p];
    forall x | x in after && after[x].queue == Laundry ensures IndexOf(list, x, 0) < |list| {
      IndexFound(list, x, if x == p then |s| else IndexOf(s, x, 0));
    }
  }

  lemma LaundrySame(s: seq<int>, pages: map<int, PageRec>, p: int, t: PageRec)
    requires ListsLaundry(s, pages)
    requires if p in pages then (pages[p].queue == Laundry <==> t.queue == Laundry) else t.queue != Laundry
    ensures ListsLaundry(s, pages[p := t])
  {
  }

  lemma DequeueKeeps(v: Vm, p: int)
    requires Inv(v) && p in v.pages && v.pages[p].queue != NoQueue
    ensures Inv(Dequeue(v, p)) && Dequeue(v, p).pages == v.pages[p := v.pages[p].(queue := NoQueue)]
  {
    hide Sorted, Lists, ListsLaundry, PageCount;
    var t := v.pages[p].(queue := NoQueue);
    if v.pages[p].queue == Inactive {
      OnInactive(v, p);
      var i := PlaceOf(v.inactive, p, 0);
      CutSorted(v.inactive, v.pgCnt, i);
      CutLists(v.inactive, v.pages, i, NoQueue);
      CountCut(v.inactive, i);
      LaundrySame(v.laundry, v.pages, p, t);
    } else {
      OnLaundry(v, p);
      LaundryCut(v.laundry, v.pages, IndexOf(v.laundry, p, 0), NoQueue);
      ListsSame(v.inactive, v.pages, p, t);
    }
  }

  lemma OnInactive(v: Vm, p: int)
    requires Inv(v) && p in v.pages && v.pages[p].queue == Inactive
    ensures PlaceOf(v.inactive, p, 0) < |v.inactive|
  {
  }

  lemma OnLaundry(v: Vm, p: int)
    requires Inv(v) && p in v.pages && v.pages[p].queue == Laundry
    ensures IndexOf(v.laundry, p, 0) < |v.laundry|
  {
  }

  lemma EnqueueKeeps(v: Vm, q: Queue, p: int)
    requires Inv(v) && p in v.pages && v.pages[p].queue == NoQueue && q != NoQueue && Pageable(v, p)
    ensures Inv(Enqueue(v, q, p))
  {
    hide Lists, ListsLaundry, PageCount;
    if q == Laundry {
      LaundryAdd(v.laundry, v.pages, p, v.pages[p].(queue := Laundry));
      ListsSame(v.inactive, v.pages, p, v.pages[p].(queue := Laundry));
    } else {
      AddLists(v.inactive, v.pages, p, v.pgCnt, v.pages[p].(queue := Inactive));
      LaundrySame(v.laundry, v.pages, p, v.pages[p].(queue := Inactive));
      CountAdd(v.inactive, Page(p, v.pgCnt));
    }
  }

  /** A change of a page's record that leaves its queue alone. */
  lemma RecKeeps(v: Vm, p: int, t: PageRec)
    requires Inv(v) && p in v.pages && t.queue == v.pages[p].queue
    requires t.queue != NoQueue ==> t.wire == 0 && !t.unmanaged
    ensures Inv(v.(pages := v.pages[p := t]))
  {
    hide Sorted, Lists, ListsLaundry, PageCount;
    ListsSame(v.inactive, v.pages, p, t);
    LaundrySame(v.laundry, v.pages, p, t);
  }

  lemma DequeuedKeeps(v: Vm, p: int)
    requires Inv(v) && p in v.pages
    ensures Inv(Dequeued(v, p)) && Dequeued(v, p).pages == v.pages[p := v.pages[p].(queue := NoQueue)]
  {
    hide Inv, Dequeue;
    if v.pages[p].queue != NoQueue {
      DequeueKeeps(v, p);
    } else {
      assert v.pages[p] == v.pages[p].(queue := NoQueue);
    }
  }

  /** Off whatever queue it is on and to the tail of another: the shape of activate, deactivate and launder. */
  lemma MoveKeeps(v: Vm, q: Queue, p: int)
    requires Inv(v) && p in v.pages && Pageable(v, p) && q != NoQueue
    ensures Inv(Enqueue(Dequeued(v, p), q, p))
  {
    hide Inv, Dequeued, Enqueue;
    DequeuedKeeps(v, p);
    EnqueueKeeps(Dequeued(v, p), q, p);
  }

  /** The assertions of activate and launder: a page that may not be queued is on no queue. */
  lemma WiredIsUnqueued(v: Vm, p: int)
    requires Inv(v) && p in v.pages && !Pageable(v, p)
    ensures v.pages[p].queue == NoQueue
  {
    hide Sorted, Lists, ListsLaundry, Counted;
  }

  /**
   What `noreuse` does, whatever the comment beside it says: the page goes behind every other
   inactive page, with an id above all of theirs.
   */
  lemma NoreuseGoesLast(v: Vm, p: int)
    requires Inv(v) && p in v.pages && Pageable(v, p)
    ensures var w := Deactivate(v, p, true);
            && |w.inactive| > 0 && w.inactive[|w.inactive| - 1] == Page(p, v.pgCnt)
            && PlaceOf(w.inactive, p, 0) == |w.inactive| - 1
            && (forall i :: 0 <= i < |w.inactive| - 1 && w.inactive[i].Page? ==> w.inactive[i].id < v.pgCnt)
            && (forall x :: x in w.pages && w.pages[x].queue == Inactive && x != p
                  ==> PlaceOf(w.inactive, x, 0) < PlaceOf(w.inactive, p, 0))
  {
    hide Dequeued, PlaceOf, ListsLaundry, Counted, PagesOk;
    var d := Dequeued(v, p);
    MoveKeeps(v, Inactive, p);
    DequeuedCounts(v, p);
    var w := Enqueue(d, Inactive, p);
    var n := |w.inactive| - 1;
    assert w.inactive[n] == Page(p, v.pgCnt);
    PlaceFound(w.inactive, p, n);
    forall x | x in w.pages && w.pages[x].queue == Inactive && x != p
      ensures PlaceOf(w.inactive, x, 0) < n
    {
      assert PlaceOf(w.inactive, x, 0) < |w.inactive|;
    }
  }

  lemma DequeuedCounts(v: Vm, p: int)
    requires p in v.pages
    ensures Dequeued(v, p).pgCnt == v.pgCnt
  {
  }

  lemma WireKeeps(v: Vm, p: int)
    requires Inv(v) && p in v.pages
    ensures Inv(Wire(v, p))
  {
    hide Inv, Dequeued;
    if v.pages[p].wire == 0 {
      DequeuedKeeps(v, p);
    } else {
      WiredIsUnqueued(v, p);
    }
    var w := if v.pages[p].wire == 0 then Dequeued(v, p) else v;
    RecKeeps(w, p, w.pages[p].(wire := w.pages[p].wire + 1));
  }

  lemma UnwireKeeps(v: Vm, p: int, q: Queue)
    requires Inv(v) && p in v.pages && v.pages[p].wire > 0
    ensures Inv(Unwire(v, p, q))
  {
    hide Inv, Enqueue;
    WiredIsUnqueued(v, p);
    var t := v.pages[p].(wire := v.pages[p].wire - 1);
    RecKeeps(v, p, t);
    var w := v.(pages := v.pages[p := t]);
    if t.wire == 0 && !t.unmanaged && q != NoQueue {
      EnqueueKeeps(w, q, p);
    }
  }

  lemma FreeKeeps(v: Vm, p: int)
    requires Inv(v) && p in v.pages
    ensures Inv(Free(v, p))
  {
    hide Inv, Dequeued;
    DequeuedKeeps(v, p);
    var w := Dequeued(v, p);
    RecKeeps(w, p, w.pages[p].(attr := w.pages[p].attr.(owner := 0, valid := false, dirty := false)));
  }

  lemma RequeueKeeps(v: Vm, p: int)
    requires Inv(v) && p in v.pages && v.pages[p].queue == Laundry
    ensures Inv(RequeueLaundry(v, p))
  {
    hide Sorted, Lists, ListsLaundry, PageCount;
    OnLaundry(v, p);
    LaundryCut(v.laundry, v.pages, IndexOf(v.laundry, p, 0), NoQueue);
    var off := v.pages[p := v.pages[p].(queue := NoQueue)];
    LaundryAdd(Remove(v.laundry, p), off, p, v.pages[p]);
    assert off[p := v.pages[p]] == v.pages;
  }

  /** Every operation keeps the active queue empty, the counts exact and the inactive queue sorted by id. */
  lemma ApplyKeeps(v: Vm, op: Op)
    requires Inv(v)
    ensures Inv(Apply(v, op))
  {
    hide Inv, Enqueue, Dequeued, Wire, Unwire, Free, RequeueLaundry;
    if op.p in v.pages {
      match op
      case DoActivate(p) => if Pageable(v, p) { MoveKeeps(v, Inactive, p); }
      case DoDeactivate(p, noreuse) => if Pageable(v, p) { MoveKeeps(v, Inactive, p); }
      case DoLaunder(p) => if Pageable(v, p) { MoveKeeps(v, Laundry, p); }
      case DoWire(p) => WireKeeps(v, p);
      case DoUnwire(p, q) => if v.pages[p].wire > 0 { UnwireKeeps(v, p, q); }
      case DoFree(p) => FreeKeeps(v, p);
      case DoRequeue(p) => if v.pages[p].queue == Laundry { RequeueKeeps(v, p); }
      case DoAttr(p, attr) => AttrKeeps(v, p, attr);
    }
  }

  lemma AttrKeeps(v: Vm, p: int, attr: Attr)
    requires Inv(v) && p in v.pages
    ensures Inv(SetAttr(v, p, attr))
  {
    hide Sorted, Lists, ListsLaundry, Counted;
    RecKeeps(v, p, v.pages[p].(attr := attr));
  }

  /**
   In every reachable state the active queue is empty, the inactive queue is sorted by birthday,
   and the counts are exact.
   */
  lemma {:induction false} RunKeeps(v: Vm, ops: seq<Op>)
    requires Inv(v)
    ensures Inv(ApplyAll(v, ops))
    decreases |ops|
  {
    hide Inv, Apply;
    if ops != [] {
      ApplyKeeps(v, ops[0]);
      RunKeeps(Apply(v, ops[0]), ops[1..]);
    }
  }

  /** Pages on no queue, the marker of vm_pageout_worker at the head: where every run starts. */
  lemma StartIsSound(v: Vm, head: int)
    requires v.inactive == [Marker(head)] && v.active == [] && v.laundry == []
    requires v.inactiveCnt == 0 && v.activeCnt == 0 && v.laundryCnt == 0
    requires forall p :: p in v.pages ==> v.pages[p].queue == NoQueue
    ensures Inv(v)
  {
    assert v.inactive[..0] == [];
  }

  // ----- what others may do around a marker -----

  /** Place `i` splits the queue: pages before it were passed over, pages from it on are younger than `bound`. */
  ghost predicate Split(s: seq<Item>, i: nat, passed: set<Item>, bound: int) {
    && (forall j :: 0 <= j < |s| && j < i && s[j].Page? ==> s[j] in passed)
    && (forall j :: i <= j < |s| && s[j].Page? ==> s[j].id > bound)
  }

  ghost predicate NoneAfter(s: seq<Item>, i: nat, k: int) {
    forall j :: i < j < |s| ==> s[j] != Marker(k)
  }

  /** Marker `k` is in the queue, once, and splits it. */
  ghost predicate Marked(v: Vm, k: int, passed: set<Item>, bound: int) {
    var i := IndexOf(v.inactive, Marker(k), 0);
    && i < |v.inactive| && bound < v.pgCnt
    && NoneAfter(v.inactive, i, k)
    && Split(v.inactive, i, passed, bound)
  }

  lemma MarkerAfterCut(s: seq<Item>, c: nat, k: int)
    requires c < |s| && s[c].Page? && IndexOf(s, Marker(k), 0) < |s|
    ensures var i := IndexOf(s, Marker(k), 0);
            IndexOf(Cut(s, c), Marker(k), 0) == if c < i then i - 1 else i
  {
    hide Cut, IndexOf;
    CutPlaces(s, c);
    var i := IndexOf(s, Marker(k), 0);
    CutKeeps(s, c, i);
    IndexIs(Cut(s, c), Marker(k), if c < i then i - 1 else i);
  }

  lemma CutSplit(s: seq<Item>, c: nat, i: nat, passed: set<Item>, bound: int)
    requires c < |s| && i <= |s| && Split(s, i, passed, bound)
    ensures Split(Cut(s, c), if c < i then i - 1 else i, passed, bound)
  {
    hide Cut;
    CutPlaces(s, c);
  }

  lemma CutNoneAfter(s: seq<Item>, c: nat, i: nat, k: int)
    requires c < |s| && c != i && NoneAfter(s, i, k)
    ensures NoneAfter(Cut(s, c), if c < i then i - 1 else i, k)
  {
    hide Cut;
    CutPlaces(s, c);
  }

  lemma CutMarked(v: Vm, c: nat, k: int, passed: set<Item>, bound: int, w: Vm)
    requires Marked(v, k, passed, bound) && c < |v.inactive| && v.inactive[c].Page?
    requires w.inactive == Cut(v.inactive, c) && w.pgCnt == v.pgCnt
    ensures Marked(w, k, passed, bound)
  {
    hide IndexOf, Cut, Split, NoneAfter;
    var i := IndexOf(v.inactive, Marker(k), 0);
    MarkerAfterCut(v.inactive, c, k);
    CutSplit(v.inactive, c, i, passed, bound);
    CutNoneAfter(v.inactive, c, i, k);
    CutKeeps(v.inactive, c, i);
  }

  lemma AddMarked(v: Vm, p: int, k: int, passed: set<Item>, bound: int, w: Vm)
    requires Marked(v, k, passed, bound)
    requires w.inactive == v.inactive + [Page(p, v.pgCnt)] && w.pgCnt == v.pgCnt + 1
    ensures Marked(w, k, passed, bound)
  {
    var i := IndexOf(v.inactive, Marker(k), 0);
    IndexFound(w.inactive, Marker(k), i);
  }

  lemma DequeuedMarked(v: Vm, p: int, k: int, passed: set<Item>, bound: int)
    requires p in v.pages && Marked(v, k, passed, bound)
    ensures Marked(Dequeued(v, p), k, passed, bound)
  {
    hide IndexOf, Cut, PlaceOf, Split;
    if v.pages[p].queue == Inactive && PlaceOf(v.inactive, p, 0) < |v.inactive| {
      CutMarked(v, PlaceOf(v.inactive, p, 0), k, passed, bound, Dequeued(v, p));
    }
  }

  lemma EnqueueMarked(v: Vm, q: Queue, p: int, k: int, passed: set<Item>, bound: int)
    requires p in v.pages && q != NoQueue && Marked(v, k, passed, bound)
    ensures Marked(Enqueue(v, q, p), k, passed, bound)
  {
    hide IndexOf, Split;
    if q != Laundry {
      AddMarked(v, p, k, passed, bound, Enqueue(v, q, p));
    }
  }

  /** Operations that move a page move it off the queue or past the marker, to the tail. */
  lemma MoveMarked(v: Vm, q: Queue, p: int, k: int, passed: set<Item>, bound: int)
    requires p in v.pages && q != NoQueue && Marked(v, k, passed, bound)
    ensures Marked(Enqueue(Dequeued(v, p), q, p), k, passed, bound)
  {
    hide Marked, Enqueue;
    DequeuedMarked(v, p, k, passed, bound);
    EnqueueMarked(Dequeued(v, p), q, p, k, passed, bound);
  }

  lemma ApplyMarked(v: Vm, op: Op, k: int, passed: set<Item>, bound: int)
    requires Marked(v, k, passed, bound)
    ensures Marked(Apply(v, op), k, passed, bound)
  {
    hide Enqueue, Dequeued, IndexOf, Split;
    if op.p in v.pages {
      var p := op.p;
      DequeuedMarked(v, p, k, passed, bound);
      if !op.DoUnwire? {
        MoveMarked(v, Inactive, p, k, passed, bound);
        MoveMarked(v, Laundry, p, k, passed, bound);
      } else if v.pages[p].wire > 0 && op.q != NoQueue {
        EnqueueMarked(v.(pages := v.pages[p := v.pages[p].(wire := v.pages[p].wire - 1)]), op.q, p, k, passed, bound);
      }
    }
  }

  /**
   Whatever others do while the queue is unlocked, a marker keeps a scan's place: before it
   stay only pages the scan has passed, after it only pages younger than those it took.
   */
  lemma {:induction false} MarkerHolds(v: Vm, ops: seq<Op>, k: int, passed: set<Item>, bound: int)
    requires Marked(v, k, passed, bound)
    ensures Marked(ApplyAll(v, ops), k, passed, bound)
    decreases |ops|
  {
    hide Marked, Apply;
    if ops != [] {
      ApplyMarked(v, ops[0], k, passed, bound);
      MarkerHolds(Apply(v, ops[0]), ops[1..], k, passed, bound);
    }
  }

  /** Operations on other pages leave a page's record alone. */
  lemma {:induction false} OthersOnly(v: Vm, ops: seq<Op>, p: int)
    requires p in v.pages && forall i :: 0 <= i < |ops| ==> ops[i].p != p
    ensures ApplyAll(v, ops).pages.Keys == v.pages.Keys && ApplyAll(v, ops).pages[p] == v.pages[p]
    decreases |ops|
  {
    hide Apply;
    if ops != [] {
      ApplyOther(v, ops[0], p);
      OthersOnly(Apply(v, ops[0]), ops[1..], p);
    }
  }

  lemma ApplyOther(v: Vm, op: Op, p: int)
    requires p in v.pages && op.p != p
    ensures Apply(v, op).pages.Keys == v.pages.Keys && Apply(v, op).pages[p] == v.pages[p]
  {
    hide PlaceOf, IndexOf, Cut;
  }

  /** Birthdays are never given back. */
  lemma {:induction false} CounterGrows(v: Vm, ops: seq<Op>)
    ensures v.pgCnt <= ApplyAll(v, ops).pgCnt && ApplyAll(v, ops).pages.Keys == v.pages.Keys
    decreases |ops|
  {
    hide Apply;
    if ops != [] {
      ApplyGrows(v, ops[0]);
      CounterGrows(Apply(v, ops[0]), ops[1..]);
    }
  }

  lemma ApplyGrows(v: Vm, op: Op)
    ensures v.pgCnt <= Apply(v, op).pgCnt && Apply(v, op).pages.Keys == v.pages.Keys
  {
    hide PlaceOf, IndexOf, Cut;
  }

  // ----- markers -----

  function InsertMarker(v: Vm, i: nat, k: int): Vm
    requires i < |v.inactive|
  {
    v.(inactive := v.inactive[..i + 1] + [Marker(k)] + v.inactive[i + 1..])
  }

  ghost predicate NoMarker(s: seq<Item>, k: int) {
    forall j :: 0 <= j < |s| ==> s[j] != Marker(k)
  }

  lemma {:induction false} CountJoin(s: seq<Item>, t: seq<Item>)
    ensures PageCount(s + t) == PageCount(s) + PageCount(t)
    decreases |t|
  {
    if t == [] {
      assert s + t == s;
    } else {
      CountJoin(s, t[..|t| - 1]);
      assert (s + t)[..|s + t| - 1] == s + t[..|t| - 1];
    }
  }

  /** Entries keep what their place says when a marker goes in before them. */
  lemma InsertPlaces(s: seq<Item>, i: nat, k: int, t: seq<Item>)
    requires i < |s| && t == s[..i + 1] + [Marker(k)] + s[i + 1..]
    ensures |t| == |s| + 1 && t[i + 1] == Marker(k) && Cut(t, i + 1) == s
    ensures forall j :: 0 <= j < |t| && j != i + 1 ==> t[j] == s[if j <= i then j else j - 1]
  {
  }

  lemma PlaceAfterInsert(s: seq<Item>, i: nat, k: int, t: seq<Item>, x: int)
    requires i < |s| && t == s[..i + 1] + [Marker(k)] + s[i + 1..] && PlaceOf(s, x, 0) < |s|
    ensures PlaceOf(t, x, 0) < |t|
  {
    var j := PlaceOf(s, x, 0);
    PlaceFound(t, x, if j <= i then j else j + 1);
  }

  lemma InsertLists(s: seq<Item>, i: nat, k: int, t: seq<Item>, pages: map<int, PageRec>)
    requires Lists(s, pages) && i < |s| && t == s[..i + 1] + [Marker(k)] + s[i + 1..]
    ensures Lists(t, pages)
  {
    hide PlaceOf, Cut;
    InsertPlaces(s, i, k, t);
    forall x | x in pages && pages[x].queue == Inactive ensures PlaceOf(t, x, 0) < |t| {
      PlaceAfterInsert(s, i, k, t, x);
    }
  }

  lemma InsertSorted(s: seq<Item>, i: nat, k: int, t: seq<Item>, pgCnt: nat)
    requires Sorted(s, pgCnt) && i < |s| && t == s[..i + 1] + [Marker(k)] + s[i + 1..]
    ensures Sorted(t, pgCnt)
  {
    hide Cut;
    InsertPlaces(s, i, k, t);
  }

  lemma InsertKeeps(v: Vm, i: nat, k: int)
    requires Inv(v) && i < |v.inactive|
    ensures Inv(InsertMarker(v, i, k))
  {
    hide Lists, ListsLaundry, PageCount, PagesOk, Sorted, Cut;
    var t := InsertMarker(v, i, k).inactive;
    InsertPlaces(v.inactive, i, k, t);
    InsertSorted(v.inactive, i, k, t, v.pgCnt);
    InsertLists(v.inactive, i, k, t, v.pages);
    CountCut(t, i + 1);
  }

  lemma RemoveLists(s: seq<Item>, i: nat, pages: map<int, PageRec>)
    requires Lists(s, pages) && i < |s| && s[i].Marker?
    ensures Lists(Cut(s, i), pages)
  {
    hide PlaceOf, Cut;
    CutPlaces(s, i);
    forall x | x in pages && pages[x].queue == Inactive ensures PlaceOf(Cut(s, i), x, 0) < |Cut(s, i)| {
      PlaceAfterCut(s, i, x);
    }
  }

  lemma RemoveKeeps(v: Vm, i: nat)
    requires Inv(v) && i < |v.inactive| && v.inactive[i].Marker?
    ensures Inv(v.(inactive := Cut(v.inactive, i)))
  {
    hide Lists, ListsLaundry, PageCount, PagesOk, Sorted, Cut;
    CutSorted(v.inactive, v.pgCnt, i);
    RemoveLists(v.inactive, i, v.pages);
    CountCut(v.inactive, i);
  }

  /** A marker put after place `i` of a queue split there holds that place. */
  lemma InsertMarked(v: Vm, i: nat, k: int, passed: set<Item>, bound: int)
    requires i < |v.inactive| && NoMarker(v.inactive, k) && bound < v.pgCnt && Split(v.inactive, i + 1, passed, bound)
    ensures Marked(InsertMarker(v, i, k), k, passed, bound)
            && IndexOf(InsertMarker(v, i, k).inactive, Marker(k), 0) == i + 1
  {
    hide IndexOf, Cut;
    var t := InsertMarker(v, i, k).inactive;
    InsertPlaces(v.inactive, i, k, t);
    IndexIs(t, Marker(k), i + 1);
  }

  /** Taking the marker out leaves the split where it was. */
  lemma RemoveMarked(v: Vm, k: int, passed: set<Item>, bound: int)
    requires Marked(v, k, passed, bound)
    ensures var i := IndexOf(v.inactive, Marker(k), 0);
            var s := Cut(v.inactive, i);
            i <= |s| && NoMarker(s, k) && Split(s, i, passed, bound) && (i > 0 ==> s[i - 1] == v.inactive[i - 1])
  {
    hide IndexOf, Cut;
    var i := IndexOf(v.inactive, Marker(k), 0);
    CutPlaces(v.inactive, i);
  }

  /** Only the scan puts markers in, so one it has not put in stays away. */
  lemma ApplyNoMarker(v: Vm, op: Op, k: int)
    requires NoMarker(v.inactive, k)
    ensures NoMarker(Apply(v, op).inactive, k)
  {
    hide PlaceOf, IndexOf;
  }

  lemma {:induction false} NoMarkerHolds(v: Vm, ops: seq<Op>, k: int)
    requires NoMarker(v.inactive, k)
    ensures NoMarker(ApplyAll(v, ops).inactive, k)
    decreases |ops|
  {
    hide Apply, NoMarker;
    if ops != [] {
      ApplyNoMarker(v, ops[0], k);
      NoMarkerHolds(Apply(v, ops[0]), ops[1..], k);
    }
  }

  lemma {:induction false} ApplyJoin(v: Vm, a: seq<Op>, b: seq<Op>)
    ensures ApplyAll(ApplyAll(v, a), b) == ApplyAll(v, a + b)
    decreases |a|
  {
    hide Apply;
    if a == [] {
      assert a + b == b;
    } else {
      ApplyJoin(Apply(v, a[0]), a[1..], b);
      assert (a + b)[1..] == a[1..] + b;
    }
  }

  lemma ApplyOne(v: Vm, op: Op)
    ensures ApplyAll(v, [op]) == Apply(v, op)
  {
    hide Apply;
    assert ApplyAll(Apply(v, op), []) == Apply(v, op);
  }
}
