/**
 The inactive scan of the page daemon: it walks the inactive queue behind markers, drops the
 queue lock on the way, and takes pages off oldest first.
 */
module Pageout {
  import opened Seqs
  import opened PageQueues

  const STACK_MARKER := 0
  const VMD_MARKER := 1

  /** What becomes of a page the scan takes off the queue. */
  datatype Fate = Freed | Laundered | LeftOff

  datatype Turn = Passed | Took(fate: Fate)

  /** The birthday of the last page taken. */
  ghost function Bound(taken: seq<Item>): int {
    if taken == [] || !taken[|taken| - 1].Page? then -1 else taken[|taken| - 1].id
  }

  /** Pages, each younger than the one before. */
  ghost predicate Ascending(taken: seq<Item>) {
    && (forall i :: 0 <= i < |taken| ==> taken[i].Page?)
    && (forall i, j :: 0 <= i < j < |taken| ==> taken[i].id < taken[j].id)
  }

  // ----- where a scan stands -----

  /** The scan stands at place `i`, having passed `skipped` and taken pages up to birthday `bound`. */
  ghost predicate At(v: Vm, i: nat, skipped: set<Item>, bound: int) {
    && Inv(v) && NoMarker(v.inactive, STACK_MARKER) && NoMarker(v.inactive, VMD_MARKER)
    && i <= |v.inactive| && bound < v.pgCnt && Split(v.inactive, i, skipped, bound)
  }

  lemma SkipAt(v: Vm, i: nat, skipped: set<Item>, bound: int)
    requires At(v, i, skipped, bound) && i < |v.inactive|
    ensures At(v, i + 1, skipped + {v.inactive[i]}, bound)
  {
    hide Inv, NoMarker;
  }

  function RemoveMarker(v: Vm, k: int): Vm {
    v.(inactive := Remove(v.inactive, Marker(k)))
  }

  // ----- a lock drop behind a marker -----

  /** Others ran behind a marker put in after place `m`. */
  function Unlocked(v: Vm, m: nat, ops: seq<Op>): Vm
    requires m < |v.inactive|
  {
    ApplyAll(InsertMarker(v, m, STACK_MARKER), ops)
  }

  function NextPlace(v: Vm, m: nat, ops: seq<Op>): nat
    requires m < |v.inactive|
  {
    IndexOf(Unlocked(v, m, ops).inactive, Marker(STACK_MARKER), 0)
  }

  /** Whether the entry before the marker is still page `p`. */
  predicate Precedes(s: seq<Item>, n: nat, p: int) {
    0 < n <= |s| && s[n - 1].Page? && s[n - 1].p == p
  }

  lemma UnlockedMarked(v: Vm, m: nat, ops: seq<Op>, passed: set<Item>, bound: int)
    requires Inv(v) && m < |v.inactive| && NoMarker(v.inactive, STACK_MARKER) && bound < v.pgCnt
    requires Split(v.inactive, m + 1, passed, bound)
    ensures Inv(Unlocked(v, m, ops)) && Marked(Unlocked(v, m, ops), STACK_MARKER, passed, bound)
    ensures bound < Unlocked(v, m, ops).pgCnt
  {
    hide Inv, Marked, ApplyAll, InsertMarker, Split, NoMarker;
    var w := InsertMarker(v, m, STACK_MARKER);
    InsertKeeps(v, m, STACK_MARKER);
    InsertMarked(v, m, STACK_MARKER, passed, bound);
    RunKeeps(w, ops);
    MarkerHolds(w, ops, STACK_MARKER, passed, bound);
    CounterGrows(w, ops);
    InsertCounter(v, m);
  }

  lemma InsertCounter(v: Vm, m: nat)
    requires m < |v.inactive|
    ensures InsertMarker(v, m, STACK_MARKER).pgCnt == v.pgCnt
    ensures NoMarker(v.inactive, VMD_MARKER) ==> NoMarker(InsertMarker(v, m, STACK_MARKER).inactive, VMD_MARKER)
  {
  }

  lemma UnlockedNoMarker(v: Vm, m: nat, ops: seq<Op>)
    requires m < |v.inactive| && NoMarker(v.inactive, VMD_MARKER)
    ensures NoMarker(Unlocked(v, m, ops).inactive, VMD_MARKER)
  {
    hide NoMarker, ApplyAll, InsertMarker;
    InsertCounter(v, m);
    NoMarkerHolds(InsertMarker(v, m, STACK_MARKER), ops, VMD_MARKER);
  }

  lemma CutNoMarker(s: seq<Item>, i: nat, k: int)
    requires NoMarker(s, k) && i < |s|
    ensures NoMarker(Cut(s, i), k)
  {
    CutPlaces(s, i);
  }

  lemma RemoveMarkerAt(v: Vm, k: int, other: int, passed: set<Item>, bound: int)
    requires Inv(v) && Marked(v, k, passed, bound) && NoMarker(v.inactive, other) && k != other
             && {k, other} == {STACK_MARKER, VMD_MARKER}
    ensures At(RemoveMarker(v, k), IndexOf(v.inactive, Marker(k), 0), passed, bound)
  {
    hide Inv, IndexOf, Cut, Split, NoMarker;
    var i := IndexOf(v.inactive, Marker(k), 0);
    RemoveMarked(v, k, passed, bound);
    RemoveKeeps(v, i);
    CutNoMarker(v.inactive, i, other);
  }

  /** The marker holds the scan's place whatever others did: it goes on from the entry after it. */
  lemma DropAt(v: Vm, m: nat, ops: seq<Op>, skipped: set<Item>, bound: int)
    requires At(v, m, skipped, bound) && m < |v.inactive|
    ensures At(RemoveMarker(Unlocked(v, m, ops), STACK_MARKER), NextPlace(v, m, ops), skipped + {v.inactive[m]}, bound)
  {
    hide Inv, Marked, NoMarker, Split, RemoveMarker, Unlocked;
    SkipAt(v, m, skipped, bound);
    UnlockedMarked(v, m, ops, skipped + {v.inactive[m]}, bound);
    UnlockedNoMarker(v, m, ops);
    RemoveMarkerAt(Unlocked(v, m, ops), STACK_MARKER, VMD_MARKER, skipped + {v.inactive[m]}, bound);
  }

  /** A page found before the marker is the very entry the marker was put after. */
  lemma SameEntry(v: Vm, m: nat, ops: seq<Op>)
    requires Inv(v) && NoMarker(v.inactive, STACK_MARKER) && m < |v.inactive| && v.inactive[m].Page?
    requires Precedes(Unlocked(v, m, ops).inactive, NextPlace(v, m, ops), v.inactive[m].p)
    ensures Unlocked(v, m, ops).inactive[NextPlace(v, m, ops) - 1] == v.inactive[m]
  {
    hide Unlocked, Sorted, ListsLaundry, Counted, PagesOk, NoMarker;
    var passed := set i | 0 <= i <= m :: v.inactive[i];
    UnlockedMarked(v, m, ops, passed, -1);
    var x := Unlocked(v, m, ops).inactive[NextPlace(v, m, ops) - 1];
    assert x in passed;
    var j :| 0 <= j <= m && v.inactive[j] == x;
  }

  lemma StepBack(v: Vm, n: nat, x: Item, skipped: set<Item>, bound: int)
    requires At(v, n, skipped + {x}, bound) && 0 < n && v.inactive[n - 1] == x && x.Page? && x.id > bound
    ensures At(v, n - 1, skipped, bound)
  {
    hide Lists, ListsLaundry, Counted, PagesOk, NoMarker;
  }

  /** If the page is still before the marker, the scan stands at it again. */
  lemma UnchangedAt(v: Vm, m: nat, ops: seq<Op>, skipped: set<Item>, bound: int)
    requires At(v, m, skipped, bound) && m < |v.inactive| && v.inactive[m].Page?
    requires Precedes(Unlocked(v, m, ops).inactive, NextPlace(v, m, ops), v.inactive[m].p)
    ensures var z, n := RemoveMarker(Unlocked(v, m, ops), STACK_MARKER), NextPlace(v, m, ops);
            n - 1 < |z.inactive| && z.inactive[n - 1] == v.inactive[m] && At(z, n - 1, skipped, bound)
  {
    hide Inv, NoMarker, Unlocked;
    var x, w, n := v.inactive[m], Unlocked(v, m, ops), NextPlace(v, m, ops);
    SameEntry(v, m, ops);
    DropAt(v, m, ops, skipped, bound);
    SkipAt(v, m, skipped, bound);
    UnlockedMarked(v, m, ops, skipped + {x}, bound);
    RemoveMarked(w, STACK_MARKER, skipped + {x}, bound);
    StepBack(RemoveMarker(w, STACK_MARKER), n, x, skipped, bound);
  }

  /** With nobody else about, a lock drop changes nothing. */
  lemma QuietDrop(v: Vm, m: nat)
    requires m < |v.inactive| && NoMarker(v.inactive, STACK_MARKER)
    ensures RemoveMarker(Unlocked(v, m, []), STACK_MARKER) == v && NextPlace(v, m, []) == m + 1
  {
    hide IndexOf, Cut, Remove, ApplyAll, NoMarker;
    var w := InsertMarker(v, m, STACK_MARKER);
    NothingApplied(w);
    InsertPlaces(v.inactive, m, STACK_MARKER, w.inactive);
    MarkerIsFirst(v.inactive, m, w.inactive);
    RemoveAt(w.inactive, Marker(STACK_MARKER), m + 1);
  }

  lemma NothingApplied(v: Vm)
    ensures ApplyAll(v, []) == v
  {
  }

  lemma MarkerIsFirst(s: seq<Item>, m: nat, t: seq<Item>)
    requires m < |s| && NoMarker(s, STACK_MARKER) && t == s[..m + 1] + [Marker(STACK_MARKER)] + s[m + 1..]
    ensures IndexOf(t, Marker(STACK_MARKER), 0) == m + 1
  {
    hide IndexOf, Cut;
    InsertPlaces(s, m, STACK_MARKER, t);
    IndexIs(t, Marker(STACK_MARKER), m + 1);
  }

  /** A lock drop behind a marker, all told. */
  lemma DropEnds(v: Vm, m: nat, ops: seq<Op>, skipped: set<Item>, bound: int)
    requires At(v, m, skipped, bound) && m < |v.inactive| && v.inactive[m].Page?
    ensures var w, n, x := Unlocked(v, m, ops), NextPlace(v, m, ops), v.inactive[m];
            var z := RemoveMarker(w, STACK_MARKER);
            && At(z, n, skipped + {x}, bound)
            && (Precedes(w.inactive, n, x.p) ==> 0 < n <= |z.inactive| && z.inactive[n - 1] == x
                                                 && At(z, n - 1, skipped, bound))
            && (ops == [] ==> z == v && n == m + 1 && Precedes(w.inactive, n, x.p))
            && v.pages.Keys == z.pages.Keys
  {
    hide At, Unlocked, RemoveMarker, NextPlace;
    DropAt(v, m, ops, skipped, bound);
    DropKeys(v, m, ops);
    if Precedes(Unlocked(v, m, ops).inactive, NextPlace(v, m, ops), v.inactive[m].p) {
      UnchangedAt(v, m, ops, skipped, bound);
    }
    if ops == [] {
      QuietPrecedes(v, m, skipped, bound);
    }
  }

  lemma DropKeys(v: Vm, m: nat, ops: seq<Op>)
    requires m < |v.inactive|
    ensures RemoveMarker(Unlocked(v, m, ops), STACK_MARKER).pages.Keys == v.pages.Keys
  {
    hide ApplyAll;
    CounterGrows(InsertMarker(v, m, STACK_MARKER), ops);
  }

  lemma QuietPrecedes(v: Vm, m: nat, skipped: set<Item>, bound: int)
    requires At(v, m, skipped, bound) && m < |v.inactive| && v.inactive[m].Page?
    ensures RemoveMarker(Unlocked(v, m, []), STACK_MARKER) == v && NextPlace(v, m, []) == m + 1
    ensures Precedes(Unlocked(v, m, []).inactive, m + 1, v.inactive[m].p)
  {
    hide Inv, Split, IndexOf;
    QuietDrop(v, m);
    InsertPlaces(v.inactive, m, STACK_MARKER, Unlocked(v, m, []).inactive);
  }

  lemma AtPage(v: Vm, m: nat, skipped: set<Item>, bound: int)
    requires At(v, m, skipped, bound) && m < |v.inactive| && v.inactive[m].Page?
    ensures v.inactive[m].p in v.pages && v.pages[v.inactive[m].p].queue == Inactive
  {
    hide Sorted, ListsLaundry, Counted, PagesOk;
  }

  // ----- taking a page -----

  /** The page at place `m` off the queue, the domain's marker in its place. */
  function TakenOut(v: Vm, m: nat): Vm
    requires m < |v.inactive| && v.inactive[m].Page? && v.inactive[m].p in v.pages
             && v.pages[v.inactive[m].p].queue == Inactive
  {
    Dequeue(InsertMarker(v, m, VMD_MARKER), v.inactive[m].p)
  }

  lemma PlaceIs(s: seq<Item>, p: int, i: nat)
    requires i < |s| && s[i].Page? && s[i].p == p && forall j :: 0 <= j < i ==> !(s[j].Page? && s[j].p == p)
    ensures PlaceOf(s, p, 0) == i
  {
  }

  lemma TakenOutList(v: Vm, m: nat)
    requires Inv(v) && m < |v.inactive| && v.inactive[m].Page?
    ensures v.inactive[m].p in v.pages && v.pages[v.inactive[m].p].queue == Inactive
    ensures TakenOut(v, m).inactive == v.inactive[..m] + [Marker(VMD_MARKER)] + v.inactive[m + 1..]
    ensures PlaceOf(v.inactive, v.inactive[m].p, 0) == m
  {
    hide Sorted, ListsLaundry, Counted, PagesOk, PlaceOf;
    var t := InsertMarker(v, m, VMD_MARKER).inactive;
    PlaceIs(t, v.inactive[m].p, m);
    PlaceIs(v.inactive, v.inactive[m].p, m);
  }

  /** Every page behind the one taken is younger than it. */
  lemma TakenOutMarked(v: Vm, m: nat, skipped: set<Item>, bound: int)
    requires At(v, m, skipped, bound) && m < |v.inactive| && v.inactive[m].Page?
    ensures v.inactive[m].p in v.pages && v.pages[v.inactive[m].p].queue == Inactive
    ensures Marked(TakenOut(v, m), VMD_MARKER, skipped, v.inactive[m].id)
            && IndexOf(TakenOut(v, m).inactive, Marker(VMD_MARKER), 0) == m
    ensures NoMarker(TakenOut(v, m).inactive, STACK_MARKER)
  {
    hide Lists, ListsLaundry, Counted, PagesOk, IndexOf;
    TakenOutList(v, m);
    IndexIs(TakenOut(v, m).inactive, Marker(VMD_MARKER), m);
  }

  lemma TakenOutInv(v: Vm, m: nat)
    requires Inv(v) && m < |v.inactive| && v.inactive[m].Page?
    ensures v.inactive[m].p in v.pages && v.pages[v.inactive[m].p].queue == Inactive
    ensures Inv(TakenOut(v, m))
  {
    hide Inv, Dequeue;
    TakenOutList(v, m);
    InsertKeeps(v, m, VMD_MARKER);
    DequeueKeeps(InsertMarker(v, m, VMD_MARKER), v.inactive[m].p);
  }

  /** After the page is dealt with and others have run, the scan goes on behind the domain's marker. */
  lemma TakeAt(v: Vm, m: nat, ops: seq<Op>, skipped: set<Item>, bound: int)
    requires At(v, m, skipped, bound) && m < |v.inactive| && v.inactive[m].Page?
    ensures v.inactive[m].p in v.pages && v.pages[v.inactive[m].p].queue == Inactive
    ensures var w := ApplyAll(TakenOut(v, m), ops);
            At(RemoveMarker(w, VMD_MARKER), IndexOf(w.inactive, Marker(VMD_MARKER), 0), skipped, v.inactive[m].id)
  {
    hide Inv, Marked, NoMarker, TakenOut, ApplyAll, RemoveMarker, Split;
    TakenOutMarked(v, m, skipped, bound);
    TakenOutInv(v, m);
    RunKeeps(TakenOut(v, m), ops);
    MarkerHolds(TakenOut(v, m), ops, VMD_MARKER, skipped, v.inactive[m].id);
    NoMarkerHolds(TakenOut(v, m), ops, STACK_MARKER);
    RemoveMarkerAt(ApplyAll(TakenOut(v, m), ops), VMD_MARKER, STACK_MARKER, skipped, v.inactive[m].id);
  }

  // ----- the scan left to itself -----

  predicate Ready(x: Item, pages: map<int, PageRec>) {
    x.Page? && x.p in pages && pages[x.p].attr.hold == 0 && !pages[x.p].attr.busied
  }

  /** The entries that are neither held nor busy, in order. */
  function Eligible(s: seq<Item>, pages: map<int, PageRec>): seq<Item> {
    if s == [] then [] else
      Eligible(s[..|s| - 1], pages) + (if Ready(s[|s| - 1], pages) then [s[|s| - 1]] else [])
  }

  /** The other entries, in order: held and busy pages, and markers. */
  function Stuck(s: seq<Item>, pages: map<int, PageRec>): seq<Item> {
    if s == [] then [] else
      Stuck(s[..|s| - 1], pages) + (if Ready(s[|s| - 1], pages) then [] else [s[|s| - 1]])
  }

  /** What a scan that nobody disturbed has done after `turns` turns. */
  ghost predicate Quiet(u: Vm, v: Vm, turns: nat, i: nat, taken: seq<Item>, freed: seq<int>, laundered: seq<int>) {
    && turns <= |u.inactive|
    && taken == Eligible(u.inactive[..turns], u.pages)
    && i == |Stuck(u.inactive[..turns], u.pages)|
    && v.inactive == Stuck(u.inactive[..turns], u.pages) + u.inactive[turns..]
    && v.laundry == u.laundry + laundered
    && (forall j :: turns <= j < |u.inactive| && u.inactive[j].Page? && u.inactive[j].p in u.pages ==>
        u.inactive[j].p in v.pages && v.pages[u.inactive[j].p] == u.pages[u.inactive[j].p])
    && (forall j :: 0 <= j < |freed| ==> IsFree(v, freed[j]))
  }

  /** On no queue and in no object. */
  predicate IsFree(v: Vm, p: int) {
    p in v.pages && v.pages[p].queue == NoQueue && v.pages[p].attr.owner == 0 && !v.pages[p].attr.valid
  }

  lemma QuietEntry(u: Vm, v: Vm, turns: nat, i: nat, taken: seq<Item>, freed: seq<int>, laundered: seq<int>)
    requires Quiet(u, v, turns, i, taken, freed, laundered) && i < |v.inactive|
    ensures turns < |u.inactive| && v.inactive[i] == u.inactive[turns]
    ensures u.inactive[..turns + 1][..turns] == u.inactive[..turns]
    ensures Eligible(u.inactive[..turns + 1], u.pages)
            == taken + (if Ready(u.inactive[turns], u.pages) then [u.inactive[turns]] else [])
    ensures Stuck(u.inactive[..turns + 1], u.pages)
         == Stuck(u.inactive[..turns], u.pages)
           + (if Ready(u.inactive[turns], u.pages) then [] else [u.inactive[turns]])
  {
  }

  lemma QuietSkip(u: Vm, v: Vm, turns: nat, i: nat, taken: seq<Item>, freed: seq<int>, laundered: seq<int>)
    requires Quiet(u, v, turns, i, taken, freed, laundered) && i < |v.inactive| && !Ready(v.inactive[i], v.pages)
    requires Inv(u)
    ensures Quiet(u, v, turns + 1, i + 1, taken, freed, laundered)
  {
    hide Eligible, Stuck, Sorted, ListsLaundry, Counted, PagesOk;
    QuietEntry(u, v, turns, i, taken, freed, laundered);
  }

  /** What the scan itself does to the page it took: a look at the dirty bits, then one of three fates. */
  function FateOps(p: int, attr: Attr, fate: Fate): seq<Op> {
    [DoAttr(p, attr)] + match fate
      case Freed => [DoFree(p)]
      case Laundered => [DoLaunder(p)]
      case LeftOff => []
  }

  function Take(v: Vm, m: nat, attr: Attr, fate: Fate): Vm
    requires m < |v.inactive| && v.inactive[m].Page? && v.inactive[m].p in v.pages
             && v.pages[v.inactive[m].p].queue == Inactive
  {
    RemoveMarker(ApplyAll(TakenOut(v, m), FateOps(v.inactive[m].p, attr, fate)), VMD_MARKER)
  }

  lemma TwoOps(v: Vm, a: Op, b: Op)
    ensures ApplyAll(v, [a]) == Apply(v, a) && ApplyAll(v, [a, b]) == Apply(Apply(v, a), b)
  {
    hide Apply;
    assert [a, b][1..] == [b];
    assert ApplyAll(Apply(v, a), [b]) == Apply(Apply(v, a), b);
  }

  /** The page's fate, with nobody else about, concerns that page and the tail of the laundry queue. */
  lemma FateDone(w: Vm, p: int, attr: Attr, fate: Fate)
    requires p in w.pages && w.pages[p].queue == NoQueue && Pageable(w, p)
    ensures var z := ApplyAll(w, FateOps(p, attr, fate));
            && z.inactive == w.inactive && z.laundry == w.laundry + (if fate == Laundered then [p] else [])
            && (forall q :: q in w.pages && q != p ==> q in z.pages && z.pages[q] == w.pages[q])
            && (fate == Freed ==> IsFree(z, p))
  {
    hide ApplyAll;
    match fate
    case Freed =>
      TwoOps(w, DoAttr(p, attr), DoFree(p));
      assert FateOps(p, attr, fate) == [DoAttr(p, attr), DoFree(p)];
    case Laundered =>
      TwoOps(w, DoAttr(p, attr), DoLaunder(p));
      assert FateOps(p, attr, fate) == [DoAttr(p, attr), DoLaunder(p)];
    case LeftOff =>
      TwoOps(w, DoAttr(p, attr), DoAttr(p, attr));
      assert FateOps(p, attr, fate) == [DoAttr(p, attr)];
  }

  lemma TakeDone(v: Vm, m: nat, attr: Attr, fate: Fate)
    requires Inv(v) && NoMarker(v.inactive, VMD_MARKER) && m < |v.inactive| && v.inactive[m].Page?
    ensures v.inactive[m].p in v.pages && v.pages[v.inactive[m].p].queue == Inactive
    ensures var z, p := Take(v, m, attr, fate), v.inactive[m].p;
            && z.inactive == v.inactive[..m] + v.inactive[m + 1..]
            && z.laundry == v.laundry + (if fate == Laundered then [p] else [])
            && (forall q :: q in v.pages && q != p ==> q in z.pages && z.pages[q] == v.pages[q])
            && (fate == Freed ==> IsFree(z, p))
  {
    hide ApplyAll, FateOps, Inv, IndexOf, PlaceOf, TakenOut, Cut, Remove, Pageable, NoMarker;
    TakenOutList(v, m);
    TakenOutRest(v, m);
    var w, p := TakenOut(v, m), v.inactive[m].p;
    FateDone(w, p, attr, fate);
    OwnMarker(v.inactive, m, w.inactive);
    RemoveAt(w.inactive, Marker(VMD_MARKER), m);
  }

  lemma TakenOutRest(v: Vm, m: nat)
    requires Inv(v) && m < |v.inactive| && v.inactive[m].Page?
    ensures v.inactive[m].p in v.pages && v.pages[v.inactive[m].p].queue == Inactive
    ensures var w, p := TakenOut(v, m), v.inactive[m].p;
            && w.laundry == v.laundry && w.pages == v.pages[p := v.pages[p].(queue := NoQueue)] && Pageable(w, p)
  {
    hide Sorted, ListsLaundry, Counted, PlaceOf;
  }

  lemma OwnMarker(s: seq<Item>, m: nat, t: seq<Item>)
    requires m < |s| && NoMarker(s, VMD_MARKER) && t == s[..m] + [Marker(VMD_MARKER)] + s[m + 1..]
    ensures IndexOf(t, Marker(VMD_MARKER), 0) == m && m < |t| && Cut(t, m) == s[..m] + s[m + 1..]
  {
    hide IndexOf;
    IndexIs(t, Marker(VMD_MARKER), m);
  }

  lemma QuietTake(u: Vm, v: Vm, turns: nat, i: nat, taken: seq<Item>, freed: seq<int>, laundered: seq<int>,
                  attr: Attr, fate: Fate)
    requires Inv(v) && NoMarker(v.inactive, VMD_MARKER)
    requires Quiet(u, v, turns, i, taken, freed, laundered) && i < |v.inactive| && Ready(v.inactive[i], v.pages)
    requires Inv(u)
    ensures v.inactive[i].p in v.pages && v.pages[v.inactive[i].p].queue == Inactive
    ensures Quiet(u, Take(v, i, attr, fate), turns + 1, i, taken + [v.inactive[i]],
                  if fate == Freed then freed + [v.inactive[i].p] else freed,
                  if fate == Laundered then laundered + [v.inactive[i].p] else laundered)
  {
    hide Eligible, Stuck, Take, Sorted, ListsLaundry, Counted, PagesOk, NoMarker;
    QuietEntry(u, v, turns, i, taken, freed, laundered);
    TakeDone(v, i, attr, fate);
  }

  lemma FateIs(v: Vm, p: int, attr: Attr, fate: Fate)
    requires p in v.pages
    ensures ApplyAll(v, FateOps(p, attr, fate))
         == match fate
            case Freed => Free(SetAttr(v, p, attr), p)
            case Laundered => Launder(SetAttr(v, p, attr), p)
            case LeftOff => SetAttr(v, p, attr)
  {
    hide ApplyAll, Free, Launder;
    TwoOps(v, DoAttr(p, attr), DoFree(p));
    TwoOps(v, DoAttr(p, attr), DoLaunder(p));
    assert [DoAttr(p, attr)] + [DoFree(p)] == [DoAttr(p, attr), DoFree(p)];
    assert [DoAttr(p, attr)] + [DoLaunder(p)] == [DoAttr(p, attr), DoLaunder(p)];
    assert [DoAttr(p, attr)] + [] == [DoAttr(p, attr)];
  }

  /** Nobody touches the record of the page whose lock the scan holds. */
  lemma TakenRecord(v: Vm, m: nat, ops: seq<Op>)
    requires m < |v.inactive| && v.inactive[m].Page? && v.inactive[m].p in v.pages
             && v.pages[v.inactive[m].p].queue == Inactive
    requires forall i :: 0 <= i < |ops| ==> ops[i].p !in {v.inactive[m].p}
    ensures var w, p := ApplyAll(TakenOut(v, m), ops), v.inactive[m].p;
            p in w.pages && w.pages[p] == v.pages[p].(queue := NoQueue)
  {
    hide ApplyAll;
    OthersOnly(TakenOut(v, m), ops, v.inactive[m].p);
  }

  lemma JoinThree(v: Vm, a: seq<Op>, b: seq<Op>, c: seq<Op>)
    ensures ApplyAll(ApplyAll(ApplyAll(v, a), b), c) == ApplyAll(v, a + b + c)
  {
    hide ApplyAll;
    ApplyJoin(v, a, b);
    ApplyJoin(v, a + b, c);
  }

  lemma QuietPlace(v: Vm, m: nat, attr: Attr, fate: Fate, skipped: set<Item>, bound: int)
    requires At(v, m, skipped, bound) && m < |v.inactive| && v.inactive[m].Page?
    ensures v.inactive[m].p in v.pages && v.pages[v.inactive[m].p].queue == Inactive
    ensures IndexOf(ApplyAll(TakenOut(v, m), FateOps(v.inactive[m].p, attr, fate)).inactive, Marker(VMD_MARKER), 0) == m
  {
    hide ApplyAll, FateOps, Sorted, Lists, ListsLaundry, Counted, IndexOf, PlaceOf;
    TakenOutList(v, m);
    var w := TakenOut(v, m);
    FateDone(w, v.inactive[m].p, attr, fate);
    IndexIs(w.inactive, Marker(VMD_MARKER), m);
  }

  lemma AtYounger(v: Vm, m: nat, skipped: set<Item>, bound: int)
    requires At(v, m, skipped, bound) && m < |v.inactive| && v.inactive[m].Page?
    ensures v.inactive[m].id > bound
  {
    hide Inv, NoMarker;
  }

  /** First in, first out: what is still queued was passed over, or is younger than all that was taken. */
  ghost predicate OldestTaken(s: seq<Item>, skipped: set<Item>, bound: int) {
    forall j :: 0 <= j < |s| && s[j].Page? ==> s[j] in skipped || s[j].id > bound
  }

  ghost predicate AllPassed(s: seq<Item>, skipped: set<Item>) {
    forall j :: 0 <= j < |s| && s[j].Page? ==> s[j] in skipped
  }

  lemma AtEnds(v: Vm, m: nat, skipped: set<Item>, bound: int)
    requires At(v, m, skipped, bound)
    ensures NoMarker(v.inactive, STACK_MARKER) && NoMarker(v.inactive, VMD_MARKER)
    ensures m <= |v.inactive|
    ensures Inv(v) && OldestTaken(v.inactive, skipped, bound) && (m >= |v.inactive| ==> AllPassed(v.inactive, skipped))
  {
    hide Inv, NoMarker;
  }

  lemma QuietStart(u: Vm)
    ensures Quiet(u, u, 0, 0, [], [], [])
  {
  }

  /** A turn nobody disturbed. */
  lemma QuietTurn(u: Vm, v: Vm, z: Vm, turns: nat, m: nat, next: nat, taken: seq<Item>, freed: seq<int>,
                  laundered: seq<int>,
                  turn: Turn, attr: Attr, skipped: set<Item>, bound: int)
    requires Quiet(u, v, turns, m, taken, freed, laundered) && Inv(u) && At(v, m, skipped, bound)
    requires m < |v.inactive| && v.inactive[m].Page?
    requires v.inactive[m].p in v.pages && v.pages[v.inactive[m].p].queue == Inactive
    requires turn.Took? <==> Ready(v.inactive[m], v.pages)
    requires match turn
             case Passed => next == m + 1 && z == v
             case Took(fate) => next == m && z == Take(v, m, attr, fate)
    ensures match turn
      case Passed => Quiet(u, z, turns + 1, next, taken, freed, laundered)
      case Took(fate) =>
        var p := v.inactive[m].p;
        Quiet(u, z, turns + 1, next, taken + [v.inactive[m]], if fate == Freed then freed + [p] else freed,
              if fate == Laundered then laundered + [p] else laundered)
  {
    hide Quiet, Take, Split, Inv;
    match turn
    case Passed => QuietSkip(u, v, turns, m, taken, freed, laundered);
    case Took(fate) => QuietTake(u, v, turns, m, taken, freed, laundered, attr, fate);
  }

  lemma CountNat(v: Vm, skipped: set<Item>, bound: int)
    requires At(v, 0, skipped, bound)
    ensures Inv(v) && v.inactiveCnt >= 0
  {
    hide Sorted, Lists, ListsLaundry, PagesOk;
  }

  lemma AscendingAdd(taken: seq<Item>, x: Item)
    requires Ascending(taken) && x.Page? && x.id > Bound(taken)
    ensures Ascending(taken + [x]) && Bound(taken + [x]) == x.id
  {
  }

  lemma Nothing()
    ensures Ascending([]) && Bound([]) == -1
  {
  }

  lemma StartAt(v: Vm)
    requires Inv(v) && NoMarker(v.inactive, STACK_MARKER) && NoMarker(v.inactive, VMD_MARKER)
    ensures At(v, 0, {}, -1)
  {
    hide Lists, ListsLaundry, Counted, PagesOk, Sorted, NoMarker;
  }

  /** Entries that stay on the queue keep their order, whatever happened in between: a birthday is an order. */
  lemma OrderKept(v: Vm, w: Vm, i: nat, j: nat, k: nat, l: nat)
    requires Inv(v) && Inv(w) && i < |v.inactive| && j < |v.inactive| && k < |w.inactive| && l < |w.inactive|
    requires v.inactive[i].Page? && v.inactive[j].Page? && v.inactive[i] == w.inactive[k]
             && v.inactive[j] == w.inactive[l]
    ensures i < j <==> k < l
  {
    hide Lists, ListsLaundry, Counted, PagesOk;
    assert v.inactive[i].id < v.inactive[j].id <==> i < j;
    assert w.inactive[k].id < w.inactive[l].id <==> k < l;
  }

  lemma {:induction false} EligibleIn(s: seq<Item>, pages: map<int, PageRec>, x: Item)
    requires x in Eligible(s, pages)
    ensures x in s && Ready(x, pages)
    decreases |s|
  {
    if x in Eligible(s[..|s| - 1], pages) {
      EligibleIn(s[..|s| - 1], pages, x);
    }
  }

  /**
   The scan allows itself one turn for each page, but the marker kept at the head of the queue
   uses one up: a scan nobody disturbs never takes the youngest page.
   */
  lemma YoungestIsNotReached(u: Vm, v: Vm, turns: nat, place: nat, taken: seq<Item>, freed: seq<int>,
                             laundered: seq<int>, x: Item)
    requires Inv(u) && Quiet(u, v, turns, place, taken, freed, laundered) && turns <= u.inactiveCnt
    requires 1 < |u.inactive| && u.inactive[0].Marker? && x == u.inactive[|u.inactive| - 1] && x.Page?
    ensures x !in taken
  {
    hide Eligible, Stuck, Ready, Lists, ListsLaundry, PagesOk, IsFree;
    var n := |u.inactive|;
    MarkerCount(u.inactive);
    if x in taken {
      EligibleIn(u.inactive[..turns], u.pages, x);
      var j :| 0 <= j < turns && u.inactive[j] == x;
      EntriesDiffer(u.inactive, u.pgCnt, j, n - 1);
    }
  }

  lemma EntriesDiffer(s: seq<Item>, pgCnt: nat, j: nat, l: nat)
    requires Sorted(s, pgCnt) && j < l < |s| && s[l].Page?
    ensures s[j] != s[l]
  {
  }

  lemma {:induction false} MarkerCount(s: seq<Item>)
    requires s != [] && s[0].Marker?
    ensures PageCount(s) < |s|
    decreases |s|
  {
    if |s| > 1 {
      MarkerCount(s[..|s| - 1]);
    }
  }

  lemma {:induction false} EligibleAll(s: seq<Item>, pages: map<int, PageRec>, j: nat)
    requires j < |s| && Ready(s[j], pages)
    ensures s[j] in Eligible(s, pages)
    decreases |s|
  {
    if j < |s| - 1 {
      EligibleAll(s[..|s| - 1], pages, j);
    }
  }

  /** First in, first out: a page that could have been taken and was not is younger than every page that was. */
  lemma QuietIsFifo(u: Vm, v: Vm, turns: nat, place: nat, taken: seq<Item>, freed: seq<int>, laundered: seq<int>,
                    j: nat, x: Item)
    requires Inv(u) && Quiet(u, v, turns, place, taken, freed, laundered)
    requires j < |u.inactive| && Ready(u.inactive[j], u.pages) && u.inactive[j] !in taken && x in taken
    ensures x.Page? && x.id < u.inactive[j].id
  {
    hide Eligible, Stuck, Lists, ListsLaundry, PagesOk, Counted, IsFree;
    if j < turns {
      EligibleAll(u.inactive[..turns], u.pages, j);
    }
    EligibleIn(u.inactive[..turns], u.pages, x);
    var i :| 0 <= i < turns && u.inactive[i] == x;
  }
}
