/**
 A run of the inactive scan as a value: what others did at each lock drop and what the hardware
 and the object flags said are recorded turn by turn, and with that record the run can be
 replayed.  What was taken, passed over, freed and laundered are read off the replay.
 */
module ScanTrace {
  import opened Prelude
  import opened Seqs
  import opened PageQueues
  import opened Pageout

  /**
   What one turn at a page did not decide itself: the operations of others while the page lock
   and the object lock were waited for (None if the lock was free), those between the dequeue
   and the page's fate, what the hardware knew of writes, whether the object was dying, and the
   operations of others before the queue was locked again.
   */
  datatype Choices = Choices(pageDrop: Option<seq<Op>>, objectDrop: Option<seq<Op>>,
                             before: seq<Op>, written: bool, dead: bool, after: seq<Op>)

  /** After a lock was taken: the queues, the place to go on from, and whether the page is still the entry before it. */
  datatype Standing = Standing(v: Vm, next: nat, same: bool)

  /** vm_pageout_page_lock. */
  function Locked(v: Vm, m: nat, drop: Option<seq<Op>>): Standing
    requires m < |v.inactive| && v.inactive[m].Page?
  {
    match drop
    case None => Standing(v, m + 1, true)
    case Some(ops) =>
      Standing(RemoveMarker(Unlocked(v, m, ops), STACK_MARKER), NextPlace(v, m, ops),
               Precedes(Unlocked(v, m, ops).inactive, NextPlace(v, m, ops), v.inactive[m].p))
  }

  predicate SameOwner(v: Vm, w: Vm, p: int) {
    p in v.pages && p in w.pages && w.pages[p].attr.owner == v.pages[p].attr.owner
  }

  /** VM_OBJECT_TRYWLOCK, or vm_pageout_fallback_object_lock. */
  function ObjectLocked(v: Vm, m: nat, drop: Option<seq<Op>>): Standing
    requires m < |v.inactive| && v.inactive[m].Page?
  {
    var s := Locked(v, m, drop);
    s.(same := s.same && (drop.None? || SameOwner(v, s.v, v.inactive[m].p)))
  }

  predicate Held(v: Vm, p: int) {
    p in v.pages && v.pages[p].attr.hold != 0
  }

  predicate Busied(v: Vm, p: int) {
    p in v.pages && v.pages[p].attr.busied
  }

  /** Page `p` is the entry at place `i`. */
  predicate Stands(v: Vm, i: int, p: int) {
    0 <= i < |v.inactive| && v.inactive[i].Page? && v.inactive[i].p == p && p in v.pages && v.pages[p].queue == Inactive
  }

  /** vm_page_test_dirty, of a valid page. */
  function Tested(attr: Attr, written: bool): Attr {
    if attr.valid && written then attr.(dirty := true) else attr
  }

  /** Invalid and clean pages are freed, others laundered unless their object is dying. */
  function FateOf(attr: Attr, dead: bool): Fate {
    if !attr.valid || !attr.dirty then Freed else if dead then LeftOff else Laundered
  }

  /** The queues after a turn, the place of the next one, and the fate of the page if it was taken. */
  datatype Result = Result(v: Vm, next: nat, took: Option<Fate>)

  /** The page at place `m` taken off and dealt with. */
  function Disposed(v: Vm, m: nat, ch: Choices): Result
    requires m < |v.inactive| && v.inactive[m].Page? && Stands(v, m, v.inactive[m].p)
  {
    var p := v.inactive[m].p;
    var attr := Tested(v.pages[p].attr, ch.written);
    var fate := FateOf(attr, ch.dead);
    var w := ApplyAll(TakenOut(v, m), ch.before + FateOps(p, attr, fate) + ch.after);
    Result(RemoveMarker(w, VMD_MARKER), IndexOf(w.inactive, Marker(VMD_MARKER), 0), Some(fate))
  }

  /**
   One turn at the page at place `m`.  It is passed over if it moved, changed its object, is
   held or is busy; a page that did not move stands before the place to go on from.
   */
  function Visited(v: Vm, m: nat, ch: Choices): Result
    requires m < |v.inactive| && v.inactive[m].Page?
  {
    var p := v.inactive[m].p;
    var a := Locked(v, m, ch.pageDrop);
    if !a.same || !Stands(a.v, a.next - 1, p) || Held(a.v, p) then Result(a.v, a.next, None)
    else
      var b := ObjectLocked(a.v, a.next - 1, ch.objectDrop);
      if !b.same || !Stands(b.v, b.next - 1, p) || (ch.objectDrop.Some? && Held(b.v, p)) || Busied(b.v, p) then
        Result(b.v, b.next, None)
      else
        Disposed(b.v, b.next - 1, ch)
  }

  /** While the scan holds the page's lock nobody else touches the page. */
  predicate Legal(p: int, ch: Choices) {
    forall i :: 0 <= i < |ch.before| ==> ch.before[i].p != p
  }

  /** Nobody else did anything. */
  predicate Quietly(ch: Choices) {
    && (ch.pageDrop.Some? ==> ch.pageDrop.value == []) && (ch.objectDrop.Some? ==> ch.objectDrop.value == [])
    && ch.before == [] && ch.after == []
  }

  // ----- a whole run -----

  /** A turn of the log: the entry looked at, and its fate if it was taken. */
  datatype Event = Event(x: Item, took: Option<Fate>)

  datatype Progress = Progress(v: Vm, m: nat, log: seq<Event>)

  /** One turn; markers are passed over. */
  function Turned(s: Progress, ch: Choices): Progress {
    if s.m >= |s.v.inactive| then s
    else
      var x := s.v.inactive[s.m];
      if x.Marker? then Progress(s.v, s.m + 1, s.log + [Event(x, None)])
      else
        var r := Visited(s.v, s.m, ch);
        Progress(r.v, r.next, s.log + [Event(x, r.took)])
  }

  /** The run that starts at the head of the queue of `v` and makes these choices. */
  function Replay(v: Vm, choices: seq<Choices>): Progress
    decreases |choices|
  {
    if choices == [] then Progress(v, 0, [])
    else Turned(Replay(v, choices[..|choices| - 1]), choices[|choices| - 1])
  }

  /** The entries taken, in order. */
  function Taken(log: seq<Event>): seq<Item> {
    if log == [] then [] else
      var e := log[|log| - 1];
      Taken(log[..|log| - 1]) + (if e.took.Some? then [e.x] else [])
  }

  /** The entries passed over. */
  function Skipped(log: seq<Event>): set<Item> {
    if log == [] then {} else
      var e := log[|log| - 1];
      Skipped(log[..|log| - 1]) + (if e.took.Some? then {} else {e.x})
  }

  /** The entries taken that met fate `f`, in order. */
  function Met(log: seq<Event>, f: Fate): seq<Item> {
    if log == [] then [] else
      var e := log[|log| - 1];
      Met(log[..|log| - 1], f) + (if e.took.Some? && e.took.value == f then [e.x] else [])
  }

  lemma LogGrows(log: seq<Event>, e: Event)
    ensures Taken(log + [e]) == Taken(log) + (if e.took.Some? then [e.x] else [])
    ensures Skipped(log + [e]) == Skipped(log) + (if e.took.Some? then {} else {e.x})
    ensures forall f :: Met(log + [e], f) == Met(log, f) + (if e.took.Some? && e.took.value == f then [e.x] else [])
  {
    assert (log + [e])[..|log|] == log;
  }

  /** Every page taken meets exactly one fate. */
  lemma {:induction false} FatesAddUp(log: seq<Event>)
    ensures |Taken(log)| == |Met(log, Freed)| + |Met(log, Laundered)| + |Met(log, LeftOff)| <= |log|
    ensures forall x :: x in Taken(log) <==> x in Met(log, Freed) || x in Met(log, Laundered) || x in Met(log, LeftOff)
    decreases |log|
  {
    if log != [] {
      FatesAddUp(log[..|log| - 1]);
      var e := log[|log| - 1];
      assert e.took.Some? ==> e.took.value.Freed? || e.took.value.Laundered? || e.took.value.LeftOff?;
    }
  }

  // ----- one turn, whatever others do -----

  lemma LockedAt(v: Vm, m: nat, drop: Option<seq<Op>>, skipped: set<Item>, bound: int)
    requires At(v, m, skipped, bound) && m < |v.inactive| && v.inactive[m].Page?
    ensures var s, x := Locked(v, m, drop), v.inactive[m];
            && At(s.v, s.next, skipped + {x}, bound) && s.v.pages.Keys == v.pages.Keys
            && (s.same ==> 0 < s.next <= |s.v.inactive| && s.v.inactive[s.next - 1] == x
                           && At(s.v, s.next - 1, skipped, bound))
            && (drop == Some([]) ==> s == Standing(v, m + 1, true))
  {
    hide At, Unlocked, NextPlace, RemoveMarker, Precedes;
    match drop
    case None => SkipAt(v, m, skipped, bound);
    case Some(ops) => DropEnds(v, m, ops, skipped, bound);
  }

  lemma AtStands(v: Vm, m: nat, skipped: set<Item>, bound: int)
    requires At(v, m, skipped, bound) && m < |v.inactive| && v.inactive[m].Page?
    ensures Stands(v, m, v.inactive[m].p)
  {
    hide At;
    AtPage(v, m, skipped, bound);
  }

  lemma DisposedAt(v: Vm, m: nat, ch: Choices, skipped: set<Item>, bound: int)
    requires At(v, m, skipped, bound) && m < |v.inactive| && v.inactive[m].Page?
    ensures Stands(v, m, v.inactive[m].p) && Disposed(v, m, ch).took.Some?
    ensures At(Disposed(v, m, ch).v, Disposed(v, m, ch).next, skipped, v.inactive[m].id)
  {
    hide At, TakenOut, ApplyAll, RemoveMarker, IndexOf, FateOps;
    AtStands(v, m, skipped, bound);
    var p := v.inactive[m].p;
    var attr := Tested(v.pages[p].attr, ch.written);
    TakeAt(v, m, ch.before + FateOps(p, attr, FateOf(attr, ch.dead)) + ch.after, skipped, bound);
  }

  /** A turn keeps the scan's place: the page is passed over, or taken, and then all behind is younger. */
  lemma VisitedAt(v: Vm, m: nat, ch: Choices, skipped: set<Item>, bound: int)
    requires At(v, m, skipped, bound) && m < |v.inactive| && v.inactive[m].Page?
    ensures var r, x := Visited(v, m, ch), v.inactive[m];
            if r.took.Some? then At(r.v, r.next, skipped, x.id) else At(r.v, r.next, skipped + {x}, bound)
  {
    hide At, Locked, Stands, Held, Busied, Disposed, SameOwner;
    LockedAt(v, m, ch.pageDrop, skipped, bound);
    var a := Locked(v, m, ch.pageDrop);
    if a.same {
      LockedAt(a.v, a.next - 1, ch.objectDrop, skipped, bound);
      var b := Locked(a.v, a.next - 1, ch.objectDrop);
      if b.same {
        DisposedAt(b.v, b.next - 1, ch, skipped, bound);
      }
    }
  }

  /** Progress as the scan's invariant has it. */
  ghost predicate Sound(s: Progress) {
    At(s.v, s.m, Skipped(s.log), Bound(Taken(s.log))) && Ascending(Taken(s.log))
  }

  lemma TurnedSound(s: Progress, ch: Choices)
    requires Sound(s)
    ensures Sound(Turned(s, ch))
  {
    hide At, Visited, Taken, Skipped, Met, Ascending, Bound;
    if s.m < |s.v.inactive| {
      var x := s.v.inactive[s.m];
      if x.Marker? {
        SkipAt(s.v, s.m, Skipped(s.log), Bound(Taken(s.log)));
        LogGrows(s.log, Event(x, None));
        NoMore(Taken(s.log));
      } else {
        var r := Visited(s.v, s.m, ch);
        VisitedAt(s.v, s.m, ch, Skipped(s.log), Bound(Taken(s.log)));
        LogGrows(s.log, Event(x, r.took));
        AtYounger(s.v, s.m, Skipped(s.log), Bound(Taken(s.log)));
        AscendingAdd(Taken(s.log), x);
        NoMore(Taken(s.log));
        NoneAdded(Skipped(s.log));
      }
    }
  }

  lemma NoMore(s: seq<Item>)
    ensures s + [] == s
  {
  }

  lemma NoneAdded(s: set<Item>)
    ensures s + {} == s
  {
  }

  /**
   The scan is first in, first out whatever others do at its lock drops: the pages it takes
   have strictly increasing birthdays, and every page still queued was passed over or is
   younger than all that were taken.
   */
  lemma {:induction false} ReplayIsFifo(v: Vm, choices: seq<Choices>)
    requires At(v, 0, {}, -1)
    ensures Sound(Replay(v, choices))
    ensures var r := Replay(v, choices); Inv(r.v) && OldestTaken(r.v.inactive, Skipped(r.log), Bound(Taken(r.log)))
    ensures var r := Replay(v, choices); r.m >= |r.v.inactive| ==> AllPassed(r.v.inactive, Skipped(r.log))
    decreases |choices|
  {
    hide At, Inv, Turned, OldestTaken, AllPassed;
    if choices == [] {
      Nothing();
    } else {
      ReplayIsFifo(v, choices[..|choices| - 1]);
      TurnedSound(Replay(v, choices[..|choices| - 1]), choices[|choices| - 1]);
    }
    var r := Replay(v, choices);
    AtEnds(r.v, r.m, Skipped(r.log), Bound(Taken(r.log)));
  }

  /** The pages of one fate are in order of birthday too, so none is counted twice. */
  lemma {:induction false} MetAscending(log: seq<Event>, f: Fate)
    requires Ascending(Taken(log))
    ensures Ascending(Met(log, f)) && forall x :: x in Met(log, f) ==> x in Taken(log)
    decreases |log|
  {
    if log != [] {
      var init, e := log[..|log| - 1], log[|log| - 1];
      var t := Taken(log);
      assert forall i :: 0 <= i < |Taken(init)| ==> Taken(init)[i] == t[i];
      MetAscending(init, f);
      if e.took.Some? {
        assert t[|t| - 1] == e.x;
        forall y | y in Met(init, f) ensures y.Page? && y.id < e.x.id {
          var i :| 0 <= i < |Taken(init)| && Taken(init)[i] == y;
          assert t[i] == y;
        }
      }
    }
  }

  // ----- a run that nobody disturbs -----

  /** The page numbers of entries. */
  function Pages(s: seq<Item>): seq<int> {
    seq(|s|, i requires 0 <= i < |s| => if s[i].Page? then s[i].p else -1)
  }

  lemma PagesMore(s: seq<Item>, x: Item)
    requires x.Page?
    ensures Pages(s + [x]) == Pages(s) + [x.p]
  {
  }

  lemma QuietLocked(v: Vm, m: nat, drop: Option<seq<Op>>, skipped: set<Item>, bound: int)
    requires At(v, m, skipped, bound) && m < |v.inactive| && v.inactive[m].Page? && (drop.Some? ==> drop.value == [])
    ensures Locked(v, m, drop) == Standing(v, m + 1, true)
  {
    hide At, Unlocked, NextPlace, RemoveMarker, Precedes;
    LockedAt(v, m, drop, skipped, bound);
    if drop.Some? {
      assert drop == Some([]);
    }
  }

  /** Left to itself, a turn takes the page exactly when it is neither held nor busy. */
  lemma QuietVisited(v: Vm, m: nat, ch: Choices, skipped: set<Item>, bound: int)
    requires At(v, m, skipped, bound) && m < |v.inactive| && v.inactive[m].Page? && Quietly(ch)
    ensures Stands(v, m, v.inactive[m].p)
    ensures !Ready(v.inactive[m], v.pages) ==> Visited(v, m, ch) == Result(v, m + 1, None)
    ensures Ready(v.inactive[m], v.pages) ==>
      var attr := Tested(v.pages[v.inactive[m].p].attr, ch.written);
      Visited(v, m, ch) == Result(Take(v, m, attr, FateOf(attr, ch.dead)), m, Some(FateOf(attr, ch.dead)))
  {
    hide At, Locked, Disposed, Tested, FateOf, Take;
    AtStands(v, m, skipped, bound);
    QuietLocked(v, m, ch.pageDrop, skipped, bound);
    QuietLocked(v, m, ch.objectDrop, skipped, bound);
    QuietDisposed(v, m, ch, skipped, bound);
  }

  lemma QuietDisposed(v: Vm, m: nat, ch: Choices, skipped: set<Item>, bound: int)
    requires At(v, m, skipped, bound) && m < |v.inactive| && v.inactive[m].Page? && Quietly(ch)
    ensures Stands(v, m, v.inactive[m].p)
    ensures var attr := Tested(v.pages[v.inactive[m].p].attr, ch.written);
      Disposed(v, m, ch) == Result(Take(v, m, attr, FateOf(attr, ch.dead)), m, Some(FateOf(attr, ch.dead)))
  {
    hide At, Tested, FateOf, TakenOut, ApplyAll, RemoveMarker, IndexOf, FateOps;
    AtStands(v, m, skipped, bound);
    var p := v.inactive[m].p;
    var attr := Tested(v.pages[p].attr, ch.written);
    var fate := FateOf(attr, ch.dead);
    assert ch.before + FateOps(p, attr, fate) + ch.after == FateOps(p, attr, fate);
    QuietPlace(v, m, attr, fate, skipped, bound);
  }

  /** The choices of a run that nobody disturbed, every turn of which had an entry to look at. */
  ghost predicate QuietRun(u: Vm, choices: seq<Choices>) {
    forall k :: 0 <= k < |choices| ==> QuietStep(u, choices, k)
  }

  ghost predicate QuietStep(u: Vm, choices: seq<Choices>, k: nat)
    requires k < |choices|
  {
    Quietly(choices[k]) && Replay(u, choices[..k]).m < |Replay(u, choices[..k]).v.inactive|
  }

  /** The invariant of such a run. */
  ghost predicate QuietSo(u: Vm, r: Progress) {
    Quiet(u, r.v, |r.log|, r.m, Taken(r.log), Pages(Met(r.log, Freed)), Pages(Met(r.log, Laundered)))
  }

  /** What becomes of the entry at place `i` of the old queue: nothing if it is a marker, held or busy. */
  ghost function FateThere(u: Vm, i: nat, ch: Choices): Option<Fate>
    requires i < |u.inactive|
  {
    var x := u.inactive[i];
    if Ready(x, u.pages) then Some(FateOf(Tested(u.pages[x.p].attr, ch.written), ch.dead)) else None
  }

  /** The entry looked at is the next one of the old queue, its page's record as it was. */
  lemma QuietNext(u: Vm, s: Progress)
    requires Inv(u) && QuietSo(u, s) && s.m < |s.v.inactive|
    ensures |s.log| < |u.inactive| && s.v.inactive[s.m] == u.inactive[|s.log|]
    ensures var x := s.v.inactive[s.m];
            x.Page? ==> x.p in s.v.pages && x.p in u.pages && s.v.pages[x.p] == u.pages[x.p]
  {
    hide Eligible, Stuck, Taken, Met, Pages, Sorted, ListsLaundry, Counted, PagesOk, IsFree;
    QuietEntry(u, s.v, |s.log|, s.m, Taken(s.log), Pages(Met(s.log, Freed)), Pages(Met(s.log, Laundered)));
  }

  lemma PagesIf(s: seq<Item>, more: bool, x: Item)
    requires x.Page?
    ensures Pages(s + (if more then [x] else [])) == if more then Pages(s) + [x.p] else Pages(s)
  {
    NoMore(s);
    PagesMore(s, x);
  }

  lemma QuietPassed(u: Vm, s: Progress)
    requires Inv(u) && QuietSo(u, s) && s.m < |s.v.inactive| && !Ready(s.v.inactive[s.m], s.v.pages)
    ensures QuietSo(u, Progress(s.v, s.m + 1, s.log + [Event(s.v.inactive[s.m], None)]))
  {
    hide Inv, Taken, Skipped, Met, Quiet, Pages;
    QuietSkip(u, s.v, |s.log|, s.m, Taken(s.log), Pages(Met(s.log, Freed)), Pages(Met(s.log, Laundered)));
    LogGrows(s.log, Event(s.v.inactive[s.m], None));
    NoMore(Taken(s.log));
    NoMore(Met(s.log, Freed));
    NoMore(Met(s.log, Laundered));
  }

  lemma QuietTaken(u: Vm, s: Progress, attr: Attr, fate: Fate)
    requires Inv(u) && Sound(s) && QuietSo(u, s) && s.m < |s.v.inactive| && Ready(s.v.inactive[s.m], s.v.pages)
    ensures Stands(s.v, s.m, s.v.inactive[s.m].p)
    ensures QuietSo(u, Progress(Take(s.v, s.m, attr, fate), s.m, s.log + [Event(s.v.inactive[s.m], Some(fate))]))
  {
    hide Inv, At, Taken, Skipped, Met, Quiet, Pages, Take, Bound, Ascending;
    var x := s.v.inactive[s.m];
    AtStands(s.v, s.m, Skipped(s.log), Bound(Taken(s.log)));
    QuietTurn(u, s.v, Take(s.v, s.m, attr, fate), |s.log|, s.m, s.m, Taken(s.log), Pages(Met(s.log, Freed)),
              Pages(Met(s.log, Laundered)), Took(fate), attr, Skipped(s.log), Bound(Taken(s.log)));
    LogGrows(s.log, Event(x, Some(fate)));
    PagesIf(Met(s.log, Freed), fate == Freed, x);
    PagesIf(Met(s.log, Laundered), fate == Laundered, x);
  }

  /** A turn nobody disturbed looks at the next entry of the old queue, and its fate depends on that page alone. */
  lemma QuietTurned(u: Vm, s: Progress, ch: Choices)
    requires Inv(u) && Sound(s) && QuietSo(u, s) && Quietly(ch) && s.m < |s.v.inactive|
    ensures QuietSo(u, Turned(s, ch)) && |s.log| < |u.inactive|
    ensures Turned(s, ch).log == s.log + [Event(u.inactive[|s.log|], FateThere(u, |s.log|, ch))]
  {
    hide Inv, At, Visited, QuietSo, Take, Tested, FateOf;
    var x := s.v.inactive[s.m];
    QuietNext(u, s);
    if x.Marker? {
      QuietPassed(u, s);
    } else {
      QuietVisited(s.v, s.m, ch, Skipped(s.log), Bound(Taken(s.log)));
      if Ready(x, s.v.pages) {
        var attr := Tested(s.v.pages[x.p].attr, ch.written);
        QuietTaken(u, s, attr, FateOf(attr, ch.dead));
      } else {
        QuietPassed(u, s);
      }
    }
  }

  /**
   A run nobody disturbs takes exactly the pages of the turns it used that were neither held nor
   busy, leaves the other entries in order, frees what it counts as freed and launders the rest
   to the tail of the laundry queue.
   */
  lemma {:induction false} QuietReplay(u: Vm, choices: seq<Choices>)
    requires At(u, 0, {}, -1) && QuietRun(u, choices)
    ensures QuietSo(u, Replay(u, choices)) && |Replay(u, choices).log| == |choices| <= |u.inactive|
    decreases |choices|
  {
    hide QuietSo, Turned, At, QuietStep;
    if choices == [] {
      QuietBegins(u);
    } else {
      var n := |choices| - 1;
      var init := choices[..n];
      QuietPart(u, choices, n);
      QuietReplay(u, init);
      ReplayIsFifo(u, init);
      QuietLast(u, choices);
      AtEnds(u, 0, {}, -1);
      QuietTurned(u, Replay(u, init), choices[n]);
    }
  }

  lemma QuietBegins(u: Vm)
    ensures QuietSo(u, Progress(u, 0, []))
  {
    QuietStart(u);
    assert Pages([]) == [];
  }

  lemma QuietLast(u: Vm, choices: seq<Choices>)
    requires choices != [] && QuietRun(u, choices)
    ensures var s := Replay(u, choices[..|choices| - 1]);
            Quietly(choices[|choices| - 1]) && s.m < |s.v.inactive|
  {
    hide Replay;
    assert QuietStep(u, choices, |choices| - 1);
  }

  /** Undisturbed, turn `k` is at entry `k`, and the entry meets the fate its page's own record calls for. */
  lemma QuietFates(u: Vm, choices: seq<Choices>, k: nat)
    requires At(u, 0, {}, -1) && QuietRun(u, choices) && k < |choices|
    ensures k < |u.inactive|
    ensures Replay(u, choices[..k + 1]).log == Replay(u, choices[..k]).log
            + [Event(u.inactive[k], FateThere(u, k, choices[k]))]
  {
    hide QuietSo, Turned, At, QuietStep, FateThere;
    var upTo, next := choices[..k], choices[..k + 1];
    assert next[..k] == upTo && next[k] == choices[k];
    QuietPart(u, choices, k + 1);
    QuietPart(u, choices, k);
    QuietReplay(u, upTo);
    ReplayIsFifo(u, upTo);
    QuietLast(u, next);
    AtEnds(u, 0, {}, -1);
    QuietTurned(u, Replay(u, upTo), choices[k]);
  }

  lemma QuietPart(u: Vm, choices: seq<Choices>, n: nat)
    requires QuietRun(u, choices) && n <= |choices|
    ensures QuietRun(u, choices[..n])
  {
    hide Replay;
    var part := choices[..n];
    forall k | 0 <= k < n ensures QuietStep(u, part, k) {
      assert part[..k] == choices[..k];
      assert QuietStep(u, choices, k);
    }
  }

  /** Undisturbed, the pages of one fate are different pages, each of the old queue and neither held nor busy. */
  lemma QuietOnce(u: Vm, choices: seq<Choices>, f: Fate, i: nat, j: nat)
    requires At(u, 0, {}, -1) && QuietRun(u, choices)
    requires i < j < |Met(Replay(u, choices).log, f)|
    ensures var met := Met(Replay(u, choices).log, f);
            met[i].Page? && met[j].Page? && met[i].p != met[j].p && met[i] in u.inactive && Ready(met[i], u.pages)
  {
    hide At, Met, Taken, Replay, Quiet, QuietStep, Inv, Ready;
    var log := Replay(u, choices).log;
    var met := Met(log, f);
    QuietReplay(u, choices);
    ReplayIsFifo(u, choices);
    MetAscending(log, f);
    assert met[i] in Taken(log) && met[j] in Taken(log) && met[i].id < met[j].id;
    TakenThere(u, Replay(u, choices), met[i]);
    TakenThere(u, Replay(u, choices), met[j]);
    AtEnds(u, 0, {}, -1);
    DifferentPages(u, met[i], met[j]);
  }

  lemma TakenThere(u: Vm, r: Progress, x: Item)
    requires QuietSo(u, r) && x in Taken(r.log)
    ensures x in u.inactive && Ready(x, u.pages)
  {
    hide Eligible, Stuck, Taken, Met, Pages, IsFree, Ready;
    EligibleIn(u.inactive[..|r.log|], u.pages, x);
  }

  lemma DifferentPages(u: Vm, x: Item, y: Item)
    requires Inv(u) && x in u.inactive && y in u.inactive && x.Page? && y.Page? && x.id < y.id
    ensures x.p != y.p
  {
    hide Sorted, ListsLaundry, Counted, PagesOk;
    var i :| 0 <= i < |u.inactive| && u.inactive[i] == x;
    var j :| 0 <= j < |u.inactive| && u.inactive[j] == y;
  }

  lemma ObjectLockedAt(v: Vm, m: nat, drop: Option<seq<Op>>, skipped: set<Item>, bound: int)
    requires At(v, m, skipped, bound) && m < |v.inactive| && v.inactive[m].Page?
    ensures var s, x := ObjectLocked(v, m, drop), v.inactive[m];
            s.same ==> 0 < s.next <= |s.v.inactive| && s.v.inactive[s.next - 1] == x
                       && At(s.v, s.next - 1, skipped, bound)
  {
    hide At, Locked;
    LockedAt(v, m, drop, skipped, bound);
  }

  // ----- the scan's loop -----

  ghost predicate LegalNow(u: Vm, choices: seq<Choices>, ch: Choices) {
    var s := Replay(u, choices);
    s.m < |s.v.inactive| && s.v.inactive[s.m].Page? ==> Legal(s.v.inactive[s.m].p, ch)
  }

  /** In no turn did others touch the page whose lock the scan held. */
  ghost predicate AllLegal(u: Vm, choices: seq<Choices>) {
    forall k :: 0 <= k < |choices| ==> LegalNow(u, choices[..k], choices[k])
  }

  ghost predicate NeededNow(u: Vm, choices: seq<Choices>, target: int) {
    var s := Replay(u, choices);
    s.m < |s.v.inactive| && |Met(s.log, Freed)| < target
  }

  /** Every turn was used with entries left and pages still short. */
  ghost predicate Needed(u: Vm, choices: seq<Choices>, target: int) {
    forall k :: 0 <= k < |choices| ==> NeededNow(u, choices[..k], target)
  }

  ghost predicate Scanning(u: Vm, v: Vm, m: nat, choices: seq<Choices>, target: int, shortage: int) {
    var r := Replay(u, choices);
    r.v == v && r.m == m && shortage == target - |Met(r.log, Freed)| && Sound(r) && Needed(u, choices, target)
  }

  lemma ReplayStart(u: Vm, target: int)
    requires At(u, 0, {}, -1)
    ensures Scanning(u, u, 0, [], target, target) && AllLegal(u, []) && QuietRun(u, [])
  {
    hide At;
    Nothing();
  }

  lemma ScanningAt(u: Vm, v: Vm, m: nat, choices: seq<Choices>, target: int, shortage: int)
    requires Scanning(u, v, m, choices, target, shortage)
    ensures var r := Replay(u, choices); r.v == v && r.m == m && At(v, m, Skipped(r.log), Bound(Taken(r.log)))
  {
    hide At, Replay, Needed, Met, Skipped, Taken, Bound, Ascending;
  }

  lemma NeededMore(u: Vm, choices: seq<Choices>, target: int, ch: Choices)
    requires Needed(u, choices, target) && NeededNow(u, choices, target)
    ensures Needed(u, choices + [ch], target)
  {
    hide NeededNow;
    var more := choices + [ch];
    forall k | 0 <= k < |more| ensures NeededNow(u, more[..k], target) {
      if k < |choices| {
        assert more[..k] == choices[..k];
      } else {
        assert more[..k] == choices;
      }
    }
  }

  lemma LegalMore(u: Vm, choices: seq<Choices>, ch: Choices)
    requires AllLegal(u, choices) && LegalNow(u, choices, ch)
    ensures AllLegal(u, choices + [ch])
  {
    hide LegalNow;
    var more := choices + [ch];
    forall k | 0 <= k < |more| ensures LegalNow(u, more[..k], more[k]) {
      if k < |choices| {
        assert more[..k] == choices[..k];
      } else {
        assert more[..k] == choices;
      }
    }
  }

  lemma QuietMore(u: Vm, choices: seq<Choices>, ch: Choices)
    requires QuietRun(u, choices) && Quietly(ch) && Replay(u, choices).m < |Replay(u, choices).v.inactive|
    ensures QuietRun(u, choices + [ch])
  {
    hide Replay, Quietly;
    var more := choices + [ch];
    forall k | 0 <= k < |more| ensures QuietStep(u, more, k) {
      if k < |choices| {
        assert more[..k] == choices[..k];
        assert QuietStep(u, choices, k);
      } else {
        assert more[..k] == choices;
      }
    }
  }

  lemma ReplayMore(u: Vm, choices: seq<Choices>, ch: Choices)
    ensures Replay(u, choices + [ch]) == Turned(Replay(u, choices), ch)
  {
    hide Turned;
    assert (choices + [ch])[..|choices|] == choices;
  }

  lemma ScanningMarker(u: Vm, v: Vm, m: nat, choices: seq<Choices>, target: int, shortage: int, ch: Choices)
    requires Scanning(u, v, m, choices, target, shortage) && m < |v.inactive| && v.inactive[m].Marker? && shortage > 0
    ensures Scanning(u, v, m + 1, choices + [ch], target, shortage)
  {
    hide At, Replay, Needed, Met, Visited, Sound;
    var r := Replay(u, choices);
    ReplayMore(u, choices, ch);
    TurnedSound(r, ch);
    LogGrows(r.log, Event(v.inactive[m], None));
    NeededMore(u, choices, target, ch);
  }

  lemma ScanningTurn(u: Vm, v: Vm, m: nat, choices: seq<Choices>, target: int, shortage: int, ch: Choices,
                     v': Vm, m': nat, took: Option<Fate>)
    requires Scanning(u, v, m, choices, target, shortage) && m < |v.inactive| && v.inactive[m].Page? && shortage > 0
    requires Result(v', m', took) == Visited(v, m, ch)
    ensures Scanning(u, v', m', choices + [ch], target,
                     if took.Some? && took.value == Freed then shortage - 1 else shortage)
  {
    hide At, Replay, Needed, Met, Visited, Sound;
    var r := Replay(u, choices);
    ReplayMore(u, choices, ch);
    TurnedSound(r, ch);
    LogGrows(r.log, Event(v.inactive[m], took));
    NeededMore(u, choices, target, ch);
  }

  lemma ScanningEnds(u: Vm, v: Vm, m: nat, choices: seq<Choices>, target: int, shortage: int)
    requires Scanning(u, v, m, choices, target, shortage)
    ensures Inv(v) && NoMarker(v.inactive, STACK_MARKER) && NoMarker(v.inactive, VMD_MARKER) && m <= |v.inactive|
    ensures Needed(u, choices, target)
    ensures var r := Replay(u, choices); v == r.v && m == r.m && shortage == target - |Met(r.log, Freed)|
  {
    hide At, Replay, Needed, Met, Skipped, Taken, Bound, Ascending, Inv, NoMarker;
    var r := Replay(u, choices);
    AtEnds(v, m, Skipped(r.log), Bound(Taken(r.log)));
  }
}
