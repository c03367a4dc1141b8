/**
 Why each page the inactive scan takes meets its fate, whatever others do: in terms of the
 page's own fields when the scan has locked it, and of the queues once it has dealt with it.
 */
module ScanFates {
  import opened Prelude
  import opened Seqs
  import opened PageQueues
  import opened Pageout
  import opened ScanTrace

  /** What the scan stands at in one turn once both locks are taken. */
  function BothLocked(v: Vm, m: nat, ch: Choices): Standing
    requires m < |v.inactive| && v.inactive[m].Page?
  {
    var a := Locked(v, m, ch.pageDrop);
    if Stands(a.v, a.next - 1, v.inactive[m].p) then ObjectLocked(a.v, a.next - 1, ch.objectDrop) else a
  }

  /** The page as the scan finds it then, still of the object whose lock it took. */
  ghost predicate Sees(v: Vm, m: nat, ch: Choices, attr: Attr) {
    && m < |v.inactive| && v.inactive[m].Page?
    && var u, w, p := Locked(v, m, ch.pageDrop).v, BothLocked(v, m, ch).v, v.inactive[m].p;
       && p in w.pages && w.pages[p].queue == Inactive && w.pages[p].attr == attr
       && p in u.pages && u.pages[p].attr.owner == attr.owner
  }

  /** A page of this fate: what the scan found, with `written` what the hardware knew and `dead` its object's flag. */
  predicate Deserves(f: Fate, attr: Attr, written: bool, dead: bool) {
    match f
    case Freed => !attr.valid || (!attr.dirty && !written)
    case Laundered => attr.valid && (attr.dirty || written) && !dead
    case LeftOff => attr.valid && (attr.dirty || written) && dead
  }

  /** A page that is taken was neither held nor busy, and met the fate it deserves. */
  lemma TurnDeserves(v: Vm, m: nat, ch: Choices, skipped: set<Item>, bound: int) returns (attr: Attr)
    requires At(v, m, skipped, bound) && m < |v.inactive| && v.inactive[m].Page?
    requires Visited(v, m, ch).took.Some?
    ensures Sees(v, m, ch, attr) && attr.hold == 0 && !attr.busied
    ensures Deserves(Visited(v, m, ch).took.value, attr, ch.written, ch.dead)
  {
    hide At, Locked, TakenOut, ApplyAll, FateOps, IndexOf, RemoveMarker;
    var p := v.inactive[m].p;
    LockedAt(v, m, ch.pageDrop, skipped, bound);
    var a := Locked(v, m, ch.pageDrop);
    LockedAt(a.v, a.next - 1, ch.objectDrop, skipped, bound);
    var b := ObjectLocked(a.v, a.next - 1, ch.objectDrop);
    NoDrop(a.v, a.next - 1);
    attr := b.v.pages[p].attr;
  }

  lemma NoDrop(v: Vm, m: nat)
    requires m < |v.inactive| && v.inactive[m].Page?
    ensures Locked(v, m, None) == Standing(v, m + 1, true)
  {
  }

  // ----- over a whole replay -----

  /** In turn `k` of the replay the scan looked at entry `x` and found its page with these fields. */
  ghost predicate SeenIn(u: Vm, choices: seq<Choices>, k: nat, x: Item, attr: Attr) {
    && k < |choices|
    && var s := Replay(u, choices[..k]);
       s.m < |s.v.inactive| && s.v.inactive[s.m] == x && Sees(s.v, s.m, choices[k], attr)
  }

  lemma {:induction false} InLast(log: seq<Event>, f: Fate, x: Item)
    requires log != [] && x in Met(log, f)
    ensures x in Met(log[..|log| - 1], f) || log[|log| - 1] == Event(x, Some(f))
  {
  }

  lemma TurnLogs(s: Progress, ch: Choices)
    ensures s.m >= |s.v.inactive| ==> Turned(s, ch).log == s.log
    ensures s.m < |s.v.inactive| ==>
              && |Turned(s, ch).log| == |s.log| + 1 && Turned(s, ch).log[..|s.log|] == s.log
              && var x := s.v.inactive[s.m];
                 Turned(s, ch).log[|s.log|] == Event(x, if x.Marker? then None else Visited(s.v, s.m, ch).took)
  {
    hide Visited;
  }

  /**
   Over every replay, whatever others do: a page met a fate only when the scan, having locked it,
   found it neither held nor busy, and as that fate has it.
   */
  lemma {:induction false} MetDeserved(u: Vm, choices: seq<Choices>, f: Fate, x: Item) returns (k: nat, attr: Attr)
    requires At(u, 0, {}, -1) && x in Met(Replay(u, choices).log, f)
    ensures SeenIn(u, choices, k, x, attr) && attr.hold == 0 && !attr.busied
    ensures Deserves(f, attr, choices[k].written, choices[k].dead)
    decreases |choices|
  {
    hide At, Visited, Sees, Deserves, Met, Turned;
    if choices == [] {
      NothingMet(u, f);
    }
    var n := |choices| - 1;
    var init := choices[..n];
    var s := Replay(u, init);
    TurnLogs(s, choices[n]);
    if x in Met(s.log, f) {
      k, attr := MetDeserved(u, init, f, x);
      assert init[..k] == choices[..k] && init[k] == choices[k];
    } else {
      InLast(Turned(s, choices[n]).log, f, x);
      ReplayIsFifo(u, init);
      k := n;
      attr := TurnDeserves(s.v, s.m, choices[n], Skipped(s.log), Bound(Taken(s.log)));
    }
  }

  lemma NothingMet(u: Vm, f: Fate)
    ensures Met(Replay(u, []).log, f) == []
  {
  }

  /** A page found valid and dirty is not freed in that turn, nor one found clean laundered. */
  lemma DirtyIsNotFreed(u: Vm, choices: seq<Choices>, k: nat, x: Item, attr: Attr)
    requires At(u, 0, {}, -1) && SeenIn(u, choices, k, x, attr) && attr.valid
    ensures var log := Turned(Replay(u, choices[..k]), choices[k]).log;
            && log != [] && log[|log| - 1].x == x
            && (attr.dirty || choices[k].written ==> log[|log| - 1].took != Some(Freed))
            && (!attr.dirty && !choices[k].written ==> log[|log| - 1].took != Some(Laundered))
  {
    hide At, Visited, Sees, BothLocked, Turned;
    var s := Replay(u, choices[..k]);
    SeesPage(s.v, s.m, choices[k], attr);
    ReplayIsFifo(u, choices[..k]);
    TurnLogs(s, choices[k]);
    if Visited(s.v, s.m, choices[k]).took.Some? {
      var found := TurnDeserves(s.v, s.m, choices[k], Skipped(s.log), Bound(Taken(s.log)));
      SeesSame(s.v, s.m, choices[k], attr, found);
    }
  }

  lemma SeesPage(v: Vm, m: nat, ch: Choices, attr: Attr)
    requires Sees(v, m, ch, attr)
    ensures m < |v.inactive| && v.inactive[m].Page?
  {
  }

  lemma SeesSame(v: Vm, m: nat, ch: Choices, a: Attr, b: Attr)
    requires Sees(v, m, ch, a) && Sees(v, m, ch, b)
    ensures a == b
  {
  }

  // ----- what the fate does -----

  /** Right after a page met its fate. */
  ghost predicate Done(z: Vm, p: int, f: Fate, found: Attr) {
    && p in z.pages && z.pages[p].attr.hold == found.hold
    && match f
       case Freed => z.pages[p].queue == NoQueue && z.pages[p].attr.owner == 0
                     && !z.pages[p].attr.valid && !z.pages[p].attr.dirty
       case Laundered => z.pages[p].queue == Laundry && |z.laundry| > 0 && z.laundry[|z.laundry| - 1] == p
                         && z.pages[p].attr == found.(dirty := true)
       case LeftOff => z.pages[p].queue == NoQueue && z.pages[p].attr == found.(dirty := true)
  }

  /**
   A freed page is then on no queue, in no object, invalid and clean; a laundered one is last on
   the laundry queue, dirty and otherwise as it was found; one left off is on no queue and dirty.
   After that come only the operations of others.
   */
  lemma FateActs(v: Vm, m: nat, ch: Choices, skipped: set<Item>, bound: int) returns (z: Vm)
    requires At(v, m, skipped, bound) && m < |v.inactive| && v.inactive[m].Page? && Legal(v.inactive[m].p, ch)
    ensures var p := v.inactive[m].p;
            && Stands(v, m, p) && Disposed(v, m, ch).took.Some?
            && Done(z, p, Disposed(v, m, ch).took.value, v.pages[p].attr)
            && Disposed(v, m, ch).v == RemoveMarker(ApplyAll(z, ch.after), VMD_MARKER)
  {
    hide At, TakenOut, ApplyAll, FateOps, RemoveMarker, IndexOf, Done;
    AtStands(v, m, skipped, bound);
    var p := v.inactive[m].p;
    var attr := Tested(v.pages[p].attr, ch.written);
    var f := FateOf(attr, ch.dead);
    var w := ApplyAll(TakenOut(v, m), ch.before);
    TakenRecord(v, m, ch.before);
    AtUnwired(v, m, skipped, bound);
    z := ApplyAll(w, FateOps(p, attr, f));
    FateIs(w, p, attr, f);
    FateEnds(w, p, v.pages[p].attr, ch.written, ch.dead);
    JoinThree(TakenOut(v, m), ch.before, FateOps(p, attr, f), ch.after);
  }

  lemma AtUnwired(v: Vm, m: nat, skipped: set<Item>, bound: int)
    requires At(v, m, skipped, bound) && m < |v.inactive| && v.inactive[m].Page?
    ensures v.inactive[m].p in v.pages && Pageable(v, v.inactive[m].p)
  {
    hide Sorted, ListsLaundry, Counted;
  }

  lemma FateEnds(w: Vm, p: int, found: Attr, written: bool, dead: bool)
    requires p in w.pages && w.pages[p].queue == NoQueue && Pageable(w, p) && w.pages[p].attr == found
    ensures var attr := Tested(found, written);
            Done(match FateOf(attr, dead)
                 case Freed => Free(SetAttr(w, p, attr), p)
                 case Laundered => Launder(SetAttr(w, p, attr), p)
                 case LeftOff => SetAttr(w, p, attr), p, FateOf(attr, dead), found)
  {
  }
}
