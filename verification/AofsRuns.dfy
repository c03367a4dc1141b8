/**
 Whole runs of the file operations: when every chain stays long enough for its file's size,
 and two short runs after which it does not, or old bytes come back.
 */
module AofsRuns {
  import opened Prelude
  import opened AofsDisk
  import opened Aofs
  import opened AofsTruncate
  import opened AofsWrite

  /** A disk and the files on it. */
  datatype State = State(d: Disk, files: Files)

  /** An operation that succeeded, or a truncate that ran out of blocks. */
  datatype Event =
    | Created(f: string) | Wrote(f: string, buf: seq<Byte>, offset: nat)
    | Truncated(f: string, size: nat) | Filled(f: string, size: nat) | Deleted(f: string)

  ghost predicate Sound(s: State) {
    Holds(s.d, s.files)
  }

  /** What each operation is proved to do. */
  ghost predicate Step(s: State, e: Event, t: State)
    requires Sound(s) && Sound(t)
  {
    match e
    case Created(f) =>
      exists b :: b in FreeBlocks(s.d) && IsIndex(b) && f !in s.files && t.files == s.files[f := [b]]
                  && FileSize(t.d, [b]) == 0 && OthersKept(s.d, s.files, t.d, t.files, f)
    case Wrote(f, buf, offset) => WriteResult(s.d, s.files, t.d, t.files, f, buf, offset)
    case Truncated(f, size) => f in s.files && TruncateResult(s.d, s.files, t.d, t.files, f, size)
    case Filled(f, size) => f in s.files && TruncateFailed(s.d, s.files, t.d, t.files, f, size)
    case Deleted(f) => t.files == s.files - {f} && OthersKept(s.d, s.files, t.d, t.files, f)
  }

  ghost predicate FileFits(s: State, f: string)
    requires Sound(s)
  {
    f in s.files ==> |s.files[f]| > 0 && IsIndex(s.files[f][0]) && Fits(s.d, s.files[f])
  }

  /** Every chain is long enough for its file's size. */
  ghost predicate AllFit(s: State)
    requires Sound(s)
  {
    forall f :: f in s.files ==> FileFits(s, f)
  }

  /**
   A truncate that cuts the chain, or finds a block beyond the whole blocks of the old size, or
   asks for whole blocks.
   */
  ghost predicate Careful(s: State, e: Event)
    requires Sound(s)
  {
    e.Truncated? && e.f in s.files ==>
      var c := s.files[e.f];
      |c| > 0 && IsIndex(c[0]) &&
      var st := FileSize(s.d, c);
      Cuts(st, e.size) || |c| > st / BLOCK_DATA || e.size % BLOCK_DATA == 0
  }

  lemma KeptFits(s: State, t: State, f: string, g: string)
    requires Sound(s) && Sound(t) && OthersKept(s.d, s.files, t.d, t.files, f) && g != f && FileFits(s, g)
    ensures FileFits(t, g)
  {
    if g in t.files {
      assert g in t.files.Keys - {f};
      assert g in s.files.Keys - {f};
    }
  }

  lemma OthersOfStep(s: State, e: Event, t: State, g: string)
    requires Sound(s) && Sound(t) && AllFit(s) && Step(s, e, t) && g in t.files && g != e.f
    ensures FileFits(t, g)
  {
    hide Holds, OthersKept, Content, FreeBlocks, Set, Fits;
    KeptFits(s, t, e.f, g);
  }

  lemma CreatedFits(s: State, e: Event, t: State)
    requires Sound(s) && Sound(t) && Step(s, e, t) && e.Created?
    ensures FileFits(t, e.f)
  {
    hide Holds, OthersKept, FreeBlocks;
  }

  lemma WroteFits(s: State, e: Event, t: State)
    requires Sound(s) && Sound(t) && Step(s, e, t) && e.Wrote? && FileFits(s, e.f)
    ensures FileFits(t, e.f)
  {
    hide Holds, OthersKept, Content, FreeBlocks, Set, Linked, NewLength;
    HeldChain(t.d, t.files, e.f);
    if e.f in s.files {
      HeldChain(s.d, s.files, e.f);
    }
  }

  lemma FilledFits(s: State, e: Event, t: State)
    requires Sound(s) && Sound(t) && Step(s, e, t) && e.Filled? && FileFits(s, e.f)
    ensures FileFits(t, e.f)
  {
    hide Holds, OthersKept, Content, FreeBlocks, Set, Linked;
    HeldChain(t.d, t.files, e.f);
    HeldChain(s.d, s.files, e.f);
  }

  lemma TruncatedFits(s: State, e: Event, t: State)
    requires Sound(s) && Sound(t) && Step(s, e, t) && e.Truncated?
    ensures e.f in t.files && (FileFits(t, e.f) <==> Careful(s, e))
  {
    hide Holds, OthersKept, Content, FreeBlocks, Set, Linked;
    TruncateFits(s.d, s.files, t.d, t.files, e.f, e.size);
    HeldChain(t.d, t.files, e.f);
    HeldChain(s.d, s.files, e.f);
  }

  /** One operation keeps every chain long enough exactly when it is careful. */
  lemma StepFits(s: State, e: Event, t: State)
    requires Sound(s) && Sound(t) && AllFit(s) && Step(s, e, t)
    ensures AllFit(t) <==> Careful(s, e)
  {
    hide Holds, OthersKept, FileFits, Step, Fits, Sound;
    forall g | g in t.files && g != e.f ensures FileFits(t, g) {
      OthersOfStep(s, e, t, g);
    }
    FitsOrNot(s, e.f);
    match e
    case Created(f) => CreatedFits(s, e, t);
    case Wrote(f, buf, offset) => WroteFits(s, e, t);
    case Filled(f, size) => FilledFits(s, e, t);
    case Truncated(f, size) => TruncatedFits(s, e, t);
    case Deleted(f) => DeletedGone(s, e, t);
  }

  lemma FitsOrNot(s: State, f: string)
    requires Sound(s) && AllFit(s)
    ensures FileFits(s, f)
  {
  }

  lemma DeletedGone(s: State, e: Event, t: State)
    requires Sound(s) && Sound(t) && Step(s, e, t) && e.Deleted?
    ensures e.f !in t.files
  {
  }

  /** A run: `states[i]` goes to `states[i + 1]` by `events[i]`. */
  ghost predicate Run(states: seq<State>, events: seq<Event>) {
    && |states| == |events| + 1
    && (forall i :: 0 <= i < |states| ==> Sound(states[i]))
    && (forall i :: 0 <= i < |events| ==> Step(states[i], events[i], states[i + 1]))
  }

  /** Over a run from an empty disk every chain is long enough, up to the first truncate that is not careful. */
  lemma {:induction false} RunFits(states: seq<State>, events: seq<Event>, n: nat)
    requires Run(states, events) && states[0].files == map[] && n <= |events|
    requires forall i :: 0 <= i < n ==> Careful(states[i], events[i])
    ensures AllFit(states[n])
    decreases n
  {
    hide Sound, Step, Careful, FileFits;
    if n > 0 {
      RunFits(states, events, n - 1);
      assert Step(states[n - 1], events[n - 1], states[n - 1 + 1]);
      StepFits(states[n - 1], events[n - 1], states[n]);
    }
  }

  // ----- two short runs -----

  /** A file of exactly one block, truncated to one byte more, has no block for that byte. */
  lemma OneByteTooMany(s: State, t: State, u: State, f: string, buf: seq<Byte>)
    requires Sound(s) && Sound(t) && Sound(u) && f !in s.files && |buf| == BLOCK_DATA
    requires Step(s, Wrote(f, buf, 0), t) && Step(t, Truncated(f, BLOCK_DATA + 1), u)
    ensures f in u.files && |u.files[f]| == 1 && !FileFits(u, f)
  {
    hide Holds, OthersKept, Content, FreeBlocks, Set, Linked;
    HeldChain(t.d, t.files, f);
    HeldChain(u.d, u.files, f);
  }

  /** While the chain fits the size, a write goes astray only for want of free blocks. */
  lemma FitsNeedsRoomOnly(s: State, f: string, size: nat, offset: nat)
    requires Sound(s) && f in s.files && FileFits(s, f)
    ensures |s.files[f]| > 0 && IsIndex(s.files[f][0])
    ensures var len, start := |s.files[f]|, WriteStart(s.d, s.files, f, offset);
            MayWrite(s.d, s.files, f, size, offset) <==> |FreeBlocks(s.d)| >= NewLength(len, start, size) - len
  {
    hide Holds, FreeBlocks, NewLength;
    HeldChain(s.d, s.files, f);
  }

  /** After that truncate the next write at the end of the file goes astray, whatever room there is. */
  lemma NextWriteIsLost(s: State, t: State, u: State, f: string, buf: seq<Byte>, size: nat)
    requires Sound(s) && Sound(t) && Sound(u) && f !in s.files && |buf| == BLOCK_DATA && size > 0
    requires Step(s, Wrote(f, buf, 0), t) && Step(t, Truncated(f, BLOCK_DATA + 1), u)
    ensures !MayWrite(u.d, u.files, f, size, BLOCK_DATA + 1)
  {
    hide Holds, OthersKept, Content, FreeBlocks, Set, Linked;
    HeldChain(t.d, t.files, f);
    HeldChain(u.d, u.files, f);
  }

  /** Two bytes written, one cut off and the file grown back: the second byte is not zero but the one written. */
  lemma OldByteComesBack(s: State, t: State, u: State, v: State, f: string, x: Byte, y: Byte)
    requires Sound(s) && Sound(t) && Sound(u) && Sound(v) && f !in s.files
    requires Step(s, Wrote(f, [x, y], 0), t) && Step(t, Truncated(f, 1), u) && Step(u, Truncated(f, 2), v)
    ensures f in v.files && InRange(v.files[f]) && |v.files[f]| == 1 && FileSize(v.d, v.files[f]) == 2
    ensures Content(v.d, v.files[f])[..2] == [x, y]
  {
    hide Holds, OthersKept, Content, FreeBlocks, Set, Linked;
    HeldChain(t.d, t.files, f);
    HeldChain(u.d, u.files, f);
    HeldChain(v.d, v.files, f);
    assert Content(t.d, t.files[f])[..2] == [x, y];
  }

  // ----- runs of an image -----

  /** What a caller asks of an image. */
  datatype Request =
    | Create(f: string) | Write(f: string, buf: seq<Byte>, offset: nat)
    | Truncate(f: string, size: nat) | Delete(f: string)

  ghost function StateOf(image: Image): State
    reads image, image.bits, image.blocks
    requires image.Valid()
  {
    State(image.Value(), image.files)
  }

  /** The image is where the run ends. */
  ghost predicate Follows(image: Image, states: seq<State>, events: seq<Event>)
    reads image, image.bits, image.blocks
  {
    Run(states, events) && image.Valid() && states[|events|] == StateOf(image)
  }

  /** What the caller owes: no second file of a name, and no write beyond the chain or the space. */
  ghost predicate Permitted(s: State, r: Request)
    requires Sound(s)
  {
    match r
    case Create(f) => f !in s.files
    case Write(f, buf, offset) => MayWrite(s.d, s.files, f, |buf|, offset)
    case _ => true
  }

  /** The event a request that succeeded, or ran out of blocks, is in a run. */
  function EventOf(r: Request, full: bool): Event {
    match r
    case Create(f) => Created(f)
    case Write(f, buf, offset) => Wrote(f, buf, offset)
    case Truncate(f, size) => if full then Filled(f, size) else Truncated(f, size)
    case Delete(f) => Deleted(f)
  }

  lemma RunGrows(states: seq<State>, events: seq<Event>, e: Event, t: State)
    requires Run(states, events) && Sound(t) && Step(states[|events|], e, t)
    ensures Run(states + [t], events + [e])
  {
    hide Sound, Step;
    var ss, es := states + [t], events + [e];
    assert forall i :: 0 <= i < |ss| ==> Sound(ss[i]);
    forall i | 0 <= i < |es| ensures Step(ss[i], es[i], ss[i + 1]) {
      assert i < |events| ==> Step(states[i], events[i], states[i + 1]);
    }
  }

  /** No file to work on, or no block for a new one. */
  ghost predicate Refused(s: State, r: Request)
    requires Sound(s)
  {
    match r
    case Create(f) => FreeBlocks(s.d) == {}
    case Write(f, buf, offset) => false
    case Truncate(f, _) => f !in s.files
    case Delete(f) => f !in s.files
  }

  /** One request served by the image: the event it was, or None when nothing was done. */
  method Serve(image: Image, r: Request) returns (e: Option<Event>)
    requires image.Valid() && Permitted(StateOf(image), r)
    modifies image, image.bits, image.blocks
    ensures image.Valid()
    ensures e.None? ==> StateOf(image) == old(StateOf(image))
    ensures e.None? <==> Refused(old(StateOf(image)), r)
    ensures e.Some? ==> Step(old(StateOf(image)), e.value, StateOf(image)) && e.value == EventOf(r, e.value.Filled?)
  {
    hide Holds, OthersKept, Content, Set, WriteResult, TruncateResult, TruncateFailed;
    match r
    case Create(f) =>
      var b := image.CreateFile(f);
      e := if b == -1 then None else Some(Created(f));
    case Write(f, buf, offset) =>
      var lost, n := image.WriteFile(f, buf, offset);
      e := Some(Wrote(f, buf, offset));
    case Truncate(f, size) =>
      var n := image.TruncateFile(f, size);
      e := if n == -ENOENT then None else if n == 0 then Some(Truncated(f, size)) else Some(Filled(f, size));
    case Delete(f) =>
      var n := image.DeleteFile(f);
      e := if n == 0 then Some(Deleted(f)) else None;
  }

  /** A run of the image goes on with whatever is asked of it next. */
  method Continue(image: Image, ghost states: seq<State>, ghost events: seq<Event>, r: Request)
      returns (e: Option<Event>, ghost states': seq<State>, ghost events': seq<Event>)
    requires Follows(image, states, events) && Permitted(StateOf(image), r)
    modifies image, image.bits, image.blocks
    ensures Follows(image, states', events') && states <= states' && events <= events'
    ensures events' == if e.Some? then events + [e.value] else events
    ensures e.None? <==> Refused(old(StateOf(image)), r)
    ensures e.Some? ==> e.value == EventOf(r, e.value.Filled?)
  {
    hide Holds, Step, Permitted, Refused, Run;
    RunLength(states, events);
    states', events' := states, events;
    e := Serve(image, r);
    if e.Some? {
      RunGrows(states, events, e.value, StateOf(image));
      states', events' := states + [StateOf(image)], events + [e.value];
    }
  }

  lemma RunLength(states: seq<State>, events: seq<Event>)
    requires Run(states, events)
    ensures |states| == |events| + 1 && Sound(states[|events|])
  {
  }

  /** A new image is the start of a run. */
  method NewImage() returns (image: Image, ghost states: seq<State>)
    ensures Follows(image, states, []) && states[0].files == map[] && FreeBlocks(image.Value()) == AllIndices()
    ensures fresh(image) && fresh(image.bits) && fresh(image.blocks)
  {
    image := new Image();
    states := [StateOf(image)];
  }

  lemma FirstWrite(s: State, f: string, buf: seq<Byte>)
    requires Sound(s) && s.files == map[] && FreeBlocks(s.d) == AllIndices() && |buf| <= BLOCK_DATA
    ensures Permitted(s, Write(f, buf, 0))
  {
    assert 0 in FreeBlocks(s.d);
  }

  lemma FirstWrote(states: seq<State>, events: seq<Event>, f: string, buf: seq<Byte>)
    requires Run(states, events) && events == [Wrote(f, buf, 0)]
    ensures f in states[1].files
  {
    hide Sound, OthersKept, Content, Linked, FreeBlocks, Set;
    assert Step(states[0], events[0], states[0 + 1]);
  }

  /** The truncate of a run that wrote one block first: one byte more, and it does not run out of blocks. */
  lemma OneByteEnds(states: seq<State>, events: seq<Event>, f: string, buf: seq<Byte>)
    requires Run(states, events) && |events| == 2 && f !in states[0].files && |buf| == BLOCK_DATA
    requires events[0] == Wrote(f, buf, 0)
    requires events[1] == EventOf(Truncate(f, BLOCK_DATA + 1), events[1].Filled?)
    ensures events[1] == Truncated(f, BLOCK_DATA + 1)
    ensures f in states[2].files && |states[2].files[f]| == 1 && !FileFits(states[2], f)
  {
    hide Sound, Step, FileFits;
    var s, t, u := states[0], states[1], states[2];
    assert Step(s, events[0], t) && Step(t, events[1], states[1 + 1]);
    NeverFull(s, t, u, f, buf);
    OneByteTooMany(s, t, u, f, buf);
  }

  lemma NeverFull(s: State, t: State, u: State, f: string, buf: seq<Byte>)
    requires Sound(s) && Sound(t) && Sound(u) && f !in s.files && |buf| == BLOCK_DATA && Step(s, Wrote(f, buf, 0), t)
    ensures !Step(t, Filled(f, BLOCK_DATA + 1), u)
  {
    hide Holds, OthersKept, Content, FreeBlocks, Set, Linked;
  }

  /** An image on which one careless truncate leaves a file of one block with a size of one block and a byte. */
  method OneByteRun(f: string, buf: seq<Byte>)
      returns (image: Image, ghost states: seq<State>, ghost events: seq<Event>)
    requires |buf| == BLOCK_DATA
    ensures Follows(image, states, events) && states[0].files == map[]
    ensures events == [Wrote(f, buf, 0), Truncated(f, BLOCK_DATA + 1)]
    ensures f in image.files && |image.files[f]| == 1 && !FileFits(StateOf(image), f)
  {
    hide Holds, Step, FileFits, Run;
    var e;
    ghost var ss;
    image, ss := NewImage();
    RunLength(ss, []);
    FirstWrite(StateOf(image), f, buf);
    e, states, events := Continue(image, ss, [], Write(f, buf, 0));
    RunLength(states, events);
    FirstWrote(states, events, f, buf);
    assert states[0] == ss[0];
    ss := states;
    e, states, events := Continue(image, states, events, Truncate(f, BLOCK_DATA + 1));
    assert states[0] == ss[0];
    OneByteEnds(states, events, f, buf);
  }

  lemma CutNeverFull(s: State, t: State, u: State, v: State, f: string, x: Byte, y: Byte)
    requires Sound(s) && Sound(t) && Sound(u) && Sound(v) && f !in s.files && Step(s, Wrote(f, [x, y], 0), t)
    ensures !Step(t, Filled(f, 1), u)
    ensures Step(t, Truncated(f, 1), u) ==> f in u.files && !Step(u, Filled(f, 2), v)
  {
    hide Holds, OthersKept, Content, FreeBlocks, Set, Linked;
  }

  /** The two truncates of a run that wrote two bytes first. */
  lemma OldByteEnds(states: seq<State>, events: seq<Event>, f: string, x: Byte, y: Byte)
    requires Run(states, events) && |events| == 3 && f !in states[0].files
    requires events[0] == Wrote(f, [x, y], 0)
    requires events[1] == EventOf(Truncate(f, 1), events[1].Filled?)
    requires events[2] == EventOf(Truncate(f, 2), events[2].Filled?)
    ensures events[1] == Truncated(f, 1) && events[2] == Truncated(f, 2)
    ensures var v := states[3];
            && f in v.files && InRange(v.files[f]) && |v.files[f]| == 1
            && Shaped(v.d) && FileSize(v.d, v.files[f]) == 2 && Content(v.d, v.files[f])[..2] == [x, y]
  {
    hide Holds, Step, Content, FreeBlocks, Linked;
    var s, t, u, v := states[0], states[1], states[2], states[3];
    assert Step(s, events[0], t) && Step(t, events[1], states[1 + 1]) && Step(u, events[2], states[2 + 1]);
    CutNeverFull(s, t, u, v, f, x, y);
    OldByteComesBack(s, t, u, v, f, x, y);
    HeldShape(v.d, v.files);
  }

  /** An image on which a byte cut off by one truncate is there again after the next. */
  method OldByteRun(f: string, x: Byte, y: Byte)
      returns (image: Image, ghost states: seq<State>, ghost events: seq<Event>)
    ensures Follows(image, states, events) && states[0].files == map[]
    ensures events == [Wrote(f, [x, y], 0), Truncated(f, 1), Truncated(f, 2)]
    ensures f in image.files && InRange(image.files[f]) && |image.files[f]| == 1
    ensures FileSize(image.Value(), image.files[f]) == 2 && Content(image.Value(), image.files[f])[..2] == [x, y]
  {
    hide Holds, Step, Content, FreeBlocks, Run;
    var e;
    ghost var ss;
    image, ss := NewImage();
    RunLength(ss, []);
    FirstWrite(StateOf(image), f, [x, y]);
    e, states, events := Continue(image, ss, [], Write(f, [x, y], 0));
    RunLength(states, events);
    FirstWrote(states, events, f, [x, y]);
    assert states[0] == ss[0];
    ss := states;
    e, states, events := Continue(image, states, events, Truncate(f, 1));
    RunLength(states, events);
    FirstCut(states, events, f, x, y);
    assert states[0] == ss[0];
    ss := states;
    e, states, events := Continue(image, states, events, Truncate(f, 2));
    assert states[0] == ss[0];
    OldByteEnds(states, events, f, x, y);
  }

  lemma FirstCut(states: seq<State>, events: seq<Event>, f: string, x: Byte, y: Byte)
    requires Run(states, events) && |events| == 2 && f !in states[0].files
    requires events[0] == Wrote(f, [x, y], 0)
    requires events[1] == EventOf(Truncate(f, 1), events[1].Filled?)
    ensures f in states[2].files
  {
    hide Holds, Step, Content, FreeBlocks, Linked;
    var s, t, u := states[0], states[1], states[2];
    assert Step(s, events[0], t) && Step(t, events[1], states[1 + 1]);
    CutNeverFull(s, t, u, u, f, x, y);
  }
}
