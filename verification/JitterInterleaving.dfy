/** One producer and one consumer over the same ring, interleaved at the granularity of
    single sample copies. The writer copies sample by sample and then publishes; the reader
    takes the published position once, decides, and then loads ring samples in whatever
    order its splice scan and copy need, while the writer keeps going. */
module JitterInterleaving {
  import opened Layout
  import opened JitterConfig
  import opened JitterControl
  import opened JitterRuns
  import opened JitterStream

  datatype Writer = Resting | Copying(src: seq<real>, frames: nat, done: nat)

  /** One ring load: sample q was read as v. */
  datatype Load = Load(q: nat, v: real)

  /** A producing read between its decision and its return; end is the number of published
      samples it saw. */
  datatype Reader = Between | Fetching(o: Outcome, n: nat, end: nat, log: seq<Load>)

  datatype Played = Played(o: Outcome, n: nat, end: nat, block: seq<real>)

  datatype Machine = Machine(
    data: seq<real>, wp: nat, published: seq<real>, writer: Writer, reader: Reader,
    ctl: Ctl, calls: seq<Event>, played: seq<Played>)

  datatype Action =
    | Begin(src: seq<real>, frames: nat)        // writer enters Write with whole frames
    | Copy                                      // writer stores the next sample
    | Publish                                   // writer advances the write head
    | Enter(n: nat, policy: Policy)             // reader loads the write head and decides
    | Fetch(q: nat)                             // reader loads one ring sample
    | Leave(scan: seq<real>, copy: seq<real>)   // reader returns what it computed

  /** How many samples of the current write are already in the ring. */
  function InFlight(w: Writer): seq<real> {
    if w.Copying? && w.done <= |w.src| then w.src[..w.done] else []
  }

  /** First sample and number of samples a producing read touches. */
  function Base(o: Outcome, nc: int): int
    requires o.Produces()
  {
    Flat(o.at, nc)
  }

  function Span(o: Outcome, n: nat, nc: int): int {
    Flat(Needs(o, n), nc)
  }

  /** A view of the span put together from loads. */
  predicate Drawn(view: seq<real>, log: seq<Load>, base: int, span: int) {
    |view| == span && 0 <= base && forall k :: 0 <= k < |view| ==> Load(base + k, view[k]) in log
  }

  /** What the reader computes: the cut from one pass of loads, the samples from another. */
  function Computed(scan: seq<real>, copy: seq<real>, nc: nat, o: Outcome, n: nat): seq<real>
    requires nc > 0 && n > 0 && o.Produces() && (o.Insertion? ==> n >= 2)
    requires |scan| == |copy| == Span(o, n, nc)
  {
    FlatNat(n, nc);
    FlatNext(n, nc);
    if o.Drop? then
      var cut := DropCut(scan, nc, 0, n);
      CutInside(cut, n, nc);
      Merged(copy, nc, 0, Flat(n, nc), Flat(cut, nc))
    else if o.Insertion? then
      var cut := InsertCut(scan, nc, 0, n);
      CutInside(cut, n, nc);
      CutInside(cut - 1, cut, nc);
      Padded(copy, nc, 0, Flat(n, nc), Flat(cut, nc))
    else copy
  }

  ghost predicate Next(g: Geometry, s: Machine, a: Action, s': Machine)
    requires Sound(g) && Shaped(s.ctl) && |s.data| > 0
  {
    match a
    case Begin(src, frames) =>
      && s.writer.Resting?
      && frames <= g.capacity && |src| == Flat(frames, g.nc)
      && s' == s.(writer := Copying(src, frames, 0))
    case Copy =>
      && s.writer.Copying? && s.writer.done < |s.writer.src|
      && s' == s.(data := s.data[Slot(|s.published| + s.writer.done, |s.data|) := s.writer.src[s.writer.done]],
                  writer := s.writer.(done := s.writer.done + 1))
    case Publish =>
      && s.writer.Copying? && s.writer.done == |s.writer.src|
      && s' == s.(published := s.published + s.writer.src, wp := s.wp + s.writer.frames, writer := Resting,
                  calls := s.calls + [Write(s.writer.frames)])
    case Enter(n, policy) =>
      && s.reader.Between?
      && var (c, o) := ReadStep(g, policy, s.ctl, s.wp, n);
         s' == s.(ctl := c, calls := s.calls + [Read(n, policy)],
                  reader := if o.Produces() then Fetching(o, n, |s.published|, []) else Between)
    case Fetch(q) =>
      && s.reader.Fetching? && s.reader.o.Produces()
      && Base(s.reader.o, g.nc) <= q < Base(s.reader.o, g.nc) + Span(s.reader.o, s.reader.n, g.nc)
      && s' == s.(reader := s.reader.(log := s.reader.log + [Load(q, s.data[Slot(q, |s.data|)])]))
    case Leave(scan, copy) =>
      && s.reader.Fetching?
      && var (o, n) := (s.reader.o, s.reader.n);
         && n > 0 && o.Produces() && (o.Insertion? ==> n >= 2)
         && Drawn(scan, s.reader.log, Base(o, g.nc), Span(o, n, g.nc))
         && Drawn(copy, s.reader.log, Base(o, g.nc), Span(o, n, g.nc))
         && s' == s.(reader := Between,
                     played := s.played + [Played(o, n, s.reader.end, Computed(scan, copy, g.nc, o, n))])
  }

  /** The writer has not come round to the frames a read in progress is using. */
  predicate NoLap(g: Geometry, s: Machine) {
    s.reader.Fetching? && s.reader.o.Produces() ==>
      |s.published| + |InFlight(s.writer)| <= Base(s.reader.o, g.nc) + |s.data|
  }

  // ---- The invariant ----------------------------------------------------------

  /** A read in progress looks at published frames, and has loaded them as written. */
  predicate Faithful(g: Geometry, s: Machine) {
    s.reader.Fetching? ==>
      var (o, n, end) := (s.reader.o, s.reader.n, s.reader.end);
      && n > 0 && o.Produces() && o.at >= 0 && (o.Insertion? ==> n >= 2)
      && 0 <= Base(o, g.nc) && Base(o, g.nc) + Span(o, n, g.nc) <= end <= |s.published|
      && forall i :: 0 <= i < |s.reader.log| ==>
           var l := s.reader.log[i];
           && Base(o, g.nc) <= l.q < Base(o, g.nc) + Span(o, n, g.nc)
           && l.v == s.published[l.q]
  }

  /** A finished read returned exactly the block the stream held when it was called. */
  predicate PlayedRight(g: Geometry, st: seq<real>, p: Played) {
    && g.nc > 0 && p.n > 0 && p.o.Produces() && p.o.at >= 0 && (p.o.Insertion? ==> p.n >= 2)
    && p.end <= |st|
    && 0 <= Flat(p.n, g.nc)
    && Flat(p.o.at, g.nc) + Flat(p.n, g.nc) + (if p.o.Drop? then g.nc else 0) <= p.end
    && p.block == Block(st[..p.end], g.nc, p.o, p.n)
  }

  /** The reader's state is that of the call-level run with each write taken at its publish
      and each read at its load of the write head. */
  predicate Linearized(g: Geometry, s: Machine) {
    && Inv(g, Start(g))
    && var r := Exec(g, Start(g), s.calls);
       s.ctl == r.ctl && s.wp == r.wp && |s.published| == Flat(s.wp, g.nc)
  }

  predicate MachineInv(g: Geometry, s: Machine) {
    && Sound(g) && Snug(g) && Shaped(s.ctl)
    && |s.data| == Flat(g.capacity, g.nc) > 0
    && (s.writer.Copying? ==> s.writer.done <= |s.writer.src| == Flat(s.writer.frames, g.nc) <= |s.data|)
    && RingHolds(s.data, s.published + InFlight(s.writer))
    && Faithful(g, s)
    && (forall i :: 0 <= i < |s.played| ==> PlayedRight(g, s.published, s.played[i]))
    && Linearized(g, s)
  }

  ghost predicate IsInitial(g: Geometry, s: Machine) {
    && |s.data| == Flat(g.capacity, g.nc)
    && s.published == [] && s.wp == 0 && s.writer == Resting && s.reader == Between
    && s.ctl == Initial(g) && s.calls == [] && s.played == []
  }

  lemma InitialMachine(g: Geometry, s: Machine)
    requires Sound(g) && Snug(g) && IsInitial(g, s)
    ensures MachineInv(g, s)
  {
    InitialIsOk(g);
    FlatUnits(g.nc);
    FlatOrder(1, g.capacity, g.nc);
    hide Flat;
  }

  // ---- Steps ------------------------------------------------------------------

  lemma CopyKeepsRing(data: seq<real>, st: seq<real>, src: seq<real>, done: nat)
    requires done < |src| <= |data| && RingHolds(data, st + src[..done])
    ensures RingHolds(data[Slot(|st| + done, |data|) := src[done]], st + src[..done + 1])
  {
    hide Slot;
    var held := st + src[..done];
    var j := Slot(|st| + done, |data|);
    forall q | |held| + 1 - |data| <= q < |held|
      ensures Slot(q, |data|) != j
    {
      SlotsDistinct(q, |held|, |data|);
    }
    RingAppend(data, data[j := src[done]], held, [src[done]]);
    assert st + src[..done + 1] == held + [src[done]];
  }

  lemma CopyStep(g: Geometry, s: Machine, s': Machine)
    requires MachineInv(g, s) && NoLap(g, s) && NoLap(g, s') && Next(g, s, Copy, s')
    ensures MachineInv(g, s')
  {
    hide Flat;
    hide RingHolds;
    hide Slot;
    hide PlayedRight;
    hide Linearized;
    CopyKeepsRing(s.data, s.published, s.writer.src, s.writer.done);
    assert LinearizedSame(g, s, s');
    LinearizedFrame(g, s, s');
  }

  ghost predicate LinearizedSame(g: Geometry, s: Machine, s': Machine) {
    s.ctl == s'.ctl && s.calls == s'.calls && s.wp == s'.wp && |s.published| == |s'.published|
  }

  lemma LinearizedFrame(g: Geometry, s: Machine, s': Machine)
    requires Linearized(g, s) && LinearizedSame(g, s, s')
    ensures Linearized(g, s')
  {
  }

  lemma BeginStep(g: Geometry, s: Machine, src: seq<real>, frames: nat, s': Machine)
    requires MachineInv(g, s) && Next(g, s, Begin(src, frames), s')
    ensures MachineInv(g, s')
  {
    hide Flat;
    hide RingHolds;
    hide PlayedRight;
    hide Linearized;
    FlatOrder(frames, g.capacity, g.nc);
    LinearizedFrame(g, s, s');
    assert InFlight(s'.writer) == InFlight(s.writer);
  }

  lemma PublishStep(g: Geometry, s: Machine, s': Machine)
    requires MachineInv(g, s) && Next(g, s, Publish, s')
    ensures MachineInv(g, s')
  {
    hide Flat;
    hide RingHolds;
    hide Linearized;
    assert InFlight(s.writer) == s.writer.src;
    assert s'.published + InFlight(s'.writer) == s.published + s.writer.src;
    PublishLinearizes(g, s, s');
    forall i | 0 <= i < |s'.played|
      ensures PlayedRight(g, s'.published, s'.played[i])
    {
      assert s'.published[..s'.played[i].end] == s.published[..s'.played[i].end];
      assert PlayedRight(g, s.published, s.played[i]);
    }
  }

  lemma PublishLinearizes(g: Geometry, s: Machine, s': Machine)
    requires Linearized(g, s) && s.writer.Copying? && s'.ctl == s.ctl
    requires s'.wp == s.wp + s.writer.frames && s'.calls == s.calls + [Write(s.writer.frames)]
    requires |s'.published| == |s.published| + Flat(s.writer.frames, g.nc)
    ensures Linearized(g, s')
  {
    hide Flat;
    hide ReadStep;
    hide Jump;
    hide Ok;
    assert s'.calls[..|s'.calls| - 1] == s.calls;
    FlatSum(s.wp, s.writer.frames, g.nc);
  }

  lemma FetchStep(g: Geometry, s: Machine, q: nat, s': Machine)
    requires MachineInv(g, s) && NoLap(g, s) && Next(g, s, Fetch(q), s')
    ensures MachineInv(g, s')
  {
    hide Flat;
    hide Slot;
    hide PlayedRight;
    hide Linearized;
    LinearizedFrame(g, s, s');
    var held := s.published + InFlight(s.writer);
    assert q < |s.published| && |held| - |s.data| <= q;
    assert s.data[Slot(q, |s.data|)] == held[q] == s.published[q];
  }

  lemma EnterLinearizes(g: Geometry, s: Machine, n: nat, policy: Policy, s': Machine)
    requires Linearized(g, s) && Sound(g) && Snug(g)
    ensures Ok(g, s.ctl, s.wp)
    ensures (s'.calls == s.calls + [Read(n, policy)] && s'.wp == s.wp && s'.published == s.published
             && s'.ctl == ReadStep(g, policy, s.ctl, s.wp, n).0) ==> Linearized(g, s')
  {
    hide Flat;
    hide ReadStep;
    hide Jump;
    hide Ok;
    if s'.calls == s.calls + [Read(n, policy)] {
      assert s'.calls[..|s'.calls| - 1] == s.calls;
    }
  }

  /** The frames a producing read wants are among those published. */
  lemma WantsPublished(g: Geometry, policy: Policy, c: Ctl, wp: nat, n: nat)
    requires Sound(g) && Snug(g) && Ok(g, c, wp)
    ensures var o := ReadStep(g, policy, c, wp, n).1;
            o.Produces() ==>
              && n > 0 && o.at >= 0 && (o.Insertion? ==> n >= 2)
              && 0 <= Base(o, g.nc) && Base(o, g.nc) + Span(o, n, g.nc) <= Flat(wp, g.nc)
  {
    hide Flat;
    hide ReadStep;
    hide Jump;
    ReadKeeps(g, policy, c, wp, n);
    InsertNeedsTwo(g, policy, c, wp, n);
    var o := ReadStep(g, policy, c, wp, n).1;
    if o.Produces() {
      FlatSum(o.at, Needs(o, n), g.nc);
      FlatOrder(o.at + Needs(o, n), wp, g.nc);
      FlatNat(o.at, g.nc);
    }
  }

  lemma InsertNeedsTwo(g: Geometry, policy: Policy, c: Ctl, wp: int, n: nat)
    requires Sound(g) && Shaped(c)
    ensures ReadStep(g, policy, c, wp, n).1.Insertion? ==> n >= 2
    ensures ReadStep(g, policy, c, wp, n).1.Produces() ==> n > 0
  {
    hide Place;
    hide Sense;
    hide Accrue;
  }

  lemma EnterStep(g: Geometry, s: Machine, n: nat, policy: Policy, s': Machine)
    requires MachineInv(g, s) && Next(g, s, Enter(n, policy), s')
    ensures MachineInv(g, s')
  {
    hide Flat;
    hide RingHolds;
    hide PlayedRight;
    hide ReadStep;
    hide Ok;
    EnterLinearizes(g, s, n, policy, s');
    WantsPublished(g, policy, s.ctl, s.wp, n);
    StepShaped(g, s');
    assert |s.published| == Flat(s.wp, g.nc);
    hide Linearized;
  }

  lemma StepShaped(g: Geometry, s: Machine)
    requires Linearized(g, s)
    ensures Shaped(s.ctl)
  {
  }

  /** Splice arithmetic on a slice of the stream is splice arithmetic on the stream. */
  lemma {:induction false} DiscontinuityShift(st: seq<real>, base: nat, span: nat, a: nat, b: nat, channels: nat)
    requires base + span <= |st| && a + channels <= span && b + channels <= span
    ensures Discontinuity(st[base..base + span], a, b, channels) == Discontinuity(st, base + a, base + b, channels)
  {
    if channels > 0 {
      DiscontinuityShift(st, base, span, a, b, channels - 1);
    }
  }

  lemma {:induction false} GapsShift(st: seq<real>, nc: nat, base: nat, span: nat, m: nat)
    requires base + span <= |st| && 0 <= Flat(m, nc) && Flat(m, nc) + nc <= span
    ensures Gaps(st[base..base + span], nc, 0, m) == Gaps(st, nc, base, m)
  {
    if m > 0 {
      FlatNext(m - 1, nc);
      FlatNat(m - 1, nc);
      GapsShift(st, nc, base, span, m - 1);
      DiscontinuityShift(st, base, span, Flat(m - 1, nc), Flat(m, nc), nc);
      hide Flat;
      hide Discontinuity;
    }
  }

  lemma MergedShift(st: seq<real>, nc: nat, base: nat, len: nat, c: nat)
    requires base + len + nc <= |st| && c + nc <= len
    ensures Merged(st[base..base + len + nc], nc, 0, len, c) == Merged(st, nc, base, len, c)
  {
  }

  lemma PaddedShift(st: seq<real>, nc: nat, base: nat, len: nat, c: nat)
    requires base + len <= |st| && nc <= c && c + nc <= len
    ensures Padded(st[base..base + len], nc, 0, len, c) == Padded(st, nc, base, len, c)
  {
  }

  lemma ComputedIsBlock(st: seq<real>, nc: nat, o: Outcome, n: nat)
    requires nc > 0 && n > 0 && o.Produces() && o.at >= 0 && (o.Insertion? ==> n >= 2)
    requires 0 <= Base(o, nc) && 0 <= Flat(n, nc) && Flat(n + 1, nc) == Flat(n, nc) + nc
    requires Base(o, nc) + Span(o, n, nc) <= |st|
    ensures 0 <= Span(o, n, nc)
    ensures var view := st[Base(o, nc)..Base(o, nc) + Span(o, n, nc)];
            Computed(view, view, nc, o, n) == Block(st, nc, o, n)
  {
    hide Flat;
    hide DropCut;
    hide InsertCut;
    hide Merged;
    hide Padded;
    var a, len := Base(o, nc), Flat(n, nc);
    if o.Drop? {
      CutShift(st, nc, a, n);
      var cut := DropCut(st, nc, a, n);
      DropCutInside(st, nc, a, n);
      CutInside(cut, n, nc);
      MergedShift(st, nc, a, len, Flat(cut, nc));
    } else if o.Insertion? {
      InsertShift(st, nc, a, n);
      var cut := InsertCut(st, nc, a, n);
      CutInside(cut, n, nc);
      CutInside(cut - 1, cut, nc);
      PaddedShift(st, nc, a, len, Flat(cut, nc));
    }
  }

  lemma DropCutInside(st: seq<real>, nc: nat, a: nat, n: nat)
    requires n > 0 && a + Flat(n, nc) + nc <= |st|
    ensures DropCut(st, nc, a, n) < n
  {
  }

  lemma CutShift(st: seq<real>, nc: nat, a: nat, n: nat)
    requires n > 0 && 0 <= Flat(n, nc) && a + Flat(n, nc) + nc <= |st|
    ensures DropCut(st[a..a + Flat(n, nc) + nc], nc, 0, n) == DropCut(st, nc, a, n)
  {
    hide Flat;
    GapsShift(st, nc, a, Flat(n, nc) + nc, n);
    hide Gaps;
    hide LastArgMin;
  }

  lemma InsertShift(st: seq<real>, nc: nat, a: nat, n: nat)
    requires n > 1 && 0 <= Flat(n, nc) && a + Flat(n, nc) <= |st|
    ensures InsertCut(st[a..a + Flat(n, nc)], nc, 0, n) == InsertCut(st, nc, a, n)
    ensures 1 <= InsertCut(st, nc, a, n) < n
  {
    hide Flat;
    FlatNext(n - 1, nc);
    FlatNat(n - 1, nc);
    GapsShift(st, nc, a, Flat(n, nc), n - 1);
    hide Gaps;
    hide LastArgMin;
  }

  lemma DrawnIsStream(view: seq<real>, log: seq<Load>, st: seq<real>, base: int, span: int)
    requires Drawn(view, log, base, span) && 0 <= span && base + span <= |st|
    requires forall i :: 0 <= i < |log| ==> base <= log[i].q < base + span && log[i].v == st[log[i].q]
    ensures view == st[base..base + span]
  {
    forall k | 0 <= k < |view|
      ensures view[k] == st[base + k]
    {
      assert Load(base + k, view[k]) in log;
    }
  }

  lemma LeavePlaysRight(g: Geometry, s: Machine, scan: seq<real>, copy: seq<real>)
    requires g.nc > 0 && s.reader.Fetching? && Faithful(g, s)
    requires Drawn(scan, s.reader.log, Base(s.reader.o, g.nc), Span(s.reader.o, s.reader.n, g.nc))
    requires Drawn(copy, s.reader.log, Base(s.reader.o, g.nc), Span(s.reader.o, s.reader.n, g.nc))
    ensures PlayedRight(g, s.published, Played(s.reader.o, s.reader.n, s.reader.end,
                                               Computed(scan, copy, g.nc, s.reader.o, s.reader.n)))
  {
    hide Flat;
    hide Computed;
    hide Block;
    var (o, n, end) := (s.reader.o, s.reader.n, s.reader.end);
    FlatNat(n, g.nc);
    FlatNext(n, g.nc);
    var st := s.published[..end];
    var base, span := Base(o, g.nc), Span(o, n, g.nc);
    assert 0 <= span;
    DrawnIsStream(scan, s.reader.log, s.published, base, span);
    DrawnIsStream(copy, s.reader.log, s.published, base, span);
    assert st[base..base + span] == s.published[base..base + span];
    ComputedIsBlock(st, g.nc, o, n);
  }

  lemma LeaveStep(g: Geometry, s: Machine, scan: seq<real>, copy: seq<real>, s': Machine)
    requires MachineInv(g, s) && Next(g, s, Leave(scan, copy), s')
    ensures MachineInv(g, s')
  {
    hide Flat;
    hide RingHolds;
    hide Linearized;
    hide Computed;
    hide Drawn;
    hide PlayedRight;
    LinearizedFrame(g, s, s');
    LeavePlaysRight(g, s, scan, copy);
  }

  // ---- Runs -------------------------------------------------------------------

  ghost predicate IsRun(g: Geometry, ss: seq<Machine>, acts: seq<Action>) {
    && Sound(g) && Snug(g)
    && |ss| == |acts| + 1 && IsInitial(g, ss[0])
    && (forall i :: 0 <= i < |ss| ==> NoLap(g, ss[i]))
    && (forall i :: 0 <= i < |acts| ==>
          Shaped(ss[i].ctl) && |ss[i].data| > 0 && Next(g, ss[i], acts[i], ss[i + 1]))
  }

  lemma StepKeeps(g: Geometry, s: Machine, a: Action, s': Machine)
    requires MachineInv(g, s) && NoLap(g, s) && NoLap(g, s') && Next(g, s, a, s')
    ensures MachineInv(g, s')
  {
    hide MachineInv;
    hide NoLap;
    match a
    case Begin(src, frames) => BeginStep(g, s, src, frames, s');
    case Copy => CopyStep(g, s, s');
    case Publish => PublishStep(g, s, s');
    case Enter(n, policy) => EnterStep(g, s, n, policy, s');
    case Fetch(q) => FetchStep(g, s, q, s');
    case Leave(scan, copy) => LeaveStep(g, s, scan, copy, s');
  }

  lemma {:induction false} RunKeeps(g: Geometry, ss: seq<Machine>, acts: seq<Action>, i: nat)
    requires IsRun(g, ss, acts) && i < |ss|
    ensures MachineInv(g, ss[i])
  {
    hide MachineInv;
    hide Next;
    hide IsInitial;
    hide NoLap;
    hide Shaped;
    if i == 0 {
      InitialMachine(g, ss[0]);
    } else {
      RunKeeps(g, ss, acts, i - 1);
      assert Next(g, ss[i - 1], acts[i - 1], ss[i - 1 + 1]);
      StepKeeps(g, ss[i - 1], acts[i - 1], ss[i]);
    }
  }

  /** The ring refines the stream under every interleaving: whatever the order of the writer's
      copies and publishes and the reader's loads, as long as the writer does not come round
      to frames in use, every finished read returned exactly the block of the stream its
      outcome names, and the reader's state is the one the same calls reach when run one
      after the other. */
  lemma RingRefinesStream(g: Geometry, ss: seq<Machine>, acts: seq<Action>, i: nat)
    requires IsRun(g, ss, acts) && i < |ss|
    ensures forall k :: 0 <= k < |ss[i].played| ==> PlayedRight(g, ss[i].published, ss[i].played[k])
    ensures Linearized(g, ss[i])
    ensures Faithful(g, ss[i])
  {
    RunKeeps(g, ss, acts, i);
  }

  /** In a roomy ring the placement leaves the writer room: with a write of at most w frames under way when a
      read decides, the writer can publish or copy another r frames before it laps. */
  lemma ReaderHasSlack(g: Geometry, s: Machine, n: nat, policy: Policy, s': Machine, k: nat)
    requires MachineInv(g, s) && Roomy(g) && Next(g, s, Enter(n, policy), s') && s'.reader.Fetching?
    requires k <= g.w && |InFlight(s.writer)| <= Flat(k, g.nc)
    ensures |s'.published| + |InFlight(s'.writer)| + Flat(g.r, g.nc) <= Base(s'.reader.o, g.nc) + |s'.data|
  {
    hide Flat;
    hide RingHolds;
    hide ReadStep;
    hide Ok;
    hide PlayedRight;
    EnterLinearizes(g, s, n, policy, s');
    PlacedClear(g, policy, s.ctl, s.wp, n);
    var o := s'.reader.o;
    FlatOrder(s.wp + k + g.r, o.at + g.capacity, g.nc);
    FlatSum(s.wp, k, g.nc);
    FlatSum(s.wp + k, g.r, g.nc);
    FlatSum(o.at, g.capacity, g.nc);
    assert |s.published| == Flat(s.wp, g.nc);
    hide Linearized;
  }

  lemma PlacedClear(g: Geometry, policy: Policy, c: Ctl, wp: int, n: nat)
    requires Sound(g) && Roomy(g) && Ok(g, c, wp)
    ensures var o := ReadStep(g, policy, c, wp, n).1;
            o.Produces() ==> wp - o.at <= g.capacity - (g.w + g.r)
  {
    hide Sense;
    hide Accrue;
    hide Place;
    if n > 0 && !(c.readPos == 0 && wp < c.setpoint) {
      PlaceKeeps(g, c, wp);
      var c1 := Place(g, c, wp);
      SenseKeeps(g, policy, c1, wp, wp - c1.readPos);
    }
  }
}
