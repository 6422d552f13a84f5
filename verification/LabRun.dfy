/** The lab's runner: a jitter buffer driven by contiguous ramp writes and reads, with the decoder
    listening to nothing but its output. */
module LabRun {
  import opened Layout
  import opened JitterConfig
  import opened JitterControl
  import opened JitterServo
  import opened JitterRuns
  import opened JitterStream
  import opened JitterBuffer
  import opened RampCodec
  import opened Ledger
  import opened DecodeExact

  /** One scheduled call: write or read that many frames. */
  datatype Call = WriteCall(k: nat) | ReadCall(n: nat)

  function EventOf(c: Call, policy: Policy): Event {
    match c
    case WriteCall(k) => Write(k)
    case ReadCall(n) => Read(n, policy)
  }

  function Events(calls: seq<Call>, policy: Policy): (evs: seq<Event>)
    ensures |evs| == |calls|
  {
    seq(|calls|, i requires 0 <= i < |calls| => EventOf(calls[i], policy))
  }

  /** Buffer and decoder are in the states of the value-level rig, and the stream is the ramp. */
  ghost predicate Follows(b: Buffer, dec: Decoder, r: Rig)
    reads b, b.data, dec
  {
    && b.Valid() && b.Control() == r.s.ctl && b.writePos == r.s.wp && dec.State() == r.d
    && dec.nc == b.g.nc && b.written == RampFrames(0, b.writePos, b.g.nc)
  }

  /** What a read hands over, on channel 0, is the rig's output. */
  lemma HandsOver(g: Geometry, policy: Policy, c: Ctl, wp: nat, n: nat, dst: seq<real>, before: seq<real>, ok: bool)
    requires Sound(g) && Snug(g) && Ok(g, c, wp) && |dst| == Flat(n, g.nc) && |before| == |dst|
    requires Delivers(RampFrames(0, wp, g.nc), g.nc, ReadStep(g, policy, c, wp, n).1, n, dst, before, ok)
    ensures Channel0(dst, g.nc) == Output(g, policy, c, wp, n)
  {
    hide ReadStep;
    hide RampFrames;
    WantsWritten(g, policy, c, wp, n);
    var o := ReadStep(g, policy, c, wp, n).1;
    BlockLength(n, g.nc);
    if o.Produces() {
      WholeBlock(before, Block(RampFrames(0, wp, g.nc), g.nc, o, n));
      hide Channel0;
      hide Block;
    } else if o.Silent() {
      var x, y := Channel0(dst, g.nc), Zeros(n);
      forall f | 0 <= f < n
        ensures x[f] == y[f]
      {
        FrameStart(f, |dst|, g.nc);
      }
    }
  }

  lemma WholeBlock(before: seq<real>, block: seq<real>)
    requires |block| == |before|
    ensures Over(before, 0, block) == block
  {
  }

  method WriteRamp(b: Buffer, k: nat)
    requires b.Valid() && k <= b.g.capacity && b.written == RampFrames(0, b.writePos, b.g.nc)
    modifies b`writePos, b`written, b.data
    ensures b.Valid() && b.Control() == old(b.Control()) && b.writePos == old(b.writePos) + k
    ensures b.written == RampFrames(0, b.writePos, b.g.nc)
  {
    FlatNat(k, b.g.nc);
    var src := new real[Flat(k, b.g.nc)];
    FillRamp(src, b.writePos, k, b.g.nc);
    RampFramesJoin(0, b.writePos, k, b.g.nc);
    BlockLength(k, b.g.nc);
    WholeClip(src[..], b.g.nc, b.g.capacity, k);
    hide Flat;
    hide RampFrames;
    hide Clipped;
    b.Write(src[..]);
  }

  lemma WholeClip(src: seq<real>, nc: nat, capacity: nat, k: nat)
    requires nc > 0 && |src| == Flat(k, nc) && k <= capacity
    ensures Clipped(src, nc, capacity) == src && |src| / nc == k
  {
    BlockLength(k, nc);
    hide Flat;
  }

  method ReadOnce(b: Buffer, dec: Decoder, n: nat, time: int)
    requires b.Valid() && dec.nc == b.g.nc && b.written == RampFrames(0, b.writePos, b.g.nc)
    modifies b, dec
    ensures b.Valid() && b.writePos == old(b.writePos) && b.written == old(b.written)
    ensures b.Control() == ReadStep(b.g, PolicyOf(b.g, b.ctrl), old(b.Control()), b.writePos, n).0
    ensures old(b.Valid()) && dec.State()
            == Feed(old(dec.State()), time, Output(b.g, PolicyOf(b.g, b.ctrl), old(b.Control()), b.writePos, n))
  {
    hide ReadStep;
    hide RampFrames;
    hide Feed;
    hide RingHolds;
    ghost var c := b.Control();
    ghost var wp := b.writePos;
    FlatNat(n, b.g.nc);
    BlockLength(n, b.g.nc);
    hide Flat;
    var dst := new real[Flat(n, b.g.nc)];
    ghost var before := dst[..];
    var ok := b.Read(dst);
    HandsOver(b.g, PolicyOf(b.g, b.ctrl), c, wp, n, dst[..], before, ok);
    hide Output;
    hide Delivers;
    var _ := dec.FeedBlock(time, dst[..]);
  }

  lemma RigSnoc(g: Geometry, calls: seq<Call>, policy: Policy, i: nat)
    requires Inv(g, Start(g)) && i < |calls|
    ensures RigExec(g, Events(calls[..i + 1], policy))
            == RigStep(g, RigExec(g, Events(calls[..i], policy)), EventOf(calls[i], policy), i)
  {
    hide RigStep;
    var evs := Events(calls[..i + 1], policy);
    assert evs[..i] == Events(calls[..i], policy);
  }

  lemma RigStart(g: Geometry, policy: Policy)
    requires Sound(g) && Snug(g)
    ensures Inv(g, Start(g)) && RigExec(g, Events([], policy)) == FreshRig(g)
    ensures RampFrames(0, 0, g.nc) == []
  {
    InitialIsOk(g);
    FlatUnits(g.nc);
  }

  /** One call takes the pair to the rig's next state. */
  method Drive(b: Buffer, dec: Decoder, call: Call, time: int, ghost r: Rig)
    requires Inv(b.g, r.s) && Follows(b, dec, r) && (call.WriteCall? ==> call.k <= b.g.capacity)
    modifies b, b.data, dec
    ensures Follows(b, dec, RigStep(b.g, r, EventOf(call, PolicyOf(b.g, b.ctrl)), time))
  {
    hide ReadStep;
    hide RampFrames;
    hide Feed;
    hide Output;
    hide PolicyOf;
    hide RingHolds;
    match call {
      case WriteCall(k) => WriteRamp(b, k);
      case ReadCall(n) => ReadOnce(b, dec, n, time);
    }
  }

  /** A whole run. What the decoder reports is what the rig's decoder reports; so with reads of at
      least three frames, within range, its counts are the buffer's own. */
  method Run(b: Buffer, dec: Decoder, calls: seq<Call>)
    requires b.Valid() && b.Control() == Initial(b.g) && b.writePos == 0 && b.written == []
    requires dec.State() == FRESH && dec.nc == b.g.nc
    requires forall i :: 0 <= i < |calls| && calls[i].WriteCall? ==> calls[i].k <= b.g.capacity
    modifies b, b.data, dec
    ensures Inv(b.g, Start(b.g))
    ensures var evs := Events(calls, PolicyOf(b.g, b.ctrl));
            && Follows(b, dec, RigExec(b.g, evs))
            && (LongReads(evs) && AllInRange(b.g, evs) ==>
                  && dec.drops == b.stats.dropped && dec.inserts == b.stats.inserted && dec.aliens == 0
                  && dec.snaps == RigExec(b.g, evs).moved)
  {
    ghost var policy := PolicyOf(b.g, b.ctrl);
    hide PolicyOf;
    hide RigStep;
    RigStart(b.g, policy);
    hide RigExec;
    assert calls[..0] == [];
    var i := 0;
    while i < |calls|
      invariant 0 <= i <= |calls|
      invariant Follows(b, dec, RigExec(b.g, Events(calls[..i], policy)))
    {
      RigSnoc(b.g, calls, policy, i);
      Drive(b, dec, calls[i], i, RigExec(b.g, Events(calls[..i], policy)));
      i := i + 1;
    }
    assert calls[..i] == calls;
    ghost var evs := Events(calls, policy);
    if LongReads(evs) {
      LongReadsDecode(b.g, evs);
    }
  }
}
