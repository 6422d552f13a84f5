/** Encode-side interaural delays: a source's history ring read at fractional delays that ramp
    over the frame, and the per-slot state that decides where each ramp starts. */
module DelayLine {
  import opened Order
  import opened Layout

  const HISTORY := 64
  const SAMPLE_RATE := 48000.0

  // ---- The history ring -----------------------------------------------------------------

  /** The ring is the last HISTORY + frame samples of the stream, silent before its start, and
      one zero. */
  ghost predicate RingIs(ring: seq<real>, frame: nat, stream: seq<real>) {
    && |ring| == HISTORY + frame + 1 && ring[HISTORY + frame] == 0.0
    && forall k :: 0 <= k < HISTORY + frame ==> ring[k] == At(stream, |stream| - (HISTORY + frame) + k)
  }

  lemma RingMoves(was: seq<real>, ring: seq<real>, frame: nat, stream: seq<real>, input: seq<real>)
    requires RingIs(was, frame, stream) && |input| == frame
    requires ring == was[frame..frame + HISTORY] + input + was[HISTORY + frame..]
    ensures RingIs(ring, frame, stream + input)
  {
    forall k | 0 <= k < HISTORY + frame
      ensures ring[k] == At(stream + input, |stream + input| - (HISTORY + frame) + k)
    {
      if k < HISTORY {
        assert ring[k] == was[frame + k];
      } else {
        assert ring[k] == input[k - HISTORY];
      }
    }
  }

  /** The stream at a fractional time, by linear interpolation between its neighbours. */
  function Interp(s: seq<real>, t: real): real {
    Lerp(At(s, t.Floor), At(s, t.Floor + 1), t - t.Floor as real)
  }

  /** At whole times the stream itself; in between, the same share of the way from one sample to
      the next. */
  lemma InterpIsLinear(s: seq<real>, i: int, frac: real)
    requires 0.0 <= frac < 1.0
    ensures Interp(s, i as real) == At(s, i)
    ensures Interp(s, i as real + frac) - At(s, i) == Portion(frac, At(s, i + 1) - At(s, i))
  {
    var t := i as real + frac;
    assert t.Floor == i && (i as real).Floor == i;
    assert t - i as real == frac;
    assert Portion(0.0, At(s, i + 1) - At(s, i)) == 0.0;
    assert i as real - i as real == 0.0;
    hide Portion;
  }

  /** The delay at sample n of a frame that ramps from prev to delay. */
  function RampDelay(prev: real, delay: real, n: int, frame: nat): real
    requires frame >= 2
  {
    prev + n as real * ((delay - prev) / (frame - 1) as real)
  }

  lemma RampEnds(prev: real, delay: real, frame: nat)
    requires frame >= 2
    ensures RampDelay(prev, delay, 0, frame) == prev && RampDelay(prev, delay, frame - 1, frame) == delay
  {
    var m := (frame - 1) as real;
    assert m * ((delay - prev) / m) == delay - prev;
  }

  /** The ramp stays between its ends. */
  lemma RampBetween(prev: real, delay: real, n: int, frame: nat, lo: real, hi: real)
    requires frame >= 2 && 0 <= n < frame && lo <= prev <= hi && lo <= delay <= hi
    ensures lo <= RampDelay(prev, delay, n, frame) <= hi
  {
    var m, step := (frame - 1) as real, (delay - prev) / (frame - 1) as real;
    assert m * step == delay - prev;
    Share3(n as real, m, step);
    var x := n as real * step;
    assert step >= 0.0 ==> 0.0 <= x <= delay - prev;
    assert step <= 0.0 ==> delay - prev <= x <= 0.0;
    assert RampDelay(prev, delay, n, frame) == prev + x;
  }

  lemma Share3(n: real, m: real, step: real)
    requires 0.0 <= n <= m
    ensures step >= 0.0 ==> 0.0 <= n * step <= m * step
    ensures step <= 0.0 ==> m * step <= n * step <= 0.0
  {
    if step >= 0.0 {
      TimesKeeps(n, m, step);
      NonNegativeProduct(n, step);
    } else {
      var e := -step;
      TimesKeeps(n, m, e);
      NonNegativeProduct(n, e);
      assert n * e == -(n * step) && m * e == -(m * step);
    }
  }

  /** Sample n of the frame, read n - delay into it. */
  function DelayedAt(stream: seq<real>, frame: nat, prev: real, delay: real, n: int): real
    requires frame >= 2
  {
    Interp(stream, (|stream| - frame + n) as real - RampDelay(prev, delay, n, frame))
  }

  lemma FloorShifts(x: real, k: int, y: real)
    requires y == x + k as real
    ensures y.Floor == x.Floor + k && y - y.Floor as real == x - x.Floor as real
  {
  }

  /** Reading the ring at HISTORY + n - d stays inside it and reads the stream at that time. */
  lemma RingRead(ring: seq<real>, frame: nat, stream: seq<real>, n: int, d: real)
    requires RingIs(ring, frame, stream) && 0 <= n < frame && 0.0 <= d <= HISTORY as real
    ensures var pos := (HISTORY + n) as real - d; var i := pos.Floor;
            && 0 <= i && i + 1 < |ring|
            && Lerp(ring[i], ring[i + 1], pos - i as real) == Interp(stream, (|stream| - frame + n) as real - d)
  {
    hide Lerp;
    var pos := (HISTORY + n) as real - d;
    var base := |stream| - (HISTORY + frame);
    var t := (|stream| - frame + n) as real - d;
    FloorShifts(pos, base, t);
    var i := pos.Floor;
    assert 0 <= i && i + 1 <= HISTORY + frame;
    assert ring[i] == At(stream, t.Floor);
    assert ring[i + 1] == At(stream, t.Floor + 1);
    assert t - t.Floor as real == pos - i as real;
  }

  predicate Integral(d: real) {
    d == d.Floor as real
  }

  lemma OverBoth(s: seq<real>, x: seq<real>, y: seq<real>)
    requires |x| + |y| <= |s|
    ensures Over(Over(s, 0, x), |x|, y) == x + y + s[|x| + |y|..]
  {
  }

  class InputRing {
    const frame: nat
    const ring: array<real>

    ghost var stream: seq<real>

    ghost predicate Valid()
      reads this, ring
    {
      RingIs(ring[..], frame, stream)
    }

    constructor (frame: nat)
      ensures Valid() && this.frame == frame && stream == [] && fresh(ring)
    {
      this.frame := frame;
      ring := new real[HISTORY + frame + 1](_ => 0.0);
      stream := [];
    }

    /** Append the current frame. */
    method Push(input: seq<real>)
      requires Valid() && |input| == frame
      modifies this`stream, ring
      ensures Valid() && stream == old(stream) + input
    {
      ghost var was := ring[..];
      var kept := ring[frame..frame + HISTORY];
      RingMoves(was, kept + input + was[HISTORY + frame..], frame, stream, input);
      OverBoth(was, kept, input);
      hide RingIs;
      hide Over;
      CopyInto(ring, 0, kept);
      CopyInto(ring, HISTORY, input);
      stream := stream + input;
    }

    /** One delayed frame. The static whole-sample shortcut and the ramp both read the stream at
        the delayed times, from sample 0 at the old delay to the last sample at the new one. */
    method DelayedRow(prev: real, delay: real) returns (row: seq<real>)
      requires Valid() && frame >= 2
      requires 0.0 <= prev <= HISTORY as real && 0.0 <= delay <= HISTORY as real
      ensures |row| == frame
      ensures forall n :: 0 <= n < frame ==> row[n] == DelayedAt(stream, frame, prev, delay, n)
    {
      if delay == prev && Integral(delay) {
        var start := HISTORY - delay.Floor;
        row := ring[start..start + frame];
        forall n | 0 <= n < frame
          ensures row[n] == DelayedAt(stream, frame, prev, delay, n)
        {
          StaticRead(ring[..], frame, stream, n, delay);
        }
      } else {
        row := Ramped(prev, delay);
      }
    }

    method Ramped(prev: real, delay: real) returns (row: seq<real>)
      requires Valid() && frame >= 2
      requires 0.0 <= prev <= HISTORY as real && 0.0 <= delay <= HISTORY as real
      ensures |row| == frame
      ensures forall n :: 0 <= n < frame ==> row[n] == DelayedAt(stream, frame, prev, delay, n)
    {
      hide Interp;
      hide Lerp;
      hide RampDelay;
      hide RingIs;
      var step := (delay - prev) / (frame - 1) as real;
      RampEnds(prev, delay, frame);
      row := [];
      var d, n := prev, 0;
      while n < frame
        invariant 0 <= n <= frame && |row| == n && d == RampDelay(prev, delay, n, frame)
        invariant forall k :: 0 <= k < n ==> row[k] == DelayedAt(stream, frame, prev, delay, k)
      {
        RampBetween(prev, delay, n, frame, 0.0, HISTORY as real);
        RingRead(ring[..], frame, stream, n, d);
        var pos := (HISTORY + n) as real - d;
        var i := pos.Floor;
        var frac := pos - i as real;
        row := row + [Lerp(ring[i], ring[i + 1], frac)];
        RampNext(prev, delay, n, frame);
        d := d + step;
        n := n + 1;
      }
    }
  }

  lemma RampNext(prev: real, delay: real, n: int, frame: nat)
    requires frame >= 2
    ensures RampDelay(prev, delay, n + 1, frame) == RampDelay(prev, delay, n, frame) + (delay - prev) / (frame - 1) as real
  {
    var step := (delay - prev) / (frame - 1) as real;
    assert (n + 1) as real * step == n as real * step + step;
  }

  lemma StaticRead(ring: seq<real>, frame: nat, stream: seq<real>, n: int, d: real)
    requires RingIs(ring, frame, stream) && frame >= 2 && 0 <= n < frame && 0.0 <= d <= HISTORY as real && Integral(d)
    ensures ring[HISTORY - d.Floor + n] == DelayedAt(stream, frame, d, d, n)
  {
    RingRead(ring, frame, stream, n, d);
    assert d - d == 0.0;
    assert RampDelay(d, d, n, frame) == d;
    assert ((HISTORY + n) as real - d).Floor == HISTORY + n - d.Floor;
  }

  // ---- The delay model ----------------------------------------------------------------------

  /** arcsin by its bound: at most a quarter turn either way on [-1, 1]. */
  ghost predicate ArcSine(asin: real -> real, quarter: real) {
    quarter > 0.0 && forall s :: -1.0 <= s <= 1.0 ==> -quarter <= asin(s) <= quarter
  }

  function Ceiling(x: real): int {
    -(-x).Floor
  }

  /** scale turns arcsin(s) + s into samples; base is the delay added to both ears. */
  datatype DelayModel = DelayModel(scale: real, base: real)

  function MaxTau(m: DelayModel, quarter: real): real {
    (quarter + 1.0) * m.scale
  }

  /** Every delay the model gives is causal and inside the ring. */
  ghost predicate Fits(m: DelayModel, quarter: real) {
    && m.scale > 0.0 && m.base - MaxTau(m, quarter) / 2.0 >= 1.0
    && m.base + MaxTau(m, quarter) / 2.0 <= HISTORY as real
  }

  /** Head radius and speed of sound to model; refused when out of domain or too long a delay. */
  function InitDelayModel(radius: real, speed: real, quarter: real): (r: Option<DelayModel>)
    requires quarter > 0.0
    ensures r.Some? ==> Fits(r.value, quarter)
    ensures radius <= 0.0 || speed <= 0.0 ==> r.None?
  {
    if radius <= 0.0 || speed <= 0.0 then None
    else
      PositiveQuotient(radius, speed);
      var scale := radius / speed * SAMPLE_RATE;
      var base := Ceiling(MaxTau(DelayModel(scale, 0.0), quarter) / 2.0) as real + 1.0;
      if base + MaxTau(DelayModel(scale, base), quarter) / 2.0 > HISTORY as real then None
      else Some(DelayModel(scale, base))
  }

  /** The model: the scale is head radius over speed of sound in samples, the base the least whole
      delay that keeps the longest lead causal by a sample; accepted exactly when both are positive
      and the longest delay fits the ring. */
  lemma DelayModelIs(radius: real, speed: real, quarter: real, scale: real, base: int)
    requires quarter > 0.0 && radius > 0.0 && speed > 0.0 && scale == radius / speed * SAMPLE_RATE
    requires (quarter + 1.0) * scale / 2.0 <= (base - 1) as real < (quarter + 1.0) * scale / 2.0 + 1.0
    ensures var r := InitDelayModel(radius, speed, quarter);
            && (r.Some? <==> base as real + (quarter + 1.0) * scale / 2.0 <= HISTORY as real)
            && (r.Some? ==> r.value == DelayModel(scale, base as real))
  {
    var half := MaxTau(DelayModel(scale, 0.0), quarter) / 2.0;
    CeilingIs(half, base - 1);
    hide Ceiling;
  }

  lemma CeilingIs(x: real, n: int)
    requires x <= n as real < x + 1.0
    ensures Ceiling(x) == n
  {
  }

  /** The interaural delay of a lateral sine, in samples; positive when the left ear leads. */
  function Tau(m: DelayModel, asin: real -> real, latSine: real): real {
    var s := if latSine > 1.0 then 1.0 else if latSine < -1.0 then -1.0 else latSine;
    (asin(s) + s) * m.scale
  }

  /** The interaural delay is scale times angle plus sine, for the sine held to [-1, 1]. */
  lemma TauIs(m: DelayModel, asin: real -> real, latSine: real)
    ensures -1.0 <= latSine <= 1.0 ==> Tau(m, asin, latSine) == Portion(asin(latSine) + latSine, m.scale)
    ensures latSine > 1.0 ==> Tau(m, asin, latSine) == Tau(m, asin, 1.0)
    ensures latSine < -1.0 ==> Tau(m, asin, latSine) == Tau(m, asin, -1.0)
  {
  }

  lemma TauBounded(m: DelayModel, asin: real -> real, quarter: real, latSine: real)
    requires ArcSine(asin, quarter) && m.scale > 0.0
    ensures -MaxTau(m, quarter) <= Tau(m, asin, latSine) <= MaxTau(m, quarter)
  {
    var s := if latSine > 1.0 then 1.0 else if latSine < -1.0 then -1.0 else latSine;
    TimesKeeps(asin(s) + s, quarter + 1.0, m.scale);
    TimesKeeps(-(quarter + 1.0), asin(s) + s, m.scale);
  }

  /** Both ears' delays for a lateral sine. */
  datatype Ears = Ears(left: real, right: real)

  function EarDelays(m: DelayModel, asin: real -> real, latSine: real): Ears {
    Ears(m.base - Tau(m, asin, latSine) / 2.0, m.base + Tau(m, asin, latSine) / 2.0)
  }

  /** The right ear's delay exceeds the left one's by the interaural delay, half of it on each side
      of the base; a source on the left reaches the left ear first. */
  lemma LeadingEar(m: DelayModel, asin: real -> real, latSine: real)
    ensures var e := EarDelays(m, asin, latSine);
            && e.right - e.left == Tau(m, asin, latSine) && e.left + e.right == 2.0 * m.base
    ensures m.scale > 0.0 && 0.0 < latSine <= 1.0 && asin(latSine) >= 0.0 ==>
              EarDelays(m, asin, latSine).left < EarDelays(m, asin, latSine).right
    ensures m.scale > 0.0 && -1.0 <= latSine < 0.0 && asin(latSine) <= 0.0 ==>
              EarDelays(m, asin, latSine).left > EarDelays(m, asin, latSine).right
  {
    if m.scale > 0.0 && 0.0 < latSine <= 1.0 && asin(latSine) >= 0.0 {
      PositiveProduct(asin(latSine) + latSine, m.scale);
    } else if m.scale > 0.0 && -1.0 <= latSine < 0.0 && asin(latSine) <= 0.0 {
      var x := -(asin(latSine) + latSine);
      PositiveProduct(x, m.scale);
      assert x * m.scale == -((asin(latSine) + latSine) * m.scale);
    }
  }

  predicate Readable(e: Ears) {
    1.0 <= e.left <= HISTORY as real && 1.0 <= e.right <= HISTORY as real
  }

  lemma EarDelaysReadable(m: DelayModel, asin: real -> real, quarter: real, latSine: real)
    requires ArcSine(asin, quarter) && Fits(m, quarter)
    ensures Readable(EarDelays(m, asin, latSine))
  {
    TauBounded(m, asin, quarter, latSine);
  }

  // ---- Where a ramp starts --------------------------------------------------------------------

  datatype Peer = Peer(slot: nat, id: int, latSine: real)

  /** Where a pair's delays start this frame and where they end. */
  datatype Sweep = Sweep(start: Ears, end: Ears)

  /** What one call rendered: for each slot, the source and the delays it ended on. */
  datatype Rendered = Rendered(id: int, ears: Ears)

  type Frame = map<nat, Rendered>

  /** The start of a ramp, from the previous call alone: its end there when the same source was
      rendered in the slot, and otherwise the new delays themselves. */
  function StartFrom(last: Frame, p: Peer, end: Ears): Ears {
    if p.slot in last && last[p.slot].id == p.id then last[p.slot].ears else end
  }

  ghost predicate SlotsApart(peers: seq<Peer>, maxNodes: nat) {
    && (forall i :: 0 <= i < |peers| ==> peers[i].slot < maxNodes)
    && (forall i, k :: 0 <= i < k < |peers| ==> peers[i].slot != peers[k].slot)
  }

  /** The call's record, peer by peer. */
  ghost function FrameOf(peers: seq<Peer>, m: DelayModel, asin: real -> real): Frame {
    if peers == [] then map[]
    else
      var p := peers[|peers| - 1];
      FrameOf(peers[..|peers| - 1], m, asin)[p.slot := Rendered(p.id, EarDelays(m, asin, p.latSine))]
  }

  /** A call's record holds exactly the slots it was given, each with its own peer. */
  lemma {:induction false} FrameHolds(peers: seq<Peer>, m: DelayModel, asin: real -> real, maxNodes: nat, s: nat)
    requires SlotsApart(peers, maxNodes)
    ensures s in FrameOf(peers, m, asin) <==> exists i :: 0 <= i < |peers| && peers[i].slot == s
    ensures forall i :: 0 <= i < |peers| && peers[i].slot == s ==>
              s in FrameOf(peers, m, asin) && FrameOf(peers, m, asin)[s] == Rendered(peers[i].id, EarDelays(m, asin, peers[i].latSine))
  {
    hide EarDelays;
    if peers != [] {
      FrameHolds(peers[..|peers| - 1], m, asin, maxNodes, s);
    }
  }

  lemma {:induction false} FrameReadable(peers: seq<Peer>, m: DelayModel, asin: real -> real, quarter: real)
    requires ArcSine(asin, quarter) && Fits(m, quarter)
    ensures ReadableFrame(FrameOf(peers, m, asin))
  {
    hide EarDelays;
    hide Readable;
    hide ArcSine;
    hide Fits;
    if peers != [] {
      FrameReadable(peers[..|peers| - 1], m, asin, quarter);
      EarDelaysReadable(m, asin, quarter, peers[|peers| - 1].latSine);
    }
  }

  ghost predicate ReadableFrame(f: Frame) {
    forall s :: s in f ==> Readable(f[s].ears)
  }

  class EarState {
    const model: DelayModel
    const asin: real -> real
    const maxNodes: nat
    ghost const quarter: real

    var frameGen: nat
    var slotGen: seq<nat>
    var slotOwner: seq<int>
    var prevDelay: seq<Ears>

    /** What the latest call rendered. */
    ghost var last: Frame

    ghost predicate Sized()
      reads this
    {
      && |slotGen| == maxNodes && |slotOwner| == maxNodes && |prevDelay| == maxNodes && frameGen >= 1
      && ArcSine(asin, quarter) && Fits(model, quarter)
    }

    /** A slot carries the current generation exactly when the latest call rendered it, and then
        its owner and delays are that call's. */
    ghost predicate Valid()
      reads this
    {
      && Sized() && (forall s :: s in last ==> s < maxNodes) && ReadableFrame(last)
      && forall s :: 0 <= s < maxNodes ==> SlotOk(slotGen[s], slotOwner[s], prevDelay[s], s, last, frameGen)
    }

    constructor (model: DelayModel, asin: real -> real, maxNodes: nat, ghost quarter: real)
      requires ArcSine(asin, quarter) && Fits(model, quarter)
      ensures Valid() && this.model == model && this.asin == asin && this.maxNodes == maxNodes && last == map[]
    {
      this.model, this.asin, this.maxNodes, this.quarter := model, asin, maxNodes, quarter;
      frameGen := 1;
      slotGen := seq(maxNodes, _ => 0);
      slotOwner := seq(maxNodes, _ => 0);
      prevDelay := seq(maxNodes, _ => Ears(0.0, 0.0));
      last := map[];
    }

    /** This frame's delays for a slot, and where they start: the slot's last ones if it was packed
        last frame, else no ramp. */
    method PairEarDelays(slot: nat, latSine: real) returns (sweep: Sweep)
      requires Sized() && slot < maxNodes
      modifies this`slotGen, this`prevDelay
      ensures var end := EarDelays(model, asin, latSine);
              && sweep == Sweep(if old(slotGen[slot]) == frameGen - 1 then old(prevDelay[slot]) else end, end)
              && slotGen == old(slotGen)[slot := frameGen] && prevDelay == old(prevDelay)[slot := end]
    {
      var tau := Tau(model, asin, latSine);
      var end := Ears(model.base - tau / 2.0, model.base + tau / 2.0);
      var start := end;
      if slotGen[slot] == frameGen - 1 {
        start := prevDelay[slot];
      }
      slotGen := slotGen[slot := frameGen];
      prevDelay := prevDelay[slot := end];
      sweep := Sweep(start, end);
    }

    /** One peer of a call: a slot leased to another source forgets the old one first. */
    method RenderPeer(p: Peer) returns (sweep: Sweep)
      requires Sized() && p.slot < maxNodes && frameGen >= 2
      modifies this`slotGen, this`slotOwner, this`prevDelay
      ensures var end := EarDelays(model, asin, p.latSine);
              && sweep.end == end
              && sweep.start == (if old(slotOwner[p.slot]) == p.id && old(slotGen[p.slot]) == frameGen - 1
                                 then old(prevDelay[p.slot]) else end)
              && slotGen == old(slotGen)[p.slot := frameGen] && slotOwner == old(slotOwner)[p.slot := p.id]
              && prevDelay == old(prevDelay)[p.slot := end]
    {
      hide EarDelays;
      if slotOwner[p.slot] != p.id {
        slotOwner := slotOwner[p.slot := p.id];
        slotGen := slotGen[p.slot := 0];
      }
      sweep := PairEarDelays(p.slot, p.latSine);
    }

    /** One call, over the peers that passed its filter; it counts as a frame even with none. Every
        ramp starts away from its end only if the immediately preceding call rendered the same
        source in that slot, and then exactly where that call ended; and every delay on the way
        can be read from the ring. */
    method EncodePeers(peers: seq<Peer>) returns (sweeps: seq<Sweep>)
      requires Valid() && SlotsApart(peers, maxNodes)
      modifies this
      ensures Valid() && last == FrameOf(peers, model, asin) && |sweeps| == |peers|
      ensures forall i :: 0 <= i < |peers| ==>
                var end := EarDelays(model, asin, peers[i].latSine);
                sweeps[i] == Sweep(StartFrom(old(last), peers[i], end), end)
      ensures forall i :: 0 <= i < |sweeps| ==> Readable(sweeps[i].start) && Readable(sweeps[i].end)
    {
      hide EarDelays;
      hide ArcSine;
      hide Fits;
      hide Readable;
      frameGen := frameGen + 1;
      sweeps := [];
      var i := 0;
      while i < |peers|
        invariant 0 <= i <= |peers| && |sweeps| == i && Sized() && frameGen == old(frameGen) + 1 && last == old(last)
        invariant forall k :: 0 <= k < i ==> SweepOk(last, peers[k], sweeps[k], model, asin)
        invariant forall s :: 0 <= s < maxNodes ==>
                    Midway(slotGen[s], slotOwner[s], prevDelay[s], s, last, FrameOf(peers[..i], model, asin), frameGen)
      {
        EarDelaysReadable(model, asin, quarter, peers[i].latSine);
        FrameHolds(peers[..i], model, asin, maxNodes, peers[i].slot);
        assert peers[..i + 1][..i] == peers[..i];
        var sweep := RenderPeer(peers[i]);
        sweeps := sweeps + [sweep];
        i := i + 1;
      }
      assert peers[..i] == peers;
      FrameReadable(peers, model, asin, quarter);
      FrameInside(peers, model, asin, maxNodes);
      last := FrameOf(peers, model, asin);
    }
  }

  /** A slot carries the current generation exactly when the latest call rendered it. */
  ghost predicate SlotOk(gen: nat, owner: int, ears: Ears, s: nat, f: Frame, frameGen: nat) {
    && gen <= frameGen && (gen == frameGen <==> s in f)
    && (s in f ==> f[s] == Rendered(owner, ears))
  }

  /** Inside a call: a slot already rendered belongs to this call, any other still to the last. */
  ghost predicate Midway(gen: nat, owner: int, ears: Ears, s: nat, last: Frame, now: Frame, frameGen: nat) {
    if s in now then gen == frameGen && now[s] == Rendered(owner, ears)
    else frameGen >= 1 && SlotOk(gen, owner, ears, s, last, frameGen - 1)
  }

  ghost predicate SweepOk(last: Frame, p: Peer, sweep: Sweep, m: DelayModel, asin: real -> real) {
    && var end := EarDelays(m, asin, p.latSine);
    && sweep == Sweep(StartFrom(last, p, end), end)
    && Readable(sweep.start) && Readable(sweep.end)
  }

  lemma FrameInside(peers: seq<Peer>, m: DelayModel, asin: real -> real, maxNodes: nat)
    requires SlotsApart(peers, maxNodes)
    ensures forall s :: s in FrameOf(peers, m, asin) ==> s < maxNodes
  {
    forall s | s in FrameOf(peers, m, asin)
      ensures s < maxNodes
    {
      FrameHolds(peers, m, asin, maxNodes, s);
    }
  }
}
