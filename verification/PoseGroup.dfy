/** Lockstep sets: several members on one interleaved jitter buffer, so that one clock keys the
    poses of all of them. */
module PoseGroup {
  import opened Layout
  import opened Order
  import opened JitterServo
  import opened JitterControl
  import opened JitterStream
  import opened JitterBuffer
  import opened PoseAlign

  // ---- One released frame -----------------------------------------------------------------

  /** One member's share of a released frame. audio is the payload as its decoder takes it; plc is
      what the member's concealment would produce. */
  datatype GroupChannel = GroupChannel(
    pose: Option<Pose>, audio: Payload, lost: bool, audioLikely: bool, silence: bool, plc: seq<real>)

  /** The member's samples matter to the frame: it was sent audio, or lost what was likely audio
      and has not been concealed for too long. */
  predicate Carries(c: GroupChannel) {
    !c.audio.Absent? || (c.lost && c.audioLikely && !c.silence)
  }

  predicate AnyAudio(chans: seq<GroupChannel>) {
    exists i :: 0 <= i < |chans| && Carries(chans[i])
  }

  /** What a seat contributes: nothing if it is empty. */
  function MemberPCM(c: GroupChannel, seated: bool): seq<real> {
    if !seated then []
    else if !c.audio.Absent? then Samples(c.audio)
    else if c.lost && c.audioLikely && !c.silence then c.plc
    else []
  }

  function FramePCM(chans: seq<GroupChannel>, members: seq<Option<int>>): (r: seq<seq<real>>)
    requires |chans| == |members|
    ensures |r| == |chans|
  {
    seq(|chans|, i requires 0 <= i < |chans| => MemberPCM(chans[i], members[i].Some?))
  }

  // ---- Interleaving ------------------------------------------------------------------------

  function ChannelOf(q: int, n: int): int
    requires n > 0
  {
    q % n
  }

  function FrameOf(q: int, n: int): int
    requires n > 0
  {
    q / n
  }

  lemma Coordinates(n: int)
    requires n > 0
    ensures forall q {:trigger ChannelOf(q, n)} :: q >= 0 ==>
              q == Flat(FrameOf(q, n), n) + ChannelOf(q, n) && 0 <= ChannelOf(q, n) < n && FrameOf(q, n) >= 0
  {
  }

  lemma CellAt(j: int, i: int, n: int)
    requires 0 <= j && 0 <= i < n
    ensures FrameOf(Flat(j, n) + i, n) == j && ChannelOf(Flat(j, n) + i, n) == i
  {
    var q := Flat(j, n) + i;
    DivModUnique(n, j, i, q / n, q % n);
  }

  lemma FrameInside(q: int, frames: int, n: int)
    requires n > 0 && 0 <= q < Flat(frames, n)
    ensures FrameOf(q, n) < frames
  {
    var j := FrameOf(q, n);
    assert q >= Flat(j, n);
    if frames <= j {
      FlatOrder(frames, j, n);
    }
  }

  /** Member i's sample j, or silence past the end of what it had. */
  function SampleOf(members: seq<seq<real>>, i: int, j: int): real
    requires 0 <= i < |members| && j >= 0
  {
    if j < |members[i]| then members[i][j] else 0.0
  }

  /** Cell q of an interleaved frame holds sample q / n of member q % n. */
  predicate CellRight(frame: seq<real>, members: seq<seq<real>>, q: int)
    requires |members| > 0 && 0 <= q < |frame|
  {
    && 0 <= ChannelOf(q, |members|) < |members| && 0 <= FrameOf(q, |members|)
    && frame[q] == SampleOf(members, ChannelOf(q, |members|), FrameOf(q, |members|))
  }

  predicate Interleaves(frame: seq<real>, members: seq<seq<real>>, frameSize: nat) {
    && |members| > 0 && |frame| == Flat(frameSize, |members|)
    && forall q :: 0 <= q < |frame| ==> CellRight(frame, members, q)
  }

  /** Sample j of member i sits at j times the number of members plus i, and a member that ran out
      or has nothing is silent there. */
  lemma InterleavedSample(frame: seq<real>, pcm: seq<seq<real>>, frameSize: nat, i: nat, j: nat)
    requires Interleaves(frame, pcm, frameSize) && i < |pcm| && j < frameSize
    ensures 0 <= Flat(j, |pcm|) + i < |frame|
    ensures j < |pcm[i]| ==> frame[Flat(j, |pcm|) + i] == pcm[i][j]
    ensures j >= |pcm[i]| ==> frame[Flat(j, |pcm|) + i] == 0.0
  {
    CutInside(j, frameSize, |pcm|);
    CellAt(j, i, |pcm|);
    assert CellRight(frame, pcm, Flat(j, |pcm|) + i);
    hide Flat;
    hide ChannelOf;
    hide FrameOf;
  }

  /** What a seat puts into the frame: its decoded packet, the concealment of a rejected one or of a
      likely loss, and nothing for an empty seat, a pose-only packet or a run concealed too long. */
  lemma SeatContributes(chans: seq<GroupChannel>, members: seq<Option<int>>, i: nat)
    requires |chans| == |members| && i < |chans|
    ensures var c, pcm := chans[i], FramePCM(chans, members)[i];
            && (members[i].None? ==> pcm == [])
            && (members[i].Some? && c.audio.Decoded? ==> pcm == c.audio.pcm)
            && (members[i].Some? && c.audio.Rejected? ==> pcm == c.audio.plc)
            && (members[i].Some? && c.audio.Absent? && c.lost && c.audioLikely && !c.silence ==> pcm == c.plc)
            && (c.audio.Absent? && !(c.lost && c.audioLikely && !c.silence) ==> pcm == [])
  {
  }

  // ---- The set --------------------------------------------------------------------------------

  method FindAudio(chans: seq<GroupChannel>) returns (any: bool)
    ensures any == AnyAudio(chans)
  {
    any := false;
    var i := 0;
    while i < |chans|
      invariant 0 <= i <= |chans| && !any
      invariant forall k :: 0 <= k < i ==> !Carries(chans[k])
    {
      if Carries(chans[i]) {
        return true;
      }
      i := i + 1;
    }
  }

  function Seated(members: seq<Option<int>>): (n: nat)
    ensures n <= |members|
    ensures n == 0 <==> forall i :: 0 <= i < |members| ==> members[i].None?
  {
    if members == [] then 0
    else Seated(members[..|members| - 1]) + if members[|members| - 1].Some? then 1 else 0
  }

  lemma {:induction false} SeatChanged(members: seq<Option<int>>, i: nat, m: Option<int>)
    requires i < |members|
    ensures Seated(members[i := m]) == Seated(members) - (if members[i].Some? then 1 else 0) + if m.Some? then 1 else 0
  {
    var n := |members| - 1;
    if i < n {
      SeatChanged(members[..n], i, m);
      assert members[i := m][..n] == members[..n][i := m];
    } else {
      assert members[i := m][..n] == members[..n];
    }
  }

  /** The pushes of one seat after a released frame. */
  function PushTo(ring: seq<Sample>, c: GroupChannel, seated: bool, seqNo: int, clock: int): seq<Sample> {
    if c.pose.Some? && seated then Push(ring, Sample(seqNo, clock, c.pose.value)) else ring
  }

  /** A frame adds one pose to a seat, pinned to the set's clock, exactly when the frame brings one, the
      seat is taken and the frame is newer than the seat's last. */
  lemma SeatTakesPose(ring: seq<Sample>, c: GroupChannel, seated: bool, seqNo: int, clock: int)
    ensures var r := PushTo(ring, c, seated, seqNo, clock);
            if c.pose.Some? && seated && (ring == [] || seqNo > ring[|ring| - 1].seqNo)
            then r == ring + [Sample(seqNo, clock, c.pose.value)] else r == ring
  {
  }

  /** The stream grew by one interleaved frame of the members' samples. */
  ghost predicate Took(was: seq<real>, now: seq<real>, pcm: seq<seq<real>>, frameSize: nat, capacity: nat) {
    |pcm| > 0 && exists frame :: Interleaves(frame, pcm, frameSize) && now == was + Clipped(frame, |pcm|, capacity)
  }

  ghost predicate RingsOk(rings: seq<seq<Sample>>, clock: int) {
    forall i :: 0 <= i < |rings| ==> PushesOk(rings[i], clock)
  }

  class SourceGroup {
    const jitter: Buffer
    const frameSize: nat
    const readScratch: array<real>

    var members: seq<Option<int>>
    var live: int
    var samplesWritten: int
    var readPos: int

    /** The pushes of each seat's present source. */
    var rings: seq<seq<Sample>>

    ghost predicate Valid()
      reads this, jitter, jitter.data
    {
      && jitter.Valid() && frameSize > 0
      && |members| == jitter.g.nc && |rings| == |members| && live == Seated(members)
      && readScratch != jitter.data && readScratch.Length == Flat(frameSize, jitter.g.nc)
      && RingsOk(rings, samplesWritten)
    }

    /** The one clock of the set is the buffer's write head. */
    ghost predicate Aligned()
      reads this, jitter
    {
      samplesWritten == jitter.writePos
    }

    constructor (jitter: Buffer, frameSize: nat)
      requires jitter.Valid() && jitter.writePos == 0 && frameSize > 0
      ensures Valid() && Aligned() && this.jitter == jitter && this.frameSize == frameSize && fresh(readScratch)
      ensures live == 0 && forall i :: 0 <= i < |members| ==> members[i].None? && rings[i] == []
    {
      FlatNat(frameSize, jitter.g.nc);
      this.jitter, this.frameSize := jitter, frameSize;
      members, rings := seq(jitter.g.nc, _ => None), seq(jitter.g.nc, _ => []);
      live, samplesWritten, readPos := 0, 0, 0;
      readScratch := new real[Flat(frameSize, jitter.g.nc)](_ => 0.0);
    }

    /** Seat a source; a source already there is displaced without being counted twice. */
    method Join(s: int, index: nat)
      requires Valid() && index < |members|
      modifies this`members, this`live, this`rings
      ensures Valid() && members == old(members)[index := Some(s)] && rings == old(rings)[index := []]
    {
      SeatChanged(members, index, Some(s));
      if members[index].None? {
        live := live + 1;
      }
      members := members[index := Some(s)];
      rings := rings[index := []];
    }

    /** Clear the seat only if s still holds it, and say whether the set is now empty. */
    method Leave(index: nat, s: int) returns (empty: bool)
      requires Valid() && index < |members|
      modifies this`members, this`live
      ensures Valid()
      ensures members == if old(members)[index] == Some(s) then old(members)[index := None] else old(members)
      ensures empty <==> forall i :: 0 <= i < |members| ==> members[i].None?
    {
      if members[index] == Some(s) {
        SeatChanged(members, index, None);
        members := members[index := None];
        live := live - 1;
      }
      empty := live == 0;
    }

    /** One released frame: interleave what every member contributes and write it, or nothing if no
        member has audio; then pin each seated member's pose to the set's clock, which is the
        buffer's as long as a frame fits the ring. */
    method WriteFrame(seqNo: int, chans: seq<GroupChannel>)
      requires Valid() && |chans| == |members|
      modifies this`samplesWritten, this`rings, jitter`writePos, jitter`written, jitter.data
      ensures Valid()
      ensures samplesWritten == old(samplesWritten) + (if AnyAudio(chans) then frameSize else 0)
      ensures old(Aligned()) ==> (Aligned() <==> !AnyAudio(chans) || frameSize <= jitter.g.capacity)
      ensures AnyAudio(chans) ==>
                Took(old(jitter.written), jitter.written, FramePCM(chans, members), frameSize, jitter.g.capacity)
      ensures !AnyAudio(chans) ==> jitter.written == old(jitter.written) && jitter.writePos == old(jitter.writePos)
      ensures forall i :: 0 <= i < |rings| ==>
                rings[i] == PushTo(old(rings)[i], chans[i], members[i].Some?, seqNo, samplesWritten)
    {
      hide Took;
      hide AnyAudio;
      hide RingsOk;
      hide PushTo;
      var anyAudio := FindAudio(chans);
      if anyAudio {
        WriteAudio(FramePCM(chans, members));
      }
      PushPoses(seqNo, chans);
    }

    method WriteAudio(pcm: seq<seq<real>>)
      requires Valid() && |pcm| == jitter.g.nc
      modifies this`samplesWritten, jitter`writePos, jitter`written, jitter.data
      ensures Valid() && samplesWritten == old(samplesWritten) + frameSize
      ensures jitter.writePos == old(jitter.writePos) + Min(frameSize, jitter.g.capacity)
      ensures Took(old(jitter.written), jitter.written, pcm, frameSize, jitter.g.capacity)
    {
      var frame := InterleaveFrame(pcm, frameSize);
      WholeFrame(frameSize, |pcm|, frame);
      hide Flat;
      hide Clipped;
      jitter.Write(frame);
      LaterClock(rings, samplesWritten, samplesWritten + frameSize);
      hide RingsOk;
      samplesWritten := samplesWritten + frameSize;
    }

    method PushPoses(seqNo: int, chans: seq<GroupChannel>)
      requires Valid() && |chans| == |members|
      modifies this`rings
      ensures Valid()
      ensures forall i :: 0 <= i < |rings| ==>
                rings[i] == PushTo(old(rings)[i], chans[i], members[i].Some?, seqNo, samplesWritten)
    {
      hide PushesOk;
      hide Push;
      var i := 0;
      while i < |chans|
        invariant 0 <= i <= |chans| && Valid()
        invariant forall k :: 0 <= k < i ==> rings[k] == PushTo(old(rings)[k], chans[k], members[k].Some?, seqNo, samplesWritten)
        invariant forall k :: i <= k < |rings| ==> rings[k] == old(rings)[k]
      {
        if chans[i].pose.Some? && members[i].Some? {
          PushKeeps(rings[i], Sample(seqNo, samplesWritten, chans[i].pose.value), samplesWritten);
          rings := rings[i := Push(rings[i], Sample(seqNo, samplesWritten, chans[i].pose.value))];
        }
        i := i + 1;
      }
    }

    /** The set's one read of a tick. */
    method Read() returns (ok: bool)
      requires Valid()
      modifies this`readPos, jitter`readPos, jitter`started, jitter`tick, jitter`lastWp, jitter`gapRun, jitter`frozen,
               jitter`win, jitter`widths, jitter`drift, jitter`setpoint, jitter`meter, jitter`pendingTrim, jitter`stats, readScratch
      ensures Valid() && readPos == jitter.readPos && old(jitter.readPos) <= jitter.readPos <= jitter.writePos
      ensures jitter.writePos == old(jitter.writePos)
      ensures var (c, o) := ReadStep(jitter.g, PolicyOf(jitter.g, jitter.ctrl), old(jitter.Control()), jitter.writePos, frameSize);
              jitter.Control() == c && Delivers(jitter.written, jitter.g.nc, o, frameSize, readScratch[..], old(readScratch[..]), ok)
    {
      FrameCount(frameSize, jitter.g.nc);
      ReadAdvances(jitter, frameSize);
      hide Flat;
      hide ReadStep;
      hide Delivers;
      hide RingsOk;
      ok := jitter.Read(readScratch);
      readPos := jitter.readPos;
    }

    /** A member's frame of the tick: its channel of the set's read, and its pose at the position
        the set's buffer has reached. */
    method ReadMember(i: nat, initial: Pose, kept: nat) returns (samples: seq<real>, pose: Pose)
      requires Valid() && i < |members| && kept <= Min(RING_SIZE, |rings[i]|)
      ensures |samples| == frameSize
      ensures forall j :: 0 <= j < frameSize ==> SampleAt(readScratch[..], samples[j], j, i, jitter.g.nc)
      ensures PoseRight(rings[i], kept, readPos, initial, pose)
    {
      hide PoseRight;
      samples := [];
      var j := 0;
      while j < frameSize
        invariant 0 <= j <= frameSize && |samples| == j
        invariant forall k :: 0 <= k < j ==> SampleAt(readScratch[..], samples[k], k, i, jitter.g.nc)
      {
        CutInside(j, frameSize, jitter.g.nc);
        samples := samples + [readScratch[Flat(j, jitter.g.nc) + i]];
        j := j + 1;
      }
      pose := FramePose(rings[i], kept, readPos, initial);
    }
  }

  /** v is sample j of channel i of an interleaved block. */
  ghost predicate SampleAt(block: seq<real>, v: real, j: int, i: int, nc: int) {
    0 <= Flat(j, nc) + i < |block| && v == block[Flat(j, nc) + i]
  }

  lemma FrameCount(n: nat, nc: nat)
    requires nc > 0
    ensures Flat(n, nc) / nc == n
  {
    DivModUnique(nc, n, 0, Flat(n, nc) / nc, Flat(n, nc) % nc);
  }

  lemma LaterClock(rings: seq<seq<Sample>>, clock: int, later: int)
    requires RingsOk(rings, clock) && clock <= later
    ensures RingsOk(rings, later)
  {
  }

  lemma WholeFrame(n: nat, nc: nat, frame: seq<real>)
    requires nc > 0 && |frame| == Flat(n, nc)
    ensures |frame| / nc == n
  {
    FrameCount(n, nc);
  }

  method InterleaveFrame(pcm: seq<seq<real>>, frameSize: nat) returns (frame: seq<real>)
    requires |pcm| > 0
    ensures Interleaves(frame, pcm, frameSize)
  {
    hide Flat;
    hide ChannelOf;
    hide FrameOf;
    hide SampleOf;
    var n := |pcm|;
    FlatNat(frameSize, n);
    Coordinates(n);
    var scratch := new real[Flat(frameSize, n)];
    var i := 0;
    while i < n
      invariant 0 <= i <= n
      invariant forall q :: 0 <= q < scratch.Length && ChannelOf(q, n) < i ==> CellRight(scratch[..], pcm, q)
    {
      WriteChannel(scratch, pcm, frameSize, i);
      i := i + 1;
    }
    frame := scratch[..];
  }

  /** Spread one member's samples over its channel, padding with silence; other channels keep
      what they have. */
  method WriteChannel(scratch: array<real>, pcm: seq<seq<real>>, frameSize: nat, i: nat)
    requires i < |pcm| && scratch.Length == Flat(frameSize, |pcm|)
    modifies scratch
    ensures forall q :: 0 <= q < scratch.Length ==>
              if ChannelOf(q, |pcm|) == i then CellRight(scratch[..], pcm, q) else scratch[q] == old(scratch[q])
  {
    hide Flat;
    hide ChannelOf;
    hide FrameOf;
    hide SampleOf;
    var n := |pcm|;
    Coordinates(n);
    var j := 0;
    while j < frameSize
      invariant 0 <= j <= frameSize
      invariant forall q :: 0 <= q < scratch.Length ==>
                  if ChannelOf(q, n) == i && FrameOf(q, n) < j then CellRight(scratch[..], pcm, q)
                  else scratch[q] == old(scratch[q])
    {
      CutInside(j, frameSize, n);
      CellAt(j, i, n);
      scratch[Flat(j, n) + i] := SampleOf(pcm, i, j);
      j := j + 1;
    }
    forall q | 0 <= q < scratch.Length
      ensures FrameOf(q, n) < frameSize
    {
      FrameInside(q, frameSize, n);
    }
  }
}
