/** The black-box decoder: it reconstructs the played stream positions and every splice from
    read output alone. */
module Ledger {
  import opened Layout
  import opened RampCodec

  datatype ArtifactKind = DropArtifact | InsertArtifact | SnapArtifact | SilenceArtifact

  datatype Artifact = Artifact(kind: ArtifactKind, time: int, pos: int, delta: int)

  datatype Dec = Dec(
    lastPos: int,
    silenceOpen: bool, silenceTime: int, silenceFrames: int, joinSilenceFrames: int,
    artifacts: seq<Artifact>,
    drops: int, inserts: int, snaps: int, silenceRuns: int, aliens: int)

  const FRESH := Dec(-1, false, 0, 0, 0, [], 0, 0, 0, 0, 0)

  function CloseSilence(d: Dec): Dec {
    if !d.silenceOpen then d
    else d.(silenceOpen := false, silenceRuns := d.silenceRuns + 1,
            artifacts := d.artifacts + [Artifact(SilenceArtifact, d.silenceTime, d.lastPos, d.silenceFrames)])
  }

  /** The absolute position of a plain sample. */
  function PlainPos(d: Dec, w: int): int {
    if d.lastPos < 0 then w else UnwrapPos(d.lastPos, w)
  }

  function PlainSample(d: Dec, time: int, w: int): Dec {
    var pos := PlainPos(d, w);
    if d.lastPos < 0 || pos == d.lastPos + 1 then d.(lastPos := pos)
    else d.(lastPos := pos, snaps := d.snaps + 1,
            artifacts := d.artifacts + [Artifact(SnapArtifact, time, pos, pos - (d.lastPos + 1))])
  }

  function Marker(d: Dec, time: int, v: real): Dec {
    if d.lastPos < 0 then d.(aliens := d.aliens + 1)
    else if v == MarkerValue(d.lastPos) then
      d.(inserts := d.inserts + 1,
         artifacts := d.artifacts + [Artifact(InsertArtifact, time, d.lastPos + 1, 0)])
    else if v == MarkerValue(d.lastPos + 1) then
      d.(drops := d.drops + 1, lastPos := d.lastPos + 2,
         artifacts := d.artifacts + [Artifact(DropArtifact, time, d.lastPos + 2, 0)])
    else d.(aliens := d.aliens + 1)
  }

  function Silent(d: Dec, time: int): Dec {
    if d.lastPos < 0 then d.(joinSilenceFrames := d.joinSilenceFrames + 1)
    else if !d.silenceOpen then d.(silenceOpen := true, silenceTime := time, silenceFrames := 1)
    else d.(silenceFrames := d.silenceFrames + 1)
  }

  function FeedSample(d: Dec, time: int, v: real): Dec {
    match Classify(v)
    case SilenceSample => Silent(d, time)
    case PlainAt(w) => PlainSample(CloseSilence(d), time, w)
    case MarkerSample => Marker(CloseSilence(d), time, v)
    case AlienSample => d.(aliens := d.aliens + 1)
  }

  /** Decode a run of channel-0 samples. */
  function Feed(d: Dec, time: int, vs: seq<real>): Dec {
    if vs == [] then d
    else FeedSample(Feed(d, time, vs[..|vs| - 1]), time, vs[|vs| - 1])
  }

  lemma {:induction false} FeedConcat(d: Dec, time: int, a: seq<real>, b: seq<real>)
    ensures Feed(d, time, a + b) == Feed(Feed(d, time, a), time, b)
  {
    if b == [] {
      assert a + b == a;
    } else {
      assert (a + b)[..|a + b| - 1] == a + b[..|b| - 1];
      FeedConcat(d, time, a, b[..|b| - 1]);
    }
  }

  /** Channel 0 of an interleaved block. */
  function Channel0(block: seq<real>, nc: nat): (vs: seq<real>)
    requires nc > 0
    ensures |vs| == |block| / nc
  {
    seq(|block| / nc, f requires 0 <= f < |block| / nc =>
      FrameStart(f, |block|, nc); block[Flat(f, nc)])
  }

  lemma FrameStart(f: nat, len: nat, nc: nat)
    requires nc > 0 && f < len / nc
    ensures 0 <= Flat(f, nc) && Flat(f, nc) + nc <= len
  {
    FlatNat(f, nc);
    FlatOrder(f + 1, len / nc, nc);
    FlatNext(f, nc);
  }

  /** The position of the first plain sample, given the state before the block. */
  function FirstPlain(d: Dec, time: int, vs: seq<real>): int {
    if vs == [] then -1
    else
      var p := FirstPlain(d, time, vs[..|vs| - 1]);
      var before := Feed(d, time, vs[..|vs| - 1]);
      if p < 0 && Classify(vs[|vs| - 1]).PlainAt? then PlainPos(before, Classify(vs[|vs| - 1]).w) else p
  }

  lemma {:induction false} PlainFirst(d: Dec, time: int, v: real, rest: seq<real>)
    requires Classify(v).PlainAt? && PlainPos(d, Classify(v).w) >= 0
    ensures FirstPlain(d, time, [v] + rest) == PlainPos(d, Classify(v).w)
  {
    hide PlainPos;
    hide Classify;
    hide FeedSample;
    if rest == [] {
      assert ([v] + rest)[..0] == [] && ([v] + rest)[0] == v;
      assert Feed(d, time, []) == d;
    } else {
      assert ([v] + rest)[..|rest|] == [v] + rest[..|rest| - 1];
      PlainFirst(d, time, v, rest[..|rest| - 1]);
    }
  }

  lemma {:induction false} OtherFirst(d: Dec, time: int, v: real, rest: seq<real>)
    requires !Classify(v).PlainAt?
    ensures FirstPlain(d, time, [v] + rest) == FirstPlain(FeedSample(d, time, v), time, rest)
  {
    hide PlainPos;
    hide Classify;
    hide FeedSample;
    if rest == [] {
      assert ([v] + rest)[..0] == [] && ([v] + rest)[0] == v;
    } else {
      var init := rest[..|rest| - 1];
      assert ([v] + rest)[..|rest|] == [v] + init;
      OtherFirst(d, time, v, init);
      FeedConcat(d, time, [v], init);
      assert [v][..0] == [];
      assert Feed(d, time, [v]) == FeedSample(d, time, v);
    }
  }

  class Decoder {
    const nc: nat
    var lastPos: int
    var silenceOpen: bool
    var silenceTime: int
    var silenceFrames: int
    var joinSilenceFrames: int
    var artifacts: seq<Artifact>
    var drops: int
    var inserts: int
    var snaps: int
    var silenceRuns: int
    var aliens: int

    ghost function State(): Dec
      reads this
    {
      Dec(lastPos, silenceOpen, silenceTime, silenceFrames, joinSilenceFrames, artifacts,
          drops, inserts, snaps, silenceRuns, aliens)
    }

    constructor (nc: nat)
      ensures this.nc == nc && State() == FRESH
    {
      this.nc := nc;
      lastPos, silenceOpen, silenceTime, silenceFrames, joinSilenceFrames := -1, false, 0, 0, 0;
      artifacts, drops, inserts, snaps, silenceRuns, aliens := [], 0, 0, 0, 0, 0;
    }

    method CloseOpenSilence()
      modifies this
      ensures State() == CloseSilence(old(State()))
    {
      if !silenceOpen {
        return;
      }
      silenceOpen := false;
      silenceRuns := silenceRuns + 1;
      artifacts := artifacts + [Artifact(SilenceArtifact, silenceTime, lastPos, silenceFrames)];
    }

    method TakePlain(time: int, w: int) returns (pos: int)
      modifies this
      ensures State() == PlainSample(old(State()), time, w) && pos == PlainPos(old(State()), w)
    {
      hide UnwrapPos;
      if lastPos < 0 {
        lastPos := w;
        return w;
      }
      pos := UnwrapPos(lastPos, w);
      if pos != lastPos + 1 {
        snaps := snaps + 1;
        artifacts := artifacts + [Artifact(SnapArtifact, time, pos, pos - (lastPos + 1))];
      }
      lastPos := pos;
    }

    method TakeMarker(time: int, v: real)
      modifies this
      ensures State() == Marker(old(State()), time, v)
    {
      hide MarkerValue;
      if lastPos < 0 {
        aliens := aliens + 1;
      } else if v == MarkerValue(lastPos) {
        inserts := inserts + 1;
        artifacts := artifacts + [Artifact(InsertArtifact, time, lastPos + 1, 0)];
      } else if v == MarkerValue(lastPos + 1) {
        drops := drops + 1;
        artifacts := artifacts + [Artifact(DropArtifact, time, lastPos + 2, 0)];
        lastPos := lastPos + 2;
      } else {
        aliens := aliens + 1;
      }
    }

    method TakeSilence(time: int)
      modifies this
      ensures State() == Silent(old(State()), time)
    {
      if lastPos < 0 {
        joinSilenceFrames := joinSilenceFrames + 1;
        return;
      }
      if !silenceOpen {
        silenceOpen := true;
        silenceTime := time;
        silenceFrames := 0;
      }
      silenceFrames := silenceFrames + 1;
    }

    /** Decode one read block; returns the position of its first plain sample, or -1. */
    method FeedBlock(time: int, block: seq<real>) returns (firstPos: int)
      requires nc > 0
      modifies this
      ensures State() == Feed(old(State()), time, Channel0(block, nc))
      ensures firstPos == FirstPlain(old(State()), time, Channel0(block, nc))
    {
      hide Flat;
      hide Classify;
      hide PlainSample;
      hide PlainPos;
      hide Marker;
      hide Silent;
      hide CloseSilence;
      ghost var vs := Channel0(block, nc);
      ghost var d0 := State();
      firstPos := -1;
      var f := 0;
      assert vs[..f] == [];
      while f < |block| / nc
        invariant 0 <= f <= |block| / nc
        invariant State() == Feed(d0, time, vs[..f])
        invariant firstPos == FirstPlain(d0, time, vs[..f])
      {
        FrameStart(f, |block|, nc);
        var v := block[Flat(f, nc)];
        assert vs[..f + 1][..f] == vs[..f] && vs[..f + 1][f] == v;
        match Classify(v) {
        case SilenceSample =>
          TakeSilence(time);
        case PlainAt(w) =>
          PosKept(State(), w);
          CloseOpenSilence();
          var pos := TakePlain(time, w);
          if firstPos < 0 {
            firstPos := pos;
          }
        case MarkerSample =>
          CloseOpenSilence();
          TakeMarker(time, v);
        case AlienSample =>
          aliens := aliens + 1;
        }
        f := f + 1;
      }
      assert vs[..f] == vs;
    }
  }

  lemma PosKept(d: Dec, w: int)
    ensures PlainPos(CloseSilence(d), w) == PlainPos(d, w)
  {
  }
}
