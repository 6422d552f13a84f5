/** Where a pair's crossfade starts: the double-buffered per-slot weights of a listener's encoder,
    which flip only on calls that are offered peers, beside the delay state, which counts every
    call. */
module WeightFade {
  import opened Layout
  import opened MixerModel
  import opened Mixer
  import opened DelayLine

  // ---- From the mixer's rows to the encoder's peers -------------------------------------------

  /** A listener's row as its encoder sees it: slot, source and direction. */
  function PeersOf(a: Audio, row: seq<Id>, uid: Id -> int, direction: Id -> real): (r: seq<Peer>)
    requires forall i :: 0 <= i < |row| ==> row[i] in a.ents
    ensures |r| == |row|
  {
    seq(|row|, i requires 0 <= i < |row| => Peer(a.ents[row[i]].slot, uid(row[i]), direction(row[i])))
  }

  /** What a tick hands a listener's encoder meets the encoder's precondition. */
  lemma RowFeedsEncoder(a: Audio, k: Id, row: seq<Id>, uid: Id -> int, direction: Id -> real)
    requires SlotsOk(a) && k in a.ents && HearsExactly(a, k, row)
    ensures forall i :: 0 <= i < |row| ==> row[i] in a.ents
    ensures SlotsApart(PeersOf(a, row, uid, direction), |a.slots|)
  {
    RowSlotsApart(a, k, row);
    hide HearsExactly;
    hide SlotsOk;
  }

  // ---- Runs of calls -----------------------------------------------------------------------------

  /** A peer that passed the filter, with this frame's weights. */
  datatype Weighted = Weighted(slot: nat, id: int, weights: seq<real>)

  /** One call: how many peers it was offered, and those that passed the filter. */
  datatype Call = Call(offered: nat, peers: seq<Weighted>)

  ghost predicate CallOk(c: Call, nCh: nat, maxNodes: nat) {
    && |c.peers| <= c.offered
    && (forall i :: 0 <= i < |c.peers| ==> c.peers[i].slot < maxNodes && |c.peers[i].weights| == nCh)
    && (forall i, j :: 0 <= i < j < |c.peers| ==> c.peers[i].slot != c.peers[j].slot)
  }

  /** Who was rendered in each slot. */
  function OwnersOf(peers: seq<Weighted>): map<nat, int> {
    if peers == [] then map[]
    else OwnersOf(peers[..|peers| - 1])[peers[|peers| - 1].slot := peers[|peers| - 1].id]
  }

  function WeightsOf(peers: seq<Weighted>): map<nat, seq<real>> {
    if peers == [] then map[]
    else WeightsOf(peers[..|peers| - 1])[peers[|peers| - 1].slot := peers[|peers| - 1].weights]
  }

  lemma {:induction false} SameSlots(peers: seq<Weighted>)
    ensures OwnersOf(peers).Keys == WeightsOf(peers).Keys
  {
    if peers != [] {
      SameSlots(peers[..|peers| - 1]);
    }
  }

  /** Whom the latest call rendered. */
  function LastRendered(calls: seq<Call>): map<nat, int> {
    if calls == [] then map[] else OwnersOf(calls[|calls| - 1].peers)
  }

  /** The weights of the latest call that was offered any peers. */
  function LastWeights(calls: seq<Call>): map<nat, seq<real>> {
    if calls == [] then map[]
    else if calls[|calls| - 1].offered == 0 then LastWeights(calls[..|calls| - 1])
    else WeightsOf(calls[|calls| - 1].peers)
  }

  /** A slot's weights, silence if it has none. */
  function Slot(m: map<nat, seq<real>>, slot: nat, nCh: nat): seq<real> {
    if slot in m then m[slot] else Zeros(nCh)
  }

  /** Where a slot's crossfade starts. */
  function StartWeights(calls: seq<Call>, slot: nat, nCh: nat): seq<real> {
    Slot(LastWeights(calls), slot, nCh)
  }

  /** The source was not rendered in this slot by the latest call, so its delays do not ramp. */
  predicate IsNew(calls: seq<Call>, slot: nat, id: int) {
    !(slot in LastRendered(calls) && LastRendered(calls)[slot] == id)
  }

  /** A new source fades in from nothing, as the snapped delay relies on, exactly unless its slot is
      still weighted: by the last call with peers when the latest call was offered none, or by
      another source in the latest call. */
  lemma NewSourceFadesIn(calls: seq<Call>, slot: nat, id: int)
    requires IsNew(calls, slot, id)
    ensures slot in LastWeights(calls) <==>
            calls != [] && if calls[|calls| - 1].offered == 0 then slot in LastWeights(calls[..|calls| - 1])
                           else slot in LastRendered(calls) && LastRendered(calls)[slot] != id
  {
    if calls != [] {
      SameSlots(calls[|calls| - 1].peers);
    }
  }

  /** Both exceptions occur: a source heard, then a call without peers; and a source heard, then
      another one in its slot. The newcomer's crossfade starts from the old weights. */
  lemma StaleStarts(id: int, other: int, nCh: nat, weights: seq<real>)
    requires id != other
    ensures var heard := Call(1, [Weighted(0, id, weights)]);
            && IsNew([heard, Call(0, [])], 0, id) && StartWeights([heard, Call(0, [])], 0, nCh) == weights
            && IsNew([heard], 0, other) && StartWeights([heard], 0, nCh) == weights
  {
    var p := Weighted(0, id, weights);
    var heard := Call(1, [p]);
    assert [p][..0] == [];
    assert WeightsOf([p]) == map[0 := weights] && OwnersOf([p]) == map[0 := id];
    assert [heard, Call(0, [])][..1] == [heard];
    assert LastWeights([heard, Call(0, [])]) == LastWeights([heard]);
  }

  // ---- The buffers -----------------------------------------------------------------------------------

  /** A buffer holds the given weights, and silence in every other slot. */
  ghost predicate BufferIs(buffer: seq<seq<real>>, m: map<nat, seq<real>>, nCh: nat, maxNodes: nat) {
    && |buffer| == maxNodes
    && forall s :: 0 <= s < maxNodes ==> buffer[s] == Slot(m, s, nCh)
  }

  class WeightBuffers {
    const nCh: nat
    const maxNodes: nat
    var bufferACurrent: bool
    var weightsA: seq<seq<real>>
    var weightsB: seq<seq<real>>

    /** Every call made. */
    ghost var calls: seq<Call>

    ghost predicate Valid()
      reads this
    {
      && |weightsA| == maxNodes && |weightsB| == maxNodes
      && BufferIs(if bufferACurrent then weightsA else weightsB, LastWeights(calls), nCh, maxNodes)
    }

    constructor (nCh: nat, maxNodes: nat)
      ensures Valid() && this.nCh == nCh && this.maxNodes == maxNodes && calls == []
    {
      this.nCh, this.maxNodes := nCh, maxNodes;
      bufferACurrent := false;
      weightsA := seq(maxNodes, _ => Zeros(nCh));
      weightsB := seq(maxNodes, _ => Zeros(nCh));
      calls := [];
    }

    /** One call: the pairs of weights its crossfades run between. Each starts from what the latest
        call that was offered any peers left in the slot. */
    method Encode(c: Call) returns (starts: seq<seq<real>>)
      requires Valid() && CallOk(c, nCh, maxNodes)
      modifies this
      ensures Valid() && calls == old(calls) + [c] && |starts| == |c.peers|
      ensures forall i :: 0 <= i < |c.peers| ==> starts[i] == StartWeights(old(calls), c.peers[i].slot, nCh)
    {
      hide LastWeights;
      hide BufferIs;
      if c.offered == 0 {
        LastIsKept(calls, c);
        starts := [];
        calls := calls + [c];
        return;
      }
      LastIsThis(calls, c);
      bufferACurrent := !bufferACurrent;
      var current;
      current, starts := Pack(if bufferACurrent then weightsB else weightsA, LastWeights(calls), c, nCh, maxNodes);
      if bufferACurrent {
        weightsA := current;
      } else {
        weightsB := current;
      }
      assert |current| == maxNodes by { BufferSized(current, WeightsOf(c.peers), nCh, maxNodes); }
      calls := calls + [c];
    }
  }

  lemma BufferSized(buffer: seq<seq<real>>, m: map<nat, seq<real>>, nCh: nat, maxNodes: nat)
    requires BufferIs(buffer, m, nCh, maxNodes)
    ensures |buffer| == maxNodes
  {
  }

  lemma BufferAt(buffer: seq<seq<real>>, m: map<nat, seq<real>>, nCh: nat, maxNodes: nat, s: nat)
    requires BufferIs(buffer, m, nCh, maxNodes) && s < maxNodes
    ensures |buffer| == maxNodes && buffer[s] == Slot(m, s, nCh)
  {
  }

  lemma BufferPut(buffer: seq<seq<real>>, peers: seq<Weighted>, i: nat, nCh: nat, maxNodes: nat)
    requires i < |peers| && peers[i].slot < maxNodes && BufferIs(buffer, WeightsOf(peers[..i]), nCh, maxNodes)
    ensures |buffer| == maxNodes
    ensures BufferIs(buffer[peers[i].slot := peers[i].weights], WeightsOf(peers[..i + 1]), nCh, maxNodes)
  {
    hide Zeros;
    assert peers[..i + 1][..i] == peers[..i];
  }

  /** Clear the current buffer, write this frame's weights into it, and take each crossfade's start
      from the previous one. */
  method Pack(previous: seq<seq<real>>, ghost last: map<nat, seq<real>>, c: Call, nCh: nat, maxNodes: nat)
    returns (current: seq<seq<real>>, starts: seq<seq<real>>)
    requires BufferIs(previous, last, nCh, maxNodes) && CallOk(c, nCh, maxNodes)
    ensures BufferIs(current, WeightsOf(c.peers), nCh, maxNodes) && |starts| == |c.peers|
    ensures forall i :: 0 <= i < |c.peers| ==>
              starts[i] == Slot(last, c.peers[i].slot, nCh)
  {
    current, starts := seq(maxNodes, _ => Zeros(nCh)), [];
    hide Zeros;
    assert c.peers[..0] == [];
    assert BufferIs(current, WeightsOf([]), nCh, maxNodes);
    hide BufferIs;
    hide Slot;
    hide WeightsOf;
    BufferSized(previous, last, nCh, maxNodes);
    var i := 0;
    while i < |c.peers|
      invariant 0 <= i <= |c.peers| && |starts| == i
      invariant BufferIs(current, WeightsOf(c.peers[..i]), nCh, maxNodes)
      invariant forall k :: 0 <= k < i ==> starts[k] == Slot(last, c.peers[k].slot, nCh)
    {
      var p := c.peers[i];
      BufferPut(current, c.peers, i, nCh, maxNodes);
      BufferAt(previous, last, nCh, maxNodes, p.slot);
      current := current[p.slot := p.weights];
      starts := starts + [previous[p.slot]];
      i := i + 1;
    }
    assert c.peers[..i] == c.peers;
  }

  lemma LastIsKept(calls: seq<Call>, c: Call)
    requires c.offered == 0
    ensures LastWeights(calls + [c]) == LastWeights(calls)
  {
    assert (calls + [c])[..|calls|] == calls;
  }

  lemma LastIsThis(calls: seq<Call>, c: Call)
    requires c.offered > 0
    ensures LastWeights(calls + [c]) == WeightsOf(c.peers)
  {
  }
}
