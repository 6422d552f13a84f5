/** The mixer: control-plane calls answer from the registry and queue a change; the audio thread
    drains the queue, refreshes the pair record when it is dirty, and lists each listener's
    audible sources. */
module Mixer {
  import opened Layout
  import opened MixerModel
  import opened PairRecord

  datatype Error = Ok | ErrClosed | ErrDuplicate | ErrFull | ErrUnknownEntity | ErrBadOrder

  // ---- The pair record as a cache --------------------------------------------------

  type Pairs = seq<seq<PairRecord.Cell>>

  predicate Square(pairs: Pairs, max: nat) {
    |pairs| == max && forall i :: 0 <= i < max ==> |pairs[i]| == max
  }

  /** The cell of source s and listener k is the policy's. */
  ghost predicate CellOk(a: Audio, pairs: Pairs, s: Id, k: Id)
    requires s in a.ents && k in a.ents && Square(pairs, |a.slots|) && SlotsOk(a)
  {
    CellRight(a.rules, s, a.ents[s].params, k, a.ents[k].params, pairs[a.ents[k].slot][a.ents[s].slot])
  }

  ghost predicate CacheRight(a: Audio, pairs: Pairs)
    requires Square(pairs, |a.slots|) && SlotsOk(a)
  {
    forall s, k :: s in a.ents && k in a.ents ==> CellOk(a, pairs, s, k)
  }

  /** Nothing the policy reads has changed. */
  predicate SamePolicyInputs(a: Audio, b: Audio) {
    && a.rules == b.rules && |a.slots| == |b.slots|
    && forall id :: id in b.ents ==>
         id in a.ents && b.ents[id].slot == a.ents[id].slot && b.ents[id].params == a.ents[id].params
  }

  /** A change either marks the record dirty or leaves everything the policy reads alone. */
  lemma DirtyOrSame(a: Audio, c: Change)
    requires Safe(a, c) && SlotsOk(a)
    ensures Apply(a, c).dirty || (SamePolicyInputs(a, Apply(a, c)) && !a.dirty)
  {
    hide FirstFree;
    hide SlotsOk;
  }

  lemma CacheSurvives(a: Audio, b: Audio, pairs: Pairs)
    requires Square(pairs, |a.slots|) && SlotsOk(a) && SlotsOk(b) && SamePolicyInputs(a, b)
    requires CacheRight(a, pairs)
    ensures CacheRight(b, pairs)
  {
    hide CellRight;
    forall s, k | s in b.ents && k in b.ents
      ensures CellOk(b, pairs, s, k)
    {
      assert CellOk(a, pairs, s, k);
    }
  }

  // ---- The queue as the control plane's history ----------------------------------------

  /** Each queued change was acceptable to the registry it was made against, and took that
      registry to the next one. */
  ghost predicate Chain(regs: seq<Registry>, changes: seq<Change>, max: nat) {
    && |regs| == |changes| + 1
    && (forall i :: 0 <= i < |regs| ==> RegOk(regs[i], max))
    && (forall i :: 0 <= i < |changes| ==> Link(regs, i, changes[i], max))
  }

  ghost predicate Link(regs: seq<Registry>, i: nat, c: Change, max: nat)
    requires i + 1 < |regs|
  {
    Accepts(regs[i], max, c) && regs[i + 1] == Registered(regs[i], c)
  }

  lemma ChainGrows(regs: seq<Registry>, changes: seq<Change>, max: nat, c: Change)
    requires Chain(regs, changes, max) && Accepts(regs[|changes|], max, c)
    ensures Chain(regs + [Registered(regs[|changes|], c)], changes + [c], max)
  {
    RegisteredOk(regs[|changes|], max, c);
    hide RegOk;
    hide Accepts;
    hide Registered;
    var more := regs + [Registered(regs[|changes|], c)];
    assert more[..|regs|] == regs;
    forall i | 0 <= i < |changes| + 1
      ensures Link(more, i, (changes + [c])[i], max)
    {
      assert i < |changes| ==> Link(regs, i, changes[i], max);
    }
  }

  lemma ChainShrinks(regs: seq<Registry>, changes: seq<Change>, max: nat)
    requires Chain(regs, changes, max) && changes != []
    ensures Accepts(regs[0], max, changes[0]) && regs[1] == Registered(regs[0], changes[0])
    ensures Chain(regs[1..], changes[1..], max)
  {
    hide RegOk;
    hide Accepts;
    hide Registered;
    assert Link(regs, 0, changes[0], max);
    forall i | 0 <= i < |changes| - 1
      ensures Link(regs[1..], i, changes[1..][i], max)
    {
      assert Link(regs, i + 1, changes[i + 1], max);
    }
  }

  lemma SameIds(reg: Registry, id: Id, e: RegEntry)
    requires id in reg
    ensures |reg[id := e]| == |reg|
  {
    assert reg[id := e].Keys == reg.Keys;
  }

  // ---- Peers rows --------------------------------------------------------------------

  predicate Listening(e: Entity) {
    e.sink.Some? || e.ambi != map[]
  }

  /** The listener's audible sources among the first i slots, in slot order. */
  function Row(a: Audio, pairs: Pairs, k: nat, i: nat): seq<Id>
    requires SlotsOk(a) && Square(pairs, |a.slots|) && k < |a.slots| && i <= |a.slots|
  {
    if i == 0 then []
    else
      var row := Row(a, pairs, k, i - 1);
      if a.slots[i - 1].Some? && a.ents[a.slots[i - 1].value].src.Some? && pairs[k][i - 1].audible
      then row + [a.slots[i - 1].value] else row
  }

  lemma {:induction false} RowMembers(a: Audio, pairs: Pairs, k: nat, i: nat, id: Id)
    requires SlotsOk(a) && Square(pairs, |a.slots|) && k < |a.slots| && i <= |a.slots|
    ensures id in Row(a, pairs, k, i) <==>
            id in a.ents && a.ents[id].slot < i && a.ents[id].src.Some? && pairs[k][a.ents[id].slot].audible
    ensures id in Row(a, pairs, k, i) ==> id in a.ents
  {
    if i > 0 {
      RowMembers(a, pairs, k, i - 1, id);
    }
  }

  ghost predicate NoRepeats(row: seq<Id>) {
    forall i, j :: 0 <= i < j < |row| ==> row[i] != row[j]
  }

  /** Nobody is listed twice. */
  lemma {:induction false} RowHasNoRepeats(a: Audio, pairs: Pairs, k: nat, i: nat)
    requires SlotsOk(a) && Square(pairs, |a.slots|) && k < |a.slots| && i <= |a.slots|
    ensures NoRepeats(Row(a, pairs, k, i))
  {
    if i > 0 {
      RowHasNoRepeats(a, pairs, k, i - 1);
      if a.slots[i - 1].Some? {
        RowMembers(a, pairs, k, i - 1, a.slots[i - 1].value);
      }
    }
  }

  /** The row of a listener is exactly the live sources the policy lets it hear, each once. */
  ghost predicate HearsExactly(a: Audio, k: Id, row: seq<Id>)
    requires k in a.ents
  {
    && NoRepeats(row)
    && forall s: Id :: s in row <==>
         && s in a.ents && a.ents[s].src.Some?
         && Shared(a.rules, a.ents[s].params, a.ents[k].params) != {} && Allowed(a.rules, s, k)
  }

  /** The slots of such a row are in range and pairwise different, as the encoders need them. */
  lemma RowSlotsApart(a: Audio, k: Id, row: seq<Id>)
    requires SlotsOk(a) && k in a.ents && HearsExactly(a, k, row)
    ensures forall i :: 0 <= i < |row| ==> row[i] in a.ents && a.ents[row[i]].slot < |a.slots|
    ensures forall i, j :: 0 <= i < j < |row| ==> a.ents[row[i]].slot != a.ents[row[j]].slot
  {
    forall i | 0 <= i < |row|
      ensures row[i] in a.ents
    {
      assert row[i] in row;
    }
  }

  lemma RowIsPolicy(a: Audio, pairs: Pairs, k: Id)
    requires SlotsOk(a) && Square(pairs, |a.slots|) && CacheRight(a, pairs) && k in a.ents
    ensures HearsExactly(a, k, Row(a, pairs, a.ents[k].slot, |a.slots|))
  {
    var row := Row(a, pairs, a.ents[k].slot, |a.slots|);
    RowHasNoRepeats(a, pairs, a.ents[k].slot, |a.slots|);
    forall s: Id
      ensures s in row <==>
              && s in a.ents && a.ents[s].src.Some?
              && Shared(a.rules, a.ents[s].params, a.ents[k].params) != {} && Allowed(a.rules, s, k)
    {
      RowMembers(a, pairs, a.ents[k].slot, |a.slots|, s);
      if s in a.ents {
        assert CellOk(a, pairs, s, k);
        AudibleMeans(a.rules, s, a.ents[s].params, k, a.ents[k].params, pairs[a.ents[k].slot][a.ents[s].slot]);
      }
      hide CellRight;
      hide Shared;
      hide Allowed;
      hide Row;
    }
  }

  /** A mute by either side keeps a pair apart both ways, unless the listener solos. */
  lemma MuteSilences(a: Audio, k: Id, s: Id, row: seq<Id>)
    requires k in a.ents && HearsExactly(a, k, row) && k !in a.rules.solos
    requires Lists(a.rules.mutes, k, s) || Lists(a.rules.mutes, s, k)
    ensures s !in row
  {
  }

  /** A listener with solos hears exactly the soloed sources it shares an open channel with, mutes
      or not. */
  lemma SoloDecides(a: Audio, k: Id, s: Id, row: seq<Id>)
    requires k in a.ents && s in a.ents && HearsExactly(a, k, row) && k in a.rules.solos && a.rules.solos[k] != {}
    ensures s in row <==> a.ents[s].src.Some? && Lists(a.rules.solos, k, s)
                          && Shared(a.rules, a.ents[s].params, a.ents[k].params) != {}
  {
    hide Shared;
  }

  /** A mute that has been run: at the tick after it neither hears the other, unless it solos. */
  lemma MuteTakesEffect(a: Audio, k: Id, s: Id, rowK: seq<Id>, rowS: seq<Id>)
    requires k in a.ents && s in a.ents && k !in a.rules.solos && s !in a.rules.solos
    requires HearsExactly(Apply(a, SetMute(k, s, true)), k, rowK) && HearsExactly(Apply(a, SetMute(k, s, true)), s, rowS)
    ensures s !in rowK && k !in rowS
  {
    var b := Apply(a, SetMute(k, s, true));
    SettingIsApplied(a, SetMute(k, s, true));
    assert b.rules.solos == a.rules.solos;
    hide Apply;
    hide HearsExactly;
    MuteSilences(b, k, s, rowK);
    MuteSilences(b, s, k, rowS);
  }

  /** A mute taken back, where the other side mutes nobody here: the pair hear each other again as
      far as channels let them. */
  lemma UnmuteTakesEffect(a: Audio, k: Id, s: Id, rowK: seq<Id>)
    requires k in a.ents && s in a.ents && k !in a.rules.solos && !Lists(a.rules.mutes, s, k) && k != s
    requires HearsExactly(Apply(a, SetMute(k, s, false)), k, rowK)
    ensures s in rowK <==> a.ents[s].src.Some? && Shared(a.rules, a.ents[s].params, a.ents[k].params) != {}
  {
    var b := Apply(a, SetMute(k, s, false));
    SettingIsApplied(a, SetMute(k, s, false));
    assert b.rules.solos == a.rules.solos && b.rules.channels == a.rules.channels;
    assert Shared(b.rules, b.ents[s].params, b.ents[k].params) == Shared(a.rules, a.ents[s].params, a.ents[k].params);
    assert !Lists(b.rules.mutes, k, s) && !Lists(b.rules.mutes, s, k);
    hide Apply;
    hide Shared;
  }

  lemma AudibleMeans(rules: Rules, sId: Id, s: RenderParams, kId: Id, k: RenderParams, cell: PairRecord.Cell)
    requires CellRight(rules, sId, s, kId, k, cell)
    ensures cell.audible <==> Shared(rules, s, k) != {} && Allowed(rules, sId, kId)
  {
    hide WinningGain;
    hide WinningAtt;
  }

  // ---- The mixer ---------------------------------------------------------------------

  class Mixer {
    const max: nat
    const busOrder: int

    // Control plane.
    var reg: Registry
    var entityCount: int
    var closed: bool

    var changes: seq<Change>

    // Audio thread.
    var ents: map<Id, Entity>
    var slots: seq<Option<Id>>
    var rules: Rules
    var dirty: bool
    var pairs: Pairs
    var peers: map<Id, seq<Id>>

    /** The registry at each queue point: regs[0] where the audio thread is, the last one now. */
    ghost var regs: seq<Registry>

    function View(): Audio
      reads this
    {
      Audio(ents, slots, rules, dirty)
    }

    /** The queue is the control plane's own history since the audio thread's point, and the
        running count is the size of the registry. */
    ghost predicate QueueOk()
      reads this
    {
      && Chain(regs, changes, max) && regs[|changes|] == reg
      && entityCount == |reg|
    }

    ghost predicate Valid()
      reads this
    {
      && QueueOk()
      && Good(View(), regs[0], max)
      && Square(pairs, max)
      && (!dirty ==> CacheRight(View(), pairs))
    }

    constructor (max: nat, busOrder: int)
      ensures Valid() && this.max == max && this.busOrder == busOrder
      ensures reg == map[] && changes == [] && ents == map[] && !closed
    {
      this.max, this.busOrder := max, busOrder;
      reg, entityCount, closed, changes := map[], 0, false, [];
      ents := map[];
      slots := seq(max, _ => None);
      rules := Rules(map[], map[], map[]);
      dirty := false;
      pairs := seq(max, _ => seq(max, _ => SILENT));
      peers := map[];
      regs := [map[]];
    }

    // ---- Control-plane calls -----------------------------------------------------------

    /** Queue the audio half of a call whose registry half is done. */
    method Enqueue(c: Change)
      requires Chain(regs, changes, max) && Accepts(regs[|changes|], max, c)
      requires reg == Registered(regs[|changes|], c) && entityCount == |reg|
      requires Good(View(), regs[0], max) && Square(pairs, max) && (!dirty ==> CacheRight(View(), pairs))
      modifies this`changes, this`regs
      ensures Valid() && changes == old(changes) + [c]
    {
      hide Registered;
      hide Accepts;
      hide Good;
      hide CacheRight;
      ChainGrows(regs, changes, max, c);
      hide Chain;
      changes := changes + [c];
      regs := regs + [reg];
    }

    /** Find or create the id's registry entry; the count bounds new ids. */
    method Admit(id: Id) returns (ok: bool)
      requires entityCount == |reg|
      modifies this`reg, this`entityCount
      ensures ok <==> id in old(reg) || |old(reg)| < max
      ensures reg == if ok then old(reg)[id := Entry(old(reg), id)] else old(reg)
      ensures entityCount == |reg|
    {
      ok := true;
      if id !in reg {
        if entityCount >= max {
          return false;
        }
        AddSize(reg.Keys, id);
        assert reg[id := BARE].Keys == reg.Keys + {id};
        reg := reg[id := BARE];
        entityCount := entityCount + 1;
      } else {
        assert reg == reg[id := reg[id]];
      }
    }

    /** Drop the id's registry entry once nothing is left of it. */
    method Release(id: Id)
      requires id in reg && entityCount == |reg|
      modifies this`reg, this`entityCount
      ensures reg == Keep(old(reg), id, old(reg)[id])
      ensures entityCount == |reg|
    {
      if Empty(reg[id]) {
        AddSize((reg - {id}).Keys, id);
        assert (reg - {id}).Keys + {id} == reg.Keys;
        reg := reg - {id};
        entityCount := entityCount - 1;
      } else {
        assert reg == reg[id := reg[id]];
      }
    }

    method AddSource(id: Id, h: nat) returns (err: Error)
      requires Valid()
      modifies this`reg, this`entityCount, this`changes, this`regs
      ensures Valid()
      ensures err.Ok? <==> !closed && Accepts(old(reg), max, AttachSource(id, h))
      ensures err.Ok? ==> reg == Registered(old(reg), AttachSource(id, h)) && changes == old(changes) + [AttachSource(id, h)]
      ensures !err.Ok? ==> reg == old(reg) && changes == old(changes)
    {
      hide Chain;
      hide Good;
      hide CacheRight;
      if closed {
        return ErrClosed;
      }
      if id in reg && reg[id].src.Some? {
        return ErrDuplicate;
      }
      var ok := Admit(id);
      if !ok {
        return ErrFull;
      }
      SameIds(reg, id, reg[id].(src := Some(h)));
      reg := reg[id := reg[id].(src := Some(h))];
      assert reg == Registered(old(reg), AttachSource(id, h));
      Enqueue(AttachSource(id, h));
      err := Ok;
    }

    method AddSink(id: Id, h: nat) returns (err: Error)
      requires Valid()
      modifies this`reg, this`entityCount, this`changes, this`regs
      ensures Valid()
      ensures err.Ok? <==> !closed && Accepts(old(reg), max, AttachSink(id, h))
      ensures err.Ok? ==> reg == Registered(old(reg), AttachSink(id, h)) && changes == old(changes) + [AttachSink(id, h)]
      ensures !err.Ok? ==> reg == old(reg) && changes == old(changes)
    {
      hide Chain;
      hide Good;
      hide CacheRight;
      if closed {
        return ErrClosed;
      }
      if id in reg && reg[id].sink.Some? {
        return ErrDuplicate;
      }
      var ok := Admit(id);
      if !ok {
        return ErrFull;
      }
      SameIds(reg, id, reg[id].(sink := Some(h)));
      reg := reg[id := reg[id].(sink := Some(h))];
      assert reg == Registered(old(reg), AttachSink(id, h));
      Enqueue(AttachSink(id, h));
      err := Ok;
    }

    method AddAmbiSink(id: Id, order: int, h: nat) returns (err: Error)
      requires Valid()
      modifies this`reg, this`entityCount, this`changes, this`regs
      ensures Valid()
      ensures err.Ok? <==> 2 <= order <= 3 && order <= busOrder && !closed && Accepts(old(reg), max, AttachAmbi(id, order, h))
      ensures err.Ok? ==> reg == Registered(old(reg), AttachAmbi(id, order, h))
                          && changes == old(changes) + [AttachAmbi(id, order, h)]
      ensures !err.Ok? ==> reg == old(reg) && changes == old(changes)
    {
      hide Chain;
      hide Good;
      hide CacheRight;
      if order < 2 || order > 3 || order > busOrder {
        return ErrBadOrder;
      }
      if closed {
        return ErrClosed;
      }
      if id in reg && order in reg[id].ambi {
        return ErrDuplicate;
      }
      var ok := Admit(id);
      if !ok {
        return ErrFull;
      }
      SameIds(reg, id, reg[id].(ambi := reg[id].ambi[order := h]));
      reg := reg[id := reg[id].(ambi := reg[id].ambi[order := h])];
      assert reg == Registered(old(reg), AttachAmbi(id, order, h));
      Enqueue(AttachAmbi(id, order, h));
      err := Ok;
    }

    method RemoveSource(id: Id)
      requires Valid()
      modifies this`reg, this`entityCount, this`changes, this`regs
      ensures Valid()
      ensures if Accepts(old(reg), max, DetachSource(id))
              then reg == Registered(old(reg), DetachSource(id)) && changes == old(changes) + [DetachSource(id)]
              else reg == old(reg) && changes == old(changes)
    {
      hide Chain;
      hide Good;
      hide CacheRight;
      if id !in reg || reg[id].src.None? {
        return;
      }
      SameIds(reg, id, reg[id].(src := None));
      reg := reg[id := reg[id].(src := None)];
      Release(id);
      assert reg == Registered(old(reg), DetachSource(id));
      Enqueue(DetachSource(id));
    }

    method RemoveSink(id: Id)
      requires Valid()
      modifies this`reg, this`entityCount, this`changes, this`regs
      ensures Valid()
      ensures if Accepts(old(reg), max, DetachSink(id))
              then reg == Registered(old(reg), DetachSink(id)) && changes == old(changes) + [DetachSink(id)]
              else reg == old(reg) && changes == old(changes)
    {
      hide Chain;
      hide Good;
      hide CacheRight;
      if id !in reg || reg[id].sink.None? {
        return;
      }
      SameIds(reg, id, reg[id].(sink := None));
      reg := reg[id := reg[id].(sink := None)];
      Release(id);
      assert reg == Registered(old(reg), DetachSink(id));
      Enqueue(DetachSink(id));
    }

    method RemoveAmbiSink(id: Id, order: int)
      requires Valid()
      modifies this`reg, this`entityCount, this`changes, this`regs
      ensures Valid()
      ensures if Accepts(old(reg), max, DetachAmbi(id, order))
              then reg == Registered(old(reg), DetachAmbi(id, order)) && changes == old(changes) + [DetachAmbi(id, order)]
              else reg == old(reg) && changes == old(changes)
    {
      hide Chain;
      hide Good;
      hide CacheRight;
      if id !in reg || order !in reg[id].ambi {
        return;
      }
      SameIds(reg, id, reg[id].(ambi := reg[id].ambi - {order}));
      reg := reg[id := reg[id].(ambi := reg[id].ambi - {order})];
      Release(id);
      assert reg == Registered(old(reg), DetachAmbi(id, order));
      Enqueue(DetachAmbi(id, order));
    }

    /** Render params need a registered id; channel and personal settings are always queued. */
    method SetRenderParams(id: Id, p: RenderParams) returns (err: Error)
      requires Valid()
      modifies this`changes, this`regs
      ensures Valid()
      ensures err == if id in reg then Ok else ErrUnknownEntity
      ensures changes == old(changes) + if id in reg then [SetParams(id, p)] else []
    {
      if id !in reg {
        return ErrUnknownEntity;
      }
      Enqueue(SetParams(id, p));
      err := Ok;
    }

    method SetPolicy(c: Change)
      requires Valid() && (c.SetChannel? || c.SetMute? || c.SetSolo?)
      modifies this`changes, this`regs
      ensures Valid() && changes == old(changes) + [c]
    {
      Enqueue(c);
    }

    // ---- Audio thread --------------------------------------------------------------------

    /** Give an id an entity, in the first free slot, if it has none. */
    method EnsureLive(id: Id)
      requires id in ents || FirstFree(slots) < |slots|
      modifies this`ents, this`slots
      ensures View() == EnsureEntity(old(View()), id)
    {
      if id in ents {
        return;
      }
      var k := 0;
      while slots[k].Some?
        invariant 0 <= k < |slots| && forall i :: 0 <= i < k ==> slots[i].Some?
        decreases |slots| - k
      {
        k := k + 1;
      }
      assert FirstFree(slots) == k;
      hide FirstFree;
      ents := ents[id := Entity(k, None, None, map[], DEFAULT_PARAMS)];
      slots := slots[k := Some(id)];
    }

    method RemoveLive(id: Id)
      requires id in ents && ents[id].slot < |slots|
      modifies this`ents, this`slots, this`rules, this`dirty
      ensures View() == RemoveEntity(old(View()), id)
    {
      slots := slots[ents[id].slot := None];
      ents := ents - {id};
      rules := rules.(mutes := rules.mutes - {id}, solos := rules.solos - {id});
      dirty := true;
    }

    /** Run one queued closure. */
    method RunChange(c: Change)
      requires Safe(View(), c)
      modifies this`ents, this`slots, this`rules, this`dirty
      ensures View() == Apply(old(View()), c)
    {
      hide FirstFree;
      match c {
        case AttachSource(id, h) =>
          EnsureLive(id);
          ents := ents[id := ents[id].(src := Some(h))];
          dirty := true;
        case AttachSink(id, h) =>
          EnsureLive(id);
          ents := ents[id := ents[id].(sink := Some(h))];
          dirty := true;
        case AttachAmbi(id, order, h) =>
          EnsureLive(id);
          ents := ents[id := ents[id].(ambi := ents[id].ambi[order := h])];
          dirty := true;
        case DetachSource(id) =>
          if id in ents {
            ents := ents[id := ents[id].(src := None)];
            if ents[id].sink.None? && ents[id].ambi == map[] {
              RemoveLive(id);
            }
          }
        case DetachSink(id) =>
          if id in ents && ents[id].sink.Some? {
            ents := ents[id := ents[id].(sink := None)];
            if ents[id].src.None? {
              RemoveLive(id);
            }
          }
        case DetachAmbi(id, order) =>
          if id in ents {
            ents := ents[id := ents[id].(ambi := ents[id].ambi - {order})];
            if ents[id].src.None? && ents[id].sink.None? && ents[id].ambi == map[] {
              RemoveLive(id);
            }
          }
        case SetParams(id, p) =>
          if id in ents {
            ents := ents[id := ents[id].(params := p)];
            dirty := true;
          }
        case SetChannel(name, ch) =>
          rules := rules.(channels := rules.channels[name := ch]);
          dirty := true;
        case SetMute(owner, other, on) =>
          rules := rules.(mutes := SetPersonal(rules.mutes, owner, other, on));
          dirty := true;
        case SetSolo(owner, other, on) =>
          rules := rules.(solos := SetPersonal(rules.solos, owner, other, on));
          dirty := true;
      }
    }

    /** Take one change off the queue and run it. It is always safe to run: the slot panic and
        the missing source cannot happen. */
    method DrainOne()
      requires Valid() && changes != []
      modifies this`ents, this`slots, this`rules, this`dirty, this`changes, this`regs
      ensures Valid() && changes == old(changes)[1..] && reg == old(reg)
      ensures Safe(old(View()), old(changes)[0]) && View() == Apply(old(View()), old(changes)[0])
    {
      hide Accepts;
      hide Registered;
      hide Good;
      hide RegOk;
      hide Apply;
      hide CacheRight;
      var c := changes[0];
      ghost var a := View();
      ChainShrinks(regs, changes, max);
      hide Chain;
      DrainFacts(a, regs[0], max, c, pairs);
      RunChange(c);
      changes := changes[1..];
      regs := regs[1..];
    }

    /** Run everything queued: the audio side catches up with the registry. */
    method DrainChanges()
      requires Valid()
      modifies this`ents, this`slots, this`rules, this`dirty, this`changes, this`regs
      ensures Valid() && changes == [] && reg == old(reg) && Good(View(), reg, max)
    {
      hide Good;
      hide CacheRight;
      while changes != []
        invariant Valid() && reg == old(reg)
        decreases |changes|
      {
        DrainOne();
      }
    }

    /** Rebuild the whole pair record from the policy. */
    method RecomputeAudible()
      requires SlotsOk(View()) && |slots| == max && Square(pairs, max)
      modifies this`pairs, this`dirty
      ensures !dirty && Square(pairs, max) && CacheRight(View(), pairs)
    {
      hide CellRight;
      dirty := false;
      var todo := ents.Keys;
      while todo != {}
        invariant todo <= ents.Keys && Square(pairs, max) && !dirty
        invariant forall s, k :: s in ents && k in ents && k !in todo ==> CellOk(View(), pairs, s, k)
        decreases todo
      {
        var k :| k in todo;
        RecomputeRow(k);
        todo := todo - {k};
      }
    }

    /** One listener's row. */
    method RecomputeRow(k: Id)
      requires SlotsOk(View()) && |slots| == max && Square(pairs, max) && k in ents
      modifies this`pairs
      ensures Square(pairs, max)
      ensures forall s :: s in ents ==> CellOk(View(), pairs, s, k)
      ensures forall i :: 0 <= i < max && i != ents[k].slot ==> pairs[i] == old(pairs)[i]
    {
      hide CellRight;
      var at := ents[k].slot;
      var row := pairs[at];
      var todo := ents.Keys;
      while todo != {}
        invariant pairs == old(pairs) && todo <= ents.Keys && |row| == max
        invariant forall s :: s in ents && s !in todo ==>
                    CellRight(rules, s, ents[s].params, k, ents[k].params, row[ents[s].slot])
        decreases todo
      {
        var s :| s in todo;
        var cell := ResolvePair(rules, s, ents[s].params, k, ents[k].params);
        row := row[ents[s].slot := cell];
        todo := todo - {s};
      }
      pairs := pairs[at := row];
    }

    /** One listener's peers row, scanned in slot order. */
    method PeersRow(k: nat) returns (row: seq<Id>)
      requires SlotsOk(View()) && |slots| == max && Square(pairs, max) && k < max
      ensures row == Row(View(), pairs, k, max)
    {
      row := [];
      var i := 0;
      while i < |slots|
        invariant 0 <= i <= |slots|
        invariant row == Row(View(), pairs, k, i)
      {
        if slots[i].Some? && ents[slots[i].value].src.Some? && pairs[k][i].audible {
          row := row + [slots[i].value];
        }
        i := i + 1;
      }
    }

    /** The drain-and-recompute half of a tick: afterwards the audio side is at the registry, the
        pair record is the policy's, and every listener's row is exactly the live sources the
        policy lets it hear. */
    method Process()
      requires Valid()
      modifies this
      ensures Valid() && changes == [] && reg == old(reg) && Good(View(), reg, max)
      ensures CacheRight(View(), pairs)
      ensures forall k :: k in ents && (ents[k].sink.Some? || ents[k].ambi != map[]) ==>
                k in peers && HearsExactly(View(), k, peers[k])
    {
      hide CellRight;
      hide HearsExactly;
      DrainChanges();
      if dirty {
        RecomputeAudible();
      }
      BuildPeers();
    }

    method BuildPeers()
      requires SlotsOk(View()) && |slots| == max && Square(pairs, max) && CacheRight(View(), pairs)
      modifies this`peers
      ensures forall k :: k in ents && (ents[k].sink.Some? || ents[k].ambi != map[]) ==>
                k in peers && HearsExactly(View(), k, peers[k])
    {
      hide CellRight;
      hide HearsExactly;
      peers := map[];
      var i := 0;
      while i < |slots|
        invariant 0 <= i <= |slots|
        invariant forall k :: k in ents && ents[k].slot < i && Listening(ents[k]) ==> k in peers && HearsExactly(View(), k, peers[k])
      {
        if slots[i].Some? && Listening(ents[slots[i].value]) {
          var k := slots[i].value;
          var row := PeersRow(i);
          RowIsPolicy(View(), pairs, k);
          peers := peers[k := row];
        }
        i := i + 1;
      }
    }
  }

  lemma DrainFacts(a: Audio, reg: Registry, max: nat, c: Change, pairs: Pairs)
    requires Good(a, reg, max) && Accepts(reg, max, c) && Square(pairs, max)
    requires !a.dirty ==> CacheRight(a, pairs)
    ensures Safe(a, c) && Good(Apply(a, c), Registered(reg, c), max)
    ensures !Apply(a, c).dirty ==> CacheRight(Apply(a, c), pairs)
  {
    ApplyKeeps(a, reg, max, c);
    DirtyOrSame(a, c);
    hide Apply;
    hide Registered;
    hide Accepts;
    if !Apply(a, c).dirty {
      CacheSurvives(a, Apply(a, c), pairs);
    }
  }
}
