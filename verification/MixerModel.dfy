/** The mixer's two halves as values: the control plane's registry, the queue of changes, and
    the audio thread's entities and slots; and what each queued change does. */
module MixerModel {
  import opened Layout

  type Id = string

  datatype RenderParams = RenderParams(
    gain: real, attenuation: real, sourceChannels: seq<string>, sinkChannels: seq<string>)

  const DEFAULT_PARAMS := RenderParams(1.0, 2.0, ["main"], ["main"])

  datatype ChannelParams = ChannelParams(muted: bool, gain: real, attenuation: Option<real>)

  /** Control-plane view of an entity: which source and sink objects it has, by handle, and
      its ambisonic sinks by order. */
  datatype RegEntry = RegEntry(src: Option<nat>, sink: Option<nat>, ambi: map<int, nat>)

  const BARE := RegEntry(None, None, map[])

  type Registry = map<Id, RegEntry>

  /** Audio-thread view of an entity. */
  datatype Entity = Entity(slot: nat, src: Option<nat>, sink: Option<nat>, ambi: map<int, nat>, params: RenderParams)

  /** Policy tables: named channels, personal mutes and solos by owner. */
  datatype Rules = Rules(channels: map<string, ChannelParams>, mutes: map<Id, set<Id>>, solos: map<Id, set<Id>>)

  datatype Audio = Audio(ents: map<Id, Entity>, slots: seq<Option<Id>>, rules: Rules, dirty: bool)

  datatype Change =
    | AttachSource(id: Id, h: nat) | AttachSink(id: Id, h: nat) | AttachAmbi(id: Id, order: int, h: nat)
    | DetachSource(id: Id) | DetachSink(id: Id) | DetachAmbi(id: Id, order: int)
    | SetParams(id: Id, params: RenderParams) | SetChannel(name: string, channel: ChannelParams)
    | SetMute(owner: Id, other: Id, on: bool) | SetSolo(owner: Id, other: Id, on: bool)

  // ---- Registry updates ----------------------------------------------------------

  function Entry(reg: Registry, id: Id): RegEntry {
    if id in reg then reg[id] else BARE
  }

  predicate Empty(e: RegEntry) {
    e.src.None? && e.sink.None? && e.ambi == map[]
  }

  /** Store an entry, dropping the id when nothing is left of it. */
  function Keep(reg: Registry, id: Id, e: RegEntry): Registry {
    if Empty(e) then reg - {id} else reg[id := e]
  }

  /** The registry after the control-plane half of an accepted call. */
  function Registered(reg: Registry, c: Change): Registry {
    match c
    case AttachSource(id, h) => reg[id := Entry(reg, id).(src := Some(h))]
    case AttachSink(id, h) => reg[id := Entry(reg, id).(sink := Some(h))]
    case AttachAmbi(id, order, h) => reg[id := Entry(reg, id).(ambi := Entry(reg, id).ambi[order := h])]
    case DetachSource(id) => Keep(reg, id, Entry(reg, id).(src := None))
    case DetachSink(id) => Keep(reg, id, Entry(reg, id).(sink := None))
    case DetachAmbi(id, order) => Keep(reg, id, Entry(reg, id).(ambi := Entry(reg, id).ambi - {order}))
    case _ => reg
  }

  /** When the control plane accepts a call: no duplicates, room for a new id, and only what is
      there can be removed. */
  predicate Accepts(reg: Registry, max: nat, c: Change) {
    match c
    case AttachSource(id, _) => Entry(reg, id).src.None? && (id in reg || |reg| < max)
    case AttachSink(id, _) => Entry(reg, id).sink.None? && (id in reg || |reg| < max)
    case AttachAmbi(id, order, _) => order !in Entry(reg, id).ambi && (id in reg || |reg| < max)
    case DetachSource(id) => Entry(reg, id).src.Some?
    case DetachSink(id) => Entry(reg, id).sink.Some?
    case DetachAmbi(id, order) => order in Entry(reg, id).ambi
    case _ => true
  }

  // ---- Audio-thread updates --------------------------------------------------------

  /** The first free slot, or the number of slots. */
  function FirstFree(slots: seq<Option<Id>>): (k: nat)
    ensures k <= |slots|
    ensures k < |slots| ==> slots[k].None?
    ensures forall i :: 0 <= i < k ==> slots[i].Some?
  {
    if slots == [] then 0
    else
      var k := FirstFree(slots[..|slots| - 1]);
      if k < |slots| - 1 || slots[|slots| - 1].None? then k else |slots|
  }

  function EnsureEntity(a: Audio, id: Id): Audio
    requires id in a.ents || FirstFree(a.slots) < |a.slots|
  {
    if id in a.ents then a
    else
      var k := FirstFree(a.slots);
      a.(ents := a.ents[id := Entity(k, None, None, map[], DEFAULT_PARAMS)], slots := a.slots[k := Some(id)])
  }

  function RemoveEntity(a: Audio, id: Id): Audio
    requires id in a.ents && a.ents[id].slot < |a.slots|
  {
    a.(ents := a.ents - {id}, slots := a.slots[a.ents[id].slot := None],
       rules := a.rules.(mutes := a.rules.mutes - {id}, solos := a.rules.solos - {id}),
       dirty := true)
  }

  /** Add or clear one personal entry; an owner left with none disappears. */
  function SetPersonal(m: map<Id, set<Id>>, owner: Id, other: Id, on: bool): map<Id, set<Id>> {
    var mine := if owner in m then m[owner] else {};
    if on then m[owner := mine + {other}]
    else if mine - {other} == {} then m - {owner}
    else m[owner := mine - {other}]
  }

  /** What a change needs so that its closure cannot panic: a free slot for a new entity, and
      a source on the entity a source is detached from. */
  predicate Safe(a: Audio, c: Change) {
    match c
    case AttachSource(id, _) => id in a.ents || FirstFree(a.slots) < |a.slots|
    case AttachSink(id, _) => id in a.ents || FirstFree(a.slots) < |a.slots|
    case AttachAmbi(id, _, _) => id in a.ents || FirstFree(a.slots) < |a.slots|
    case DetachSource(id) => id in a.ents ==> a.ents[id].src.Some? && a.ents[id].slot < |a.slots|
    case DetachSink(id) => id in a.ents ==> a.ents[id].slot < |a.slots|
    case DetachAmbi(id, _) => id in a.ents ==> a.ents[id].slot < |a.slots|
    case _ => true
  }

  function Put(a: Audio, id: Id, e: Entity): Audio {
    a.(ents := a.ents[id := e])
  }

  /** The queued half of each call, as its closure runs it. The sink's closure tests only the
      source before it removes the entity. */
  function Apply(a: Audio, c: Change): Audio
    requires Safe(a, c)
  {
    match c
    case AttachSource(id, h) =>
      var b := EnsureEntity(a, id);
      Put(b, id, b.ents[id].(src := Some(h))).(dirty := true)
    case AttachSink(id, h) =>
      var b := EnsureEntity(a, id);
      Put(b, id, b.ents[id].(sink := Some(h))).(dirty := true)
    case AttachAmbi(id, order, h) =>
      var b := EnsureEntity(a, id);
      Put(b, id, b.ents[id].(ambi := b.ents[id].ambi[order := h])).(dirty := true)
    case DetachSource(id) =>
      if id !in a.ents then a
      else
        var b := Put(a, id, a.ents[id].(src := None));
        if b.ents[id].sink.None? && b.ents[id].ambi == map[] then RemoveEntity(b, id) else b
    case DetachSink(id) =>
      if id !in a.ents || a.ents[id].sink.None? then a
      else
        var b := Put(a, id, a.ents[id].(sink := None));
        if b.ents[id].src.None? then RemoveEntity(b, id) else b
    case DetachAmbi(id, order) =>
      if id !in a.ents then a
      else
        var b := Put(a, id, a.ents[id].(ambi := a.ents[id].ambi - {order}));
        if b.ents[id].src.None? && b.ents[id].sink.None? && b.ents[id].ambi == map[]
        then RemoveEntity(b, id) else b
    case SetParams(id, p) =>
      if id !in a.ents then a else Put(a, id, a.ents[id].(params := p)).(dirty := true)
    case SetChannel(name, ch) =>
      a.(rules := a.rules.(channels := a.rules.channels[name := ch]), dirty := true)
    case SetMute(owner, other, on) =>
      a.(rules := a.rules.(mutes := SetPersonal(a.rules.mutes, owner, other, on)), dirty := true)
    case SetSolo(owner, other, on) =>
      a.(rules := a.rules.(solos := SetPersonal(a.rules.solos, owner, other, on)), dirty := true)
  }

  // ---- Slots -------------------------------------------------------------------------

  /** Live entities and occupied slots are in one-to-one correspondence. */
  predicate SlotsOk(a: Audio) {
    && (forall id :: id in a.ents ==> a.ents[id].slot < |a.slots| && a.slots[a.ents[id].slot] == Some(id))
    && (forall k :: 0 <= k < |a.slots| && a.slots[k].Some? ==>
          a.slots[k].value in a.ents && a.ents[a.slots[k].value].slot == k)
  }

  /** Ids held by the slots before k. */
  function Held(slots: seq<Option<Id>>, k: nat): set<Id>
    requires k <= |slots|
  {
    set i | 0 <= i < k && slots[i].Some? :: slots[i].value
  }

  lemma {:induction false} FullSlotsHoldDistinctIds(a: Audio, k: nat)
    requires SlotsOk(a) && k <= |a.slots| && forall i :: 0 <= i < k ==> a.slots[i].Some?
    ensures |Held(a.slots, k)| == k && Held(a.slots, k) <= a.ents.Keys
  {
    if k > 0 {
      FullSlotsHoldDistinctIds(a, k - 1);
      var id := a.slots[k - 1].value;
      assert a.ents[id].slot == k - 1;
      assert id !in Held(a.slots, k - 1);
      assert Held(a.slots, k) == Held(a.slots, k - 1) + {id};
    }
  }

  /** Fewer entities than slots leaves a free slot. */
  lemma RoomMeansFreeSlot(a: Audio)
    requires SlotsOk(a) && |a.ents| < |a.slots|
    ensures FirstFree(a.slots) < |a.slots|
  {
    if FirstFree(a.slots) == |a.slots| {
      FullSlotsHoldDistinctIds(a, |a.slots|);
      SubsetSize(Held(a.slots, |a.slots|), a.ents.Keys);
    }
  }

  lemma SubsetSize(s: set<Id>, t: set<Id>)
    requires s <= t
    ensures |s| <= |t|
  {
    assert t == s + (t - s);
  }

  // ---- Registry against audio ---------------------------------------------------------

  function EntOf(a: Audio, id: Id): Option<Entity> {
    if id in a.ents then Some(a.ents[id]) else None
  }

  function RegOf(reg: Registry, id: Id): Option<RegEntry> {
    if id in reg then Some(reg[id]) else None
  }

  /** One id's audio side against its registry entry: the same source and sink, ambisonic sinks
      never more than registered; and an id without an entity has only ambisonic sinks. */
  predicate FollowsAt(e: Option<Entity>, r: Option<RegEntry>) {
    if e.None? then r.Some? ==> r.value.src.None? && r.value.sink.None?
    else
      && r.Some? && e.value.src == r.value.src && e.value.sink == r.value.sink
      && (forall o :: o in e.value.ambi ==> o in r.value.ambi && e.value.ambi[o] == r.value.ambi[o])
      && (e.value.src.Some? || e.value.sink.Some? || e.value.ambi != map[])
  }

  /** The audio side at some queue point follows the registry at that point. */
  ghost predicate Follows(a: Audio, reg: Registry) {
    forall id: Id :: FollowsAt(EntOf(a, id), RegOf(reg, id))
  }

  /** One id's two halves agree exactly. */
  predicate MirrorsAt(e: Option<Entity>, r: Option<RegEntry>) {
    && (e.Some? <==> r.Some?)
    && (e.Some? ==> e.value.src == r.value.src && e.value.sink == r.value.sink && e.value.ambi == r.value.ambi)
  }

  predicate RegOk(reg: Registry, max: nat) {
    |reg| <= max && forall id :: id in reg ==> !Empty(reg[id])
  }

  /** Audio and registry agree exactly, ambisonic sinks included. */
  ghost predicate Mirrors(a: Audio, reg: Registry) {
    forall id: Id :: MirrorsAt(EntOf(a, id), RegOf(reg, id))
  }

  ghost predicate Good(a: Audio, reg: Registry, max: nat) {
    SlotsOk(a) && |a.slots| == max && Follows(a, reg) && RegOk(reg, max)
  }

  lemma RegisteredOk(reg: Registry, max: nat, c: Change)
    requires RegOk(reg, max) && Accepts(reg, max, c)
    ensures RegOk(Registered(reg, c), max)
  {
    hide Registered;
    hide Empty;
    RegisteredKeys(reg, c);
    var keys := Registered(reg, c).Keys;
    if Attaches(c) {
      AddSize(reg.Keys, c.id);
    } else {
      SubsetSize(keys, reg.Keys);
    }
    forall id | id in keys
      ensures !Empty(Registered(reg, c)[id])
    {
      RegisteredNotEmpty(reg, c, id);
    }
  }

  predicate Attaches(c: Change) {
    c.AttachSource? || c.AttachSink? || c.AttachAmbi?
  }

  lemma RegisteredKeys(reg: Registry, c: Change)
    ensures Attaches(c) ==> Registered(reg, c).Keys == reg.Keys + {c.id}
    ensures !Attaches(c) ==> Registered(reg, c).Keys <= reg.Keys || (c.DetachSource? || c.DetachSink? || c.DetachAmbi?)
    ensures !Attaches(c) && (c.DetachSource? || c.DetachSink? || c.DetachAmbi?) && c.id in reg ==>
              Registered(reg, c).Keys <= reg.Keys
  {
  }

  lemma RegisteredNotEmpty(reg: Registry, c: Change, id: Id)
    requires id in Registered(reg, c) && (id in reg ==> !Empty(reg[id]))
    ensures !Empty(Registered(reg, c)[id])
  {
    if c.AttachAmbi? && c.id == id {
      assert c.order in Registered(reg, c)[id].ambi;
    }
  }

  lemma AddSize(s: set<Id>, id: Id)
    ensures |s + {id}| == |s| + if id in s then 0 else 1
  {
    if id in s {
      assert s + {id} == s;
    }
  }

  /** Every accepted change is safe when its turn comes: a slot is free for a new entity, and a
      source is there to be detached. */
  lemma AcceptedIsSafe(a: Audio, reg: Registry, max: nat, c: Change)
    requires Good(a, reg, max) && Accepts(reg, max, c)
    ensures Safe(a, c)
  {
    hide FirstFree;
    hide Registered;
    hide FollowsAt;
    if Attaches(c) && c.id !in a.ents {
      RegisteredOk(reg, max, c);
      RegisteredKeys(reg, c);
      EntsWithin(a, reg);
      var keys := Registered(reg, c).Keys;
      AddSize(a.ents.Keys, c.id);
      SubsetSize(a.ents.Keys + {c.id}, keys);
      RoomMeansFreeSlot(a);
    } else if c.DetachSource? {
      assert FollowsAt(EntOf(a, c.id), RegOf(reg, c.id));
      SourceThere(a, reg, c.id);
    }
  }

  lemma SourceThere(a: Audio, reg: Registry, id: Id)
    requires FollowsAt(EntOf(a, id), RegOf(reg, id)) && Entry(reg, id).src.Some?
    ensures id in a.ents && a.ents[id].src == reg[id].src
  {
  }

  /** Audio-side ids are registered ids. */
  lemma EntsWithin(a: Audio, reg: Registry)
    requires Follows(a, reg)
    ensures a.ents.Keys <= reg.Keys
  {
    forall id | id in a.ents
      ensures id in reg
    {
      assert FollowsAt(EntOf(a, id), RegOf(reg, id));
    }
  }

  lemma EnsureKeepsSlots(a: Audio, id: Id)
    requires SlotsOk(a) && (id in a.ents || FirstFree(a.slots) < |a.slots|)
    ensures SlotsOk(EnsureEntity(a, id)) && id in EnsureEntity(a, id).ents
  {
    hide FirstFree;
  }

  lemma RemoveKeepsSlots(a: Audio, id: Id)
    requires SlotsOk(a) && id in a.ents
    ensures SlotsOk(RemoveEntity(a, id))
  {
  }

  lemma PutKeepsSlots(a: Audio, id: Id, e: Entity)
    requires SlotsOk(a) && id in a.ents && e.slot == a.ents[id].slot
    ensures SlotsOk(Put(a, id, e))
  {
  }

  lemma ApplyKeepsSlots(a: Audio, c: Change)
    requires SlotsOk(a) && Safe(a, c)
    ensures SlotsOk(Apply(a, c)) && |Apply(a, c).slots| == |a.slots|
  {
    hide SlotsOk;
    hide FirstFree;
    if c.AttachSource? || c.AttachSink? || c.AttachAmbi? {
      EnsureKeepsSlots(a, c.id);
      var b := EnsureEntity(a, c.id);
      var e := Apply(a, c).ents[c.id];
      PutKeepsSlots(b, c.id, e);
      DirtyKeepsSlots(Put(b, c.id, e));
    } else if (c.DetachSource? || c.DetachSink? || c.DetachAmbi?) && c.id in a.ents {
      var e := if c.DetachSource? then a.ents[c.id].(src := None)
               else if c.DetachSink? then a.ents[c.id].(sink := None)
               else a.ents[c.id].(ambi := a.ents[c.id].ambi - {c.order});
      PutKeepsSlots(a, c.id, e);
      RemoveKeepsSlots(Put(a, c.id, e), c.id);
    } else if c.SetParams? && c.id in a.ents {
      PutKeepsSlots(a, c.id, a.ents[c.id].(params := c.params));
      DirtyKeepsSlots(Put(a, c.id, a.ents[c.id].(params := c.params)));
    } else {
      RulesKeepSlots(a, Apply(a, c));
    }
  }

  lemma DirtyKeepsSlots(a: Audio)
    requires SlotsOk(a)
    ensures SlotsOk(a.(dirty := true))
  {
  }

  lemma RulesKeepSlots(a: Audio, b: Audio)
    requires SlotsOk(a) && a.ents == b.ents && a.slots == b.slots
    ensures SlotsOk(b)
  {
  }

  /** The one id a change is about, if any. */
  predicate About(c: Change, id: Id) {
    match c
    case AttachSource(i, _) => i == id
    case AttachSink(i, _) => i == id
    case AttachAmbi(i, _, _) => i == id
    case DetachSource(i) => i == id
    case DetachSink(i) => i == id
    case DetachAmbi(i, _) => i == id
    case SetParams(i, _) => i == id
    case _ => false
  }

  lemma OthersKept(a: Audio, reg: Registry, c: Change, id: Id)
    requires Safe(a, c) && !About(c, id)
    ensures EntOf(Apply(a, c), id) == EntOf(a, id)
    ensures RegOf(Registered(reg, c), id) == RegOf(reg, id)
  {
    hide FirstFree;
  }

  lemma AttachFollows(a: Audio, reg: Registry, c: Change)
    requires c.AttachSource? || c.AttachSink? || c.AttachAmbi?
    requires Safe(a, c) && FollowsAt(EntOf(a, c.id), RegOf(reg, c.id))
    ensures FollowsAt(EntOf(Apply(a, c), c.id), RegOf(Registered(reg, c), c.id))
    ensures MirrorsAt(EntOf(a, c.id), RegOf(reg, c.id)) ==>
              MirrorsAt(EntOf(Apply(a, c), c.id), RegOf(Registered(reg, c), c.id))
  {
    hide FirstFree;
    if c.AttachAmbi? {
      assert c.order in Apply(a, c).ents[c.id].ambi;
    }
  }

  lemma SomeKey(m: map<int, nat>) returns (o: int)
    requires m != map[]
    ensures o in m
  {
    assert m.Keys == {} ==> m == map[];
    assert (forall k :: k !in m.Keys) ==> m.Keys == {};
    o :| o in m.Keys;
  }

  lemma DetachFollows(a: Audio, reg: Registry, c: Change)
    requires c.DetachSource? || c.DetachAmbi? || c.SetParams?
    requires Safe(a, c) && FollowsAt(EntOf(a, c.id), RegOf(reg, c.id)) && Accepts(reg, |reg|, c)
    requires c.id in reg ==> !Empty(reg[c.id])
    ensures FollowsAt(EntOf(Apply(a, c), c.id), RegOf(Registered(reg, c), c.id))
    ensures MirrorsAt(EntOf(a, c.id), RegOf(reg, c.id)) ==>
              MirrorsAt(EntOf(Apply(a, c), c.id), RegOf(Registered(reg, c), c.id))
  {
    if c.id in a.ents {
      var left := if c.DetachAmbi? then a.ents[c.id].ambi - {c.order} else a.ents[c.id].ambi;
      if left != map[] {
        var o := SomeKey(left);
        assert o in if c.DetachAmbi? then reg[c.id].ambi - {c.order} else reg[c.id].ambi;
      }
    }
  }

  lemma DetachSinkFollows(a: Audio, reg: Registry, c: Change)
    requires c.DetachSink? && Safe(a, c) && FollowsAt(EntOf(a, c.id), RegOf(reg, c.id))
    requires Accepts(reg, |reg|, c)
    ensures FollowsAt(EntOf(Apply(a, c), c.id), RegOf(Registered(reg, c), c.id))
    ensures MirrorsAt(EntOf(a, c.id), RegOf(reg, c.id)) ==>
              (MirrorsAt(EntOf(Apply(a, c), c.id), RegOf(Registered(reg, c), c.id))
               <==> !(reg[c.id].src.None? && reg[c.id].ambi != map[]))
  {
  }

  /** Running an accepted change keeps the audio side following the registry that accepted it. */
  lemma ApplyFollows(a: Audio, reg: Registry, max: nat, c: Change)
    requires Follows(a, reg) && RegOk(reg, max) && Safe(a, c) && Accepts(reg, max, c)
    ensures Follows(Apply(a, c), Registered(reg, c))
  {
    hide Apply;
    hide Registered;
    hide FollowsAt;
    hide EntOf;
    hide RegOf;
    forall id: Id
      ensures FollowsAt(EntOf(Apply(a, c), id), RegOf(Registered(reg, c), id))
    {
      assert FollowsAt(EntOf(a, id), RegOf(reg, id));
      if !About(c, id) {
        OthersKept(a, reg, c, id);
      } else if c.AttachSource? || c.AttachSink? || c.AttachAmbi? {
        AttachFollows(a, reg, c);
      } else if c.DetachSink? {
        DetachSinkFollows(a, reg, c);
      } else {
        DetachFollows(a, reg, c);
      }
    }
  }

  /** One queue step keeps everything: slots, registry shape and the correspondence. */
  lemma ApplyKeeps(a: Audio, reg: Registry, max: nat, c: Change)
    requires Good(a, reg, max) && Accepts(reg, max, c)
    ensures Safe(a, c) && Good(Apply(a, c), Registered(reg, c), max)
  {
    AcceptedIsSafe(a, reg, max, c);
    ApplyKeepsSlots(a, c);
    RegisteredOk(reg, max, c);
    ApplyFollows(a, reg, max, c);
    hide Apply;
    hide Registered;
  }

  // ---- What a setting means -------------------------------------------------------------

  /** owner's personal table lists other. */
  predicate Lists(m: map<Id, set<Id>>, owner: Id, other: Id) {
    owner in m && other in m[owner]
  }

  /** A personal setting is on exactly as told, every other pair's is untouched, and no owner is
      left with an empty set. */
  lemma PersonalIsSet(m: map<Id, set<Id>>, owner: Id, other: Id, on: bool)
    ensures var r := SetPersonal(m, owner, other, on);
            && (forall o, p :: Lists(r, o, p) <==> if o == owner && p == other then on else Lists(m, o, p))
            && ((forall o :: o in m ==> m[o] != {}) ==> forall o :: o in r ==> r[o] != {})
  {
    var r := SetPersonal(m, owner, other, on);
    var mine := if owner in m then m[owner] else {};
    assert on ==> other in mine + {other};
    forall o, p
      ensures Lists(r, o, p) <==> if o == owner && p == other then on else Lists(m, o, p)
    {
      if !on && mine - {other} == {} && o == owner && p != other {
        assert p !in mine - {other};
      }
    }
  }

  /** A queued setting changes what it names, to what it was given, and nothing else. */
  lemma SettingIsApplied(a: Audio, c: Change)
    requires c.SetParams? || c.SetChannel? || c.SetMute? || c.SetSolo?
    ensures var r := Apply(a, c);
            && r.slots == a.slots && r.ents.Keys == a.ents.Keys
            && (forall id :: id in a.ents ==>
                  r.ents[id] == if c.SetParams? && c.id == id then a.ents[id].(params := c.params) else a.ents[id])
            && (forall n :: n in r.rules.channels <==> n in a.rules.channels || (c.SetChannel? && n == c.name))
            && (forall n :: n in r.rules.channels ==>
                  r.rules.channels[n] == if c.SetChannel? && n == c.name then c.channel else a.rules.channels[n])
            && (forall o, p :: Lists(r.rules.mutes, o, p) <==>
                  if c.SetMute? && o == c.owner && p == c.other then c.on else Lists(a.rules.mutes, o, p))
            && (forall o, p :: Lists(r.rules.solos, o, p) <==>
                  if c.SetSolo? && o == c.owner && p == c.other then c.on else Lists(a.rules.solos, o, p))
  {
    if c.SetMute? {
      PersonalIsSet(a.rules.mutes, c.owner, c.other, c.on);
    } else if c.SetSolo? {
      PersonalIsSet(a.rules.solos, c.owner, c.other, c.on);
    }
    hide SetPersonal;
  }

  /** An arrival leaves every rule and every other entity alone, and a new entity starts with the
      default parameters. */
  lemma ArrivalKeepsPolicy(a: Audio, c: Change)
    requires Attaches(c) && Safe(a, c)
    ensures var r := Apply(a, c);
            && r.rules == a.rules && r.ents.Keys == a.ents.Keys + {c.id}
            && (forall id :: id in a.ents && id != c.id ==> r.ents[id] == a.ents[id])
            && r.ents[c.id].params == (if c.id in a.ents then a.ents[c.id].params else DEFAULT_PARAMS)
  {
    hide FirstFree;
  }

  /** A departure leaves channels and every other entity alone; the last part of an entity takes its
      own personal settings with it, and no one else's. */
  lemma DepartureKeepsPolicy(a: Audio, c: Change)
    requires (c.DetachSource? || c.DetachSink? || c.DetachAmbi?) && Safe(a, c)
    ensures var r := Apply(a, c);
            && r.rules.channels == a.rules.channels && r.ents.Keys <= a.ents.Keys
            && (forall id :: id in a.ents && id != c.id ==> id in r.ents && r.ents[id] == a.ents[id])
            && (c.id in r.ents ==> r.rules == a.rules && r.ents[c.id].params == a.ents[c.id].params)
            && (c.id in a.ents && c.id !in r.ents ==>
                  && (forall o, p :: Lists(r.rules.mutes, o, p) <==> o != c.id && Lists(a.rules.mutes, o, p))
                  && (forall o, p :: Lists(r.rules.solos, o, p) <==> o != c.id && Lists(a.rules.solos, o, p)))
  {
    if c.id in a.ents {
      var e := a.ents[c.id];
      var b := Put(a, c.id, if c.DetachSource? then e.(src := None) else if c.DetachSink? then e.(sink := None)
                            else e.(ambi := e.ambi - {c.order}));
      RemovalKeepsPolicy(b, c.id);
      assert Apply(a, c) == a || Apply(a, c) == b || Apply(a, c) == RemoveEntity(b, c.id);
      hide Apply;
      hide RemoveEntity;
    }
  }

  lemma RemovalKeepsPolicy(a: Audio, id: Id)
    requires id in a.ents && a.ents[id].slot < |a.slots|
    ensures var r := RemoveEntity(a, id);
            && r.rules.channels == a.rules.channels && r.ents.Keys == a.ents.Keys - {id}
            && (forall o :: o in a.ents && o != id ==> r.ents[o] == a.ents[o])
            && (forall o, p :: Lists(r.rules.mutes, o, p) <==> o != id && Lists(a.rules.mutes, o, p))
            && (forall o, p :: Lists(r.rules.solos, o, p) <==> o != id && Lists(a.rules.solos, o, p))
  {
  }

  // ---- Where the two halves can part --------------------------------------------------

  /** From exact agreement, one accepted change keeps exact agreement unless it detaches the
      sink of an entity that has no source but still has ambisonic sinks; then the entity is
      gone from the audio side while the registry keeps its ambisonic sinks. */
  lemma MirrorKept(a: Audio, reg: Registry, max: nat, c: Change)
    requires Good(a, reg, max) && Accepts(reg, max, c) && Mirrors(a, reg)
    ensures Safe(a, c)
    ensures Mirrors(Apply(a, c), Registered(reg, c))
            <==> !(c.DetachSink? && reg[c.id].src.None? && reg[c.id].ambi != map[])
  {
    AcceptedIsSafe(a, reg, max, c);
    hide Apply;
    hide Registered;
    hide FollowsAt;
    hide MirrorsAt;
    hide EntOf;
    hide RegOf;
    var lost := c.DetachSink? && reg[c.id].src.None? && reg[c.id].ambi != map[];
    forall id: Id
      ensures MirrorsAt(EntOf(Apply(a, c), id), RegOf(Registered(reg, c), id)) <==> !(lost && About(c, id))
    {
      assert FollowsAt(EntOf(a, id), RegOf(reg, id));
      assert MirrorsAt(EntOf(a, id), RegOf(reg, id));
      if !About(c, id) {
        OthersKept(a, reg, c, id);
      } else if c.AttachSource? || c.AttachSink? || c.AttachAmbi? {
        AttachFollows(a, reg, c);
      } else if c.DetachSink? {
        DetachSinkFollows(a, reg, c);
      } else {
        DetachFollows(a, reg, c);
      }
    }
    if lost {
      assert !MirrorsAt(EntOf(Apply(a, c), c.id), RegOf(Registered(reg, c), c.id));
    }
  }

  /** Such a run: an entity gets a sink and an ambisonic sink, then loses the sink. The registry
      still lists the ambisonic sink; the audio side has nothing left to render it from. */
  lemma AmbiSinkLost(id: Id)
    ensures var a0 := Audio(map[], [None], Rules(map[], map[], map[]), false);
            var c1, c2, c3 := AttachSink(id, 1), AttachAmbi(id, 2, 2), DetachSink(id);
            var r1 := Registered(map[], c1); var r2 := Registered(r1, c2); var r3 := Registered(r2, c3);
            && Accepts(map[], 1, c1) && Accepts(r1, 1, c2) && Accepts(r2, 1, c3)
            && Safe(a0, c1) && Safe(Apply(a0, c1), c2) && Safe(Apply(Apply(a0, c1), c2), c3)
            && var a3 := Apply(Apply(Apply(a0, c1), c2), c3);
            && r3 == map[id := RegEntry(None, None, map[2 := 2])] && a3.ents == map[] && a3.slots == [None]
  {
    var a0 := Audio(map[], [None], Rules(map[], map[], map[]), false);
    var c1, c2, c3 := AttachSink(id, 1), AttachAmbi(id, 2, 2), DetachSink(id);
    assert FirstFree(a0.slots) == 0;
    var a1 := Apply(a0, c1);
    assert a1.ents[id].slot == 0 && a1.slots == [Some(id)];
    var a2 := Apply(a1, c2);
    assert a2.ents[id].ambi == map[2 := 2] && a2.slots == [Some(id)];
    var a3 := Apply(a2, c3);
    assert a3.slots == [None];
    assert a3.ents == map[];
    var r1 := Registered(map[], c1);
    var r2 := Registered(r1, c2);
    assert r1 == map[id := RegEntry(None, Some(1), map[])];
    assert r2 == map[id := RegEntry(None, Some(1), map[2 := 2])];
    assert 2 in map[2 := 2];
    assert Registered(r2, c3) == map[id := RegEntry(None, None, map[2 := 2])];
  }
}
