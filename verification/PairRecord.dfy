/** Who hears whom, how loud and with which distance law: the policy over sets of channels, and
    the loops that resolve one pair. */
module PairRecord {
  import opened Layout
  import opened Order
  import opened MixerModel

  /** One (listener, source) cell of the pair record. */
  datatype Cell = Cell(audible: bool, gain: real, att: real)

  const SILENT := Cell(false, 0.0, 0.0)

  const SQRT_4_PI := 3.5449077018110318

  function GainFactor(p: RenderParams): real {
    (if p.gain < 0.0 then 0.0 else p.gain) * SQRT_4_PI
  }

  function OwnExponent(p: RenderParams): real {
    p.attenuation / 2.0
  }

  // ---- The policy ------------------------------------------------------------------

  predicate Open(rules: Rules, c: string) {
    !(c in rules.channels && rules.channels[c].muted)
  }

  /** The unmuted channels a source and a listener share. */
  function Shared(rules: Rules, s: RenderParams, k: RenderParams): set<string> {
    set c | c in s.sourceChannels && c in k.sinkChannels && Open(rules, c)
  }

  /** An unnamed channel counts as the identity. */
  function ChannelGain(rules: Rules, c: string): real {
    if c in rules.channels then rules.channels[c].gain else 1.0
  }

  function ChannelAtt(rules: Rules, c: string): Option<real> {
    if c in rules.channels then rules.channels[c].attenuation else None
  }

  /** Personal solo and mute: a non-empty solo set decides alone; otherwise a mute on either
      side vetoes. */
  predicate Allowed(rules: Rules, sId: Id, kId: Id) {
    if kId in rules.solos && rules.solos[kId] != {} then sId in rules.solos[kId]
    else !(kId in rules.mutes && sId in rules.mutes[kId]) && !(sId in rules.mutes && kId in rules.mutes[sId])
  }

  /** w is the highest gain over the channels, never below the scan's starting value of -1. */
  predicate WinningGain(rules: Rules, channels: set<string>, w: real) {
    && w >= -1.0
    && (forall c :: c in channels ==> ChannelGain(rules, c) <= w)
    && (w == -1.0 || exists c :: c in channels && ChannelGain(rules, c) == w)
  }

  /** a is the lowest attenuation set on any of the channels, if any is set. */
  predicate WinningAtt(rules: Rules, channels: set<string>, a: Option<real>) {
    && (forall c :: c in channels && ChannelAtt(rules, c).Some? ==> a.Some? && a.value <= ChannelAtt(rules, c).value)
    && (a.Some? ==> exists c :: c in channels && ChannelAtt(rules, c) == a)
  }

  function Composed(s: RenderParams, w: real, a: Option<real>): Cell {
    Cell(true, GainFactor(s) * w, if a.Some? then a.value / 2.0 else OwnExponent(s))
  }

  /** What the cell of source s and listener k must be, from the sets of channels alone. */
  ghost predicate CellRight(rules: Rules, sId: Id, s: RenderParams, kId: Id, k: RenderParams, cell: Cell) {
    var channels := Shared(rules, s, k);
    if channels != {} && Allowed(rules, sId, kId) then
      exists w, a :: WinningGain(rules, channels, w) && WinningAtt(rules, channels, a) && cell == Composed(s, w, a)
    else cell == SILENT
  }

  lemma WinnersUnique(rules: Rules, channels: set<string>, w: real, w': real, a: Option<real>, a': Option<real>)
    requires WinningGain(rules, channels, w) && WinningGain(rules, channels, w')
    requires WinningAtt(rules, channels, a) && WinningAtt(rules, channels, a')
    ensures w == w' && a == a'
  {
  }

  /** The policy determines the cell, and sees channel lists only as sets: order and repetition
      make no difference. */
  lemma CellUnique(rules: Rules, sId: Id, s: RenderParams, s': RenderParams, kId: Id, k: RenderParams, k': RenderParams,
                   cell: Cell, cell': Cell)
    requires CellRight(rules, sId, s, kId, k, cell) && CellRight(rules, sId, s', kId, k', cell')
    requires s.gain == s'.gain && s.attenuation == s'.attenuation
    requires forall c :: c in s.sourceChannels <==> c in s'.sourceChannels
    requires forall c :: c in k.sinkChannels <==> c in k'.sinkChannels
    ensures cell == cell'
  {
    var channels := Shared(rules, s, k);
    hide WinningGain;
    hide WinningAtt;
    assert Shared(rules, s', k') == channels;
    if channels != {} && Allowed(rules, sId, kId) {
      var w, a :| WinningGain(rules, channels, w) && WinningAtt(rules, channels, a) && cell == Composed(s, w, a);
      var w', a' :| WinningGain(rules, channels, w') && WinningAtt(rules, channels, a') && cell' == Composed(s', w', a');
      WinnersUnique(rules, channels, w, w', a, a');
    }
  }

  /** The winning gain is the highest channel gain exactly when some channel's gain is at least
      -1; below that the scan's starting value wins instead. */
  lemma GainIsMaximum(rules: Rules, channels: set<string>, w: real)
    requires WinningGain(rules, channels, w) && channels != {}
    ensures (exists c :: c in channels && ChannelGain(rules, c) == w)
            <==> (exists c :: c in channels && ChannelGain(rules, c) >= -1.0)
  {
  }

  /** A gain below that: one shared channel of gain -2, and the pair is composed with -1. */
  lemma GainBelowFloor(c: string, sId: Id, kId: Id, cell: Cell)
    requires var rules := Rules(map[c := ChannelParams(false, -2.0, None)], map[], map[]);
             var p := RenderParams(1.0, 2.0, [c], [c]);
             CellRight(rules, sId, p, kId, p, cell)
    ensures cell.audible && cell.gain == -SQRT_4_PI
  {
    var rules := Rules(map[c := ChannelParams(false, -2.0, None)], map[], map[]);
    var p := RenderParams(1.0, 2.0, [c], [c]);
    assert Shared(rules, p, p) == {c} && ChannelGain(rules, c) == -2.0;
    var w, a :| WinningGain(rules, {c}, w) && WinningAtt(rules, {c}, a) && cell == Composed(p, w, a);
    assert w == -1.0;
  }

  /** Who may hear whom: a listener with solos hears exactly those; without, everyone but those it
      mutes and those that mute it. */
  lemma PersonalPolicy(rules: Rules, sId: Id, kId: Id)
    requires forall o :: o in rules.solos ==> rules.solos[o] != {}
    ensures kId in rules.solos ==> (Allowed(rules, sId, kId) <==> Lists(rules.solos, kId, sId))
    ensures kId !in rules.solos ==>
              (Allowed(rules, sId, kId) <==> !Lists(rules.mutes, kId, sId) && !Lists(rules.mutes, sId, kId))
  {
  }

  /** A pair is heard only through a channel of both that is not muted. */
  lemma HeardThroughOpenChannel(rules: Rules, s: RenderParams, k: RenderParams)
    ensures Shared(rules, s, k) != {} <==>
            exists c :: c in s.sourceChannels && c in k.sinkChannels && !(c in rules.channels && rules.channels[c].muted)
  {
    if c :| c in s.sourceChannels && c in k.sinkChannels && !(c in rules.channels && rules.channels[c].muted) {
      assert c in Shared(rules, s, k);
    }
  }

  /** The scalars of an audible cell: the source's amplitude times the highest shared channel gain,
      and half the lowest attenuation a shared channel sets, or of the source's own if none does. */
  lemma CellScalars(rules: Rules, sId: Id, s: RenderParams, kId: Id, k: RenderParams, cell: Cell, c: string)
    requires CellRight(rules, sId, s, kId, k, cell) && cell.audible && c in Shared(rules, s, k)
    ensures ChannelAtt(rules, c).Some? ==> 2.0 * cell.att <= ChannelAtt(rules, c).value
    ensures (forall d :: d in Shared(rules, s, k) ==> ChannelAtt(rules, d).None?) ==> 2.0 * cell.att == s.attenuation
    ensures (exists d :: d in Shared(rules, s, k) && ChannelAtt(rules, d).Some?) ==>
              exists d :: d in Shared(rules, s, k) && ChannelAtt(rules, d) == Some(2.0 * cell.att)
    ensures ChannelGain(rules, c) >= -1.0 && (forall d :: d in Shared(rules, s, k) ==> ChannelGain(rules, d) <= ChannelGain(rules, c))
            ==> cell.gain == Portion(Portion(if s.gain < 0.0 then 0.0 else s.gain, SQRT_4_PI), ChannelGain(rules, c))
  {
    var channels := Shared(rules, s, k);
    var w, a :| WinningGain(rules, channels, w) && WinningAtt(rules, channels, a) && cell == Composed(s, w, a);
    hide Shared;
    hide Allowed;
    hide GainFactor;
    GainFactorIs(s);
    if ChannelGain(rules, c) >= -1.0 && (forall d :: d in channels ==> ChannelGain(rules, d) <= ChannelGain(rules, c)) {
      assert w == ChannelGain(rules, c);
    }
    assert a.Some? ==> 2.0 * cell.att == a.value;
  }

  lemma GainFactorIs(s: RenderParams)
    ensures GainFactor(s) == Portion(if s.gain < 0.0 then 0.0 else s.gain, SQRT_4_PI)
  {
  }

  // ---- The loops -----------------------------------------------------------------------

  /** Shared channels among the first i of the source's list. */
  function SharedIn(rules: Rules, s: RenderParams, k: RenderParams, i: nat): set<string>
    requires i <= |s.sourceChannels|
  {
    set c | c in s.sourceChannels[..i] && c in k.sinkChannels && Open(rules, c)
  }

  lemma SharedGrows(rules: Rules, s: RenderParams, k: RenderParams, i: nat)
    requires i < |s.sourceChannels|
    ensures var c := s.sourceChannels[i];
            SharedIn(rules, s, k, i + 1)
            == if c in k.sinkChannels && Open(rules, c) then SharedIn(rules, s, k, i) + {c} else SharedIn(rules, s, k, i)
  {
    assert s.sourceChannels[..i + 1] == s.sourceChannels[..i] + [s.sourceChannels[i]];
  }

  lemma WinnersGrow(rules: Rules, channels: set<string>, c: string, w: real, a: Option<real>)
    requires WinningGain(rules, channels, w) && WinningAtt(rules, channels, a)
    ensures WinningGain(rules, channels + {c}, if ChannelGain(rules, c) > w then ChannelGain(rules, c) else w)
    ensures WinningAtt(rules, channels + {c},
                       if ChannelAtt(rules, c).Some? && (a.None? || ChannelAtt(rules, c).value < a.value)
                       then ChannelAtt(rules, c) else a)
  {
    assert c in channels + {c};
    if w != -1.0 {
      var x :| x in channels && ChannelGain(rules, x) == w;
      assert x in channels + {c};
    }
    if a.Some? {
      var y :| y in channels && ChannelAtt(rules, y) == a;
      assert y in channels + {c};
    }
  }

  /** Membership by scanning a list, as the inner loop does. */
  method Member(c: string, list: seq<string>) returns (found: bool)
    ensures found <==> c in list
  {
    var j := 0;
    while j < |list|
      invariant 0 <= j <= |list|
      invariant c !in list[..j]
    {
      if list[j] == c {
        return true;
      }
      j := j + 1;
    }
    found := false;
  }

  /** Resolve one source and listener: a single pass over the source's channels keeping the
      winners, then personal solo and mute. */
  method ResolvePair(rules: Rules, sId: Id, s: RenderParams, kId: Id, k: RenderParams) returns (cell: Cell)
    ensures CellRight(rules, sId, s, kId, k, cell)
  {
    hide WinningGain;
    hide WinningAtt;
    hide Composed;
    var shared := false;
    var winGain := -1.0;
    var winAtt: Option<real> := None;
    assert WinningGain(rules, {}, winGain) && WinningAtt(rules, {}, winAtt) by { NoChannels(rules); }
    var i := 0;
    assert SharedIn(rules, s, k, 0) == {};
    while i < |s.sourceChannels|
      invariant 0 <= i <= |s.sourceChannels|
      invariant shared <==> SharedIn(rules, s, k, i) != {}
      invariant WinningGain(rules, SharedIn(rules, s, k, i), winGain)
      invariant WinningAtt(rules, SharedIn(rules, s, k, i), winAtt)
    {
      var c := s.sourceChannels[i];
      SharedGrows(rules, s, k, i);
      i := i + 1;
      if !Open(rules, c) {
        continue;
      }
      var hit := Member(c, k.sinkChannels);
      if hit {
        WinnersGrow(rules, SharedIn(rules, s, k, i - 1), c, winGain, winAtt);
        shared := true;
        if ChannelGain(rules, c) > winGain {
          winGain := ChannelGain(rules, c);
        }
        var att := ChannelAtt(rules, c);
        if att.Some? && (winAtt.None? || att.value < winAtt.value) {
          winAtt := att;
        }
      }
    }
    assert s.sourceChannels[..i] == s.sourceChannels;
    assert SharedIn(rules, s, k, i) == Shared(rules, s, k);
    if !shared || !Allowed(rules, sId, kId) {
      return SILENT;
    }
    cell := Composed(s, winGain, winAtt);
  }

  lemma NoChannels(rules: Rules)
    ensures WinningGain(rules, {}, -1.0) && WinningAtt(rules, {}, None)
  {
  }
}
