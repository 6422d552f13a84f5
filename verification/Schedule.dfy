/** The lab's schedule generator: packets sent on the writer's clock through delay, loss, stall
    and repair stages, reads on the reader's clock, merged into one event list; and the index
    from stream positions back to arrival times. */
module Schedule {
  import opened Order
  import opened Layout

  datatype Kind = KindRead | KindWrite | KindLost

  datatype Event = Event(time: int, kind: Kind, frames: int, pos: int, conceal: bool)

  /** Master time [start, start + dur) in which a side is paused. */
  datatype Stall = Stall(start: int, dur: int, drop: bool)

  function End(s: Stall): int {
    s.start + s.dur
  }

  predicate Inside(s: Stall, t: int) {
    s.start <= t < End(s)
  }

  // ---- Stall lists ------------------------------------------------------------------------

  /** Sorted and non-overlapping. */
  predicate Tidy(stalls: seq<Stall>) {
    && (forall i :: 0 <= i < |stalls| ==> stalls[i].dur >= 0)
    && (forall i, j :: 0 <= i < j < |stalls| ==> End(stalls[i]) <= stalls[j].start)
  }

  function InStall(stalls: seq<Stall>, t: int): (r: Option<Stall>)
    ensures r.Some? ==> r.value in stalls && Inside(r.value, t)
  {
    if stalls == [] || t < stalls[0].start then None
    else if t < End(stalls[0]) then Some(stalls[0])
    else InStall(stalls[1..], t)
  }

  /** On a tidy list the early exit misses nothing. */
  lemma {:induction false} InStallComplete(stalls: seq<Stall>, t: int, i: int)
    requires Tidy(stalls) && 0 <= i < |stalls| && Inside(stalls[i], t)
    ensures InStall(stalls, t) == Some(stalls[i])
  {
    if i > 0 {
      assert End(stalls[0]) <= stalls[i].start;
      InStallComplete(stalls[1..], t, i - 1);
    }
  }

  method FindStall(stalls: seq<Stall>, t: int) returns (r: Option<Stall>)
    ensures r == InStall(stalls, t)
  {
    var i := 0;
    while i < |stalls|
      invariant 0 <= i <= |stalls| && InStall(stalls, t) == InStall(stalls[i..], t)
    {
      if t < stalls[i].start {
        return None;
      }
      if t < End(stalls[i]) {
        return Some(stalls[i]);
      }
      assert stalls[i..][1..] == stalls[i + 1..];
      i := i + 1;
    }
    r := None;
  }

  /** The measure of the flush loop: stalls that end after t. */
  function EndingAfter(stalls: seq<Stall>, t: int): nat {
    if stalls == [] then 0
    else EndingAfter(stalls[..|stalls| - 1], t) + if End(stalls[|stalls| - 1]) > t then 1 else 0
  }

  lemma {:induction false} FewerLater(stalls: seq<Stall>, t: int, u: int)
    requires t <= u
    ensures EndingAfter(stalls, u) <= EndingAfter(stalls, t)
    ensures (exists i :: 0 <= i < |stalls| && t < End(stalls[i]) <= u) ==> EndingAfter(stalls, u) < EndingAfter(stalls, t)
  {
    if stalls != [] {
      var init := stalls[..|stalls| - 1];
      FewerLater(init, t, u);
      if i :| 0 <= i < |stalls| && t < End(stalls[i]) <= u {
        assert i < |stalls| - 1 ==> init[i] == stalls[i];
      }
    }
  }

  /** Chase an arrival out of the stalls: (arrival, lost). Each flush may land in another stall. */
  function Chase(stalls: seq<Stall>, arr: int): (r: (int, bool))
    ensures r.0 >= arr
    ensures !r.1 ==> InStall(stalls, r.0) == None
    ensures r.1 ==> InStall(stalls, r.0).Some? && InStall(stalls, r.0).value.drop
    decreases EndingAfter(stalls, arr)
  {
    var s := InStall(stalls, arr);
    if s.None? then (arr, false)
    else if s.value.drop then (arr, true)
    else
      FewerLater(stalls, arr, End(s.value));
      Chase(stalls, End(s.value))
  }

  /** A flush moves an arrival no further than the stalls require: every moment it skips lies inside
      a stall, and it lands at a stall's end. */
  lemma {:induction false} ChaseMovesNoFurther(stalls: seq<Stall>, arr: int, t: int)
    ensures arr <= t < Chase(stalls, arr).0 ==> exists i :: 0 <= i < |stalls| && Inside(stalls[i], t)
    ensures Chase(stalls, arr).0 == arr || exists i :: 0 <= i < |stalls| && Chase(stalls, arr).0 == End(stalls[i])
    decreases EndingAfter(stalls, arr)
  {
    var s := InStall(stalls, arr);
    if s.Some? && !s.value.drop {
      FewerLater(stalls, arr, End(s.value));
      ChaseMovesNoFurther(stalls, End(s.value), t);
      var k :| 0 <= k < |stalls| && stalls[k] == s.value;
      assert arr <= t < End(s.value) ==> Inside(stalls[k], t);
    }
  }

  // ---- Clocks -------------------------------------------------------------------------------

  /** Master time of tick k of a clock with the given period, running at the given rate. */
  function ClockTime(k: int, step: int, rate: real): int
    requires rate > 0.0
  {
    ((k * step) as real / rate + 0.5).Floor
  }

  lemma ClockMonotone(j: int, k: int, step: int, rate: real)
    requires j <= k && step >= 0 && rate > 0.0
    ensures ClockTime(j, step, rate) <= ClockTime(k, step, rate)
  {
    assert (k - j) * step >= 0;
    DivideKeepsOrder((j * step) as real, (k * step) as real, rate);
  }

  /** A tick is within half a frame of where the clock's rate puts it. */
  lemma ClockAccurate(k: int, step: int, rate: real)
    requires rate > 0.0
    ensures -0.5 < ClockTime(k, step, rate) as real - (k * step) as real / rate <= 0.5
  {
  }

  /** A tick number no clock of this rate passes before dur. */
  function TickBound(dur: int, rate: real): int {
    ((dur as real + 0.5) * rate).Floor + 1
  }

  lemma TicksBounded(k: nat, step: int, rate: real, dur: int)
    requires step >= 1 && rate > 0.0 && ClockTime(k, step, rate) < dur
    ensures k < TickBound(dur, rate)
  {
    var x := (k * step) as real;
    assert x / rate + 0.5 < dur as real + 1.0;
    assert (x / rate) * rate == x;
    TimesKeeps(x / rate, dur as real + 0.5, rate);
    assert k * (step - 1) >= 0;
    assert k as real <= x;
  }

  // ---- Packets --------------------------------------------------------------------------------

  /** One call's random draws: a rounded Gaussian delay, a rounded one-sided delay, and a
      uniform number for the loss test. */
  datatype Draw = Draw(gauss: int, tail: nat, chance: real)

  /** rate is one plus the clock offset in parts per million. */
  datatype WriterModel = WriterModel(
    rate: real, baseDelay: int, jitterSigma: int, jitterFrom: int, oneSided: int,
    stepAt: int, stepDelta: int, lossP: real, stalls: seq<Stall>, outages: seq<Stall>, fecLag: int)

  function Delay(wm: WriterModel, send: int, d: Draw): nat {
    Max(0, wm.baseDelay
           + (if wm.jitterSigma > 0 && send >= wm.jitterFrom then d.gauss else 0)
           + (if wm.oneSided > 0 then d.tail else 0)
           + (if wm.stepDelta != 0 && send >= wm.stepAt then wm.stepDelta else 0))
  }

  /** The stages of a delay add up while it is positive: each is in force from its own time on and
      only when it is set. */
  lemma DelayStages(wm: WriterModel, send: int, d: Draw)
    ensures wm.jitterSigma <= 0 && wm.oneSided <= 0 && wm.stepDelta == 0 ==> Delay(wm, send, d) == Max(0, wm.baseDelay)
    ensures var less := Delay(wm.(stepDelta := 0), send, d);
            less > 0 ==> Delay(wm, send, d) == Max(0, less + if send >= wm.stepAt then wm.stepDelta else 0)
    ensures var less := Delay(wm.(jitterSigma := 0), send, d);
            less > 0 ==> Delay(wm, send, d) == Max(0, less + if wm.jitterSigma > 0 && send >= wm.jitterFrom then d.gauss else 0)
    ensures var less := Delay(wm.(oneSided := 0), send, d);
            less > 0 ==> Delay(wm, send, d) == less + if wm.oneSided > 0 then d.tail else 0
  {
  }

  /** The sender's side of a copy: lost in an outage or by chance. */
  predicate LostInTransit(wm: WriterModel, send: int, d: Draw) {
    InStall(wm.outages, send).Some? || (wm.lossP > 0.0 && d.chance < wm.lossP)
  }

  /** Outside outages a copy is lost exactly when its draw falls below the loss probability. */
  lemma LossByChance(wm: WriterModel, send: int, d: Draw)
    requires InStall(wm.outages, send).None? && d.chance >= 0.0
    ensures LostInTransit(wm, send, d) <==> d.chance < wm.lossP
  {
  }

  /** One copy's way through the stages: (arrival, lost). */
  function Arrival(wm: WriterModel, send: int, d: Draw): (r: (int, bool))
    ensures r.0 >= send
    ensures !r.1 ==> InStall(wm.outages, send).None? && InStall(wm.stalls, r.0).None?
  {
    if LostInTransit(wm, send, d) then (send + Delay(wm, send, d), true)
    else Chase(wm.stalls, send + Delay(wm, send, d))
  }

  method OneArrival(wm: WriterModel, send: int, d: Draw) returns (arr: int, lost: bool)
    ensures (arr, lost) == Arrival(wm, send, d)
  {
    hide InStall;
    var delay := wm.baseDelay;
    if wm.jitterSigma > 0 && send >= wm.jitterFrom {
      delay := delay + d.gauss;
    }
    if wm.oneSided > 0 {
      delay := delay + d.tail;
    }
    if wm.stepDelta != 0 && send >= wm.stepAt {
      delay := delay + wm.stepDelta;
    }
    if delay < 0 {
      delay := 0;
    }
    var out := FindStall(wm.outages, send);
    lost := out.Some?;
    if !lost && wm.lossP > 0.0 && d.chance < wm.lossP {
      lost := true;
    }
    arr := send + delay;
    if !lost {
      var s := FindStall(wm.stalls, arr);
      while s.Some?
        invariant s == InStall(wm.stalls, arr) && Chase(wm.stalls, arr) == Chase(wm.stalls, send + delay)
        decreases EndingAfter(wm.stalls, arr)
      {
        if s.value.drop {
          lost := true;
          return;
        }
        StallEndsLater(wm.stalls, arr);
        arr := End(s.value);
        s := FindStall(wm.stalls, arr);
      }
    }
  }

  lemma StallEndsLater(stalls: seq<Stall>, arr: int)
    requires InStall(stalls, arr).Some?
    ensures EndingAfter(stalls, End(InStall(stalls, arr).value)) < EndingAfter(stalls, arr)
  {
    FewerLater(stalls, arr, End(InStall(stalls, arr).value));
  }

  datatype Fate = Delivered(time: int, conceal: bool) | Gone

  /** What becomes of packet k. Without repair a packet is delivered at its arrival, behind its
      predecessors. With repair the first surviving copy counts if it makes the deadline, and
      otherwise the deadline releases a concealment. Nothing is delivered at or after dur. */
  function FateOf(wm: WriterModel, w: int, dur: int, k: nat, prevArr: int, draws: nat -> Draw): (f: Fate)
    requires wm.rate > 0.0
    ensures f.Delivered? ==> prevArr <= f.time < dur
  {
    var send := ClockTime(k, w, wm.rate);
    if wm.fecLag > 0 then
      var first := Arrival(wm, send, draws(2 * k));
      var repSend := ClockTime(k + wm.fecLag, w, wm.rate);
      var second := Arrival(wm, repSend, draws(2 * k + 1));
      var giveUp := repSend + wm.baseDelay + 2 * w;
      var ready := Ready(first, second);
      var rel := if ready.Some? && ready.value <= giveUp then Max(prevArr, ready.value) else Max(prevArr, giveUp);
      if rel < dur then Delivered(rel, !(ready.Some? && ready.value <= giveUp)) else Gone
    else
      var a := Arrival(wm, send, draws(k));
      if a.1 || Max(prevArr, a.0) >= dur then Gone else Delivered(Max(prevArr, a.0), false)
  }

  /** The earliest surviving copy. */
  function Ready(a: (int, bool), b: (int, bool)): Option<int> {
    if a.1 && b.1 then None
    else if a.1 then Some(b.0)
    else if b.1 then Some(a.0)
    else Some(Min(a.0, b.0))
  }

  datatype Line = Line(events: seq<Event>, prevArr: int, pos: int)

  function Sent(wm: WriterModel, w: int, dur: int, draws: nat -> Draw, k: nat, line: Line): Line
    requires wm.rate > 0.0
  {
    var f := FateOf(wm, w, dur, k, line.prevArr, draws);
    var e := if f.Gone? then Event(ClockTime(k, w, wm.rate), KindLost, w, line.pos, false)
             else Event(f.time, KindWrite, w, line.pos, f.conceal);
    Line(line.events + [e], if f.Gone? then line.prevArr else f.time, line.pos + w)
  }

  /** The writer's line after the first n packets. */
  function Packets(wm: WriterModel, w: int, dur: int, draws: nat -> Draw, n: nat): (r: Line)
    requires wm.rate > 0.0
    ensures |r.events| == n
  {
    if n == 0 then Line([], 0, 0) else Sent(wm, w, dur, draws, n - 1, Packets(wm, w, dur, draws, n - 1))
  }

  /** Every packet becomes exactly one write or one loss, and their ranges tile the stream. */
  ghost predicate Tiles(events: seq<Event>, w: int) {
    forall k :: 0 <= k < |events| ==> TileAt(events, k, w)
  }

  ghost predicate TileAt(events: seq<Event>, k: int, w: int)
    requires 0 <= k < |events|
  {
    events[k].pos == Flat(k, w) && events[k].frames == w && !events[k].kind.KindRead?
  }

  /** Delivered writes arrive in position order. */
  ghost predicate InOrder(events: seq<Event>) {
    forall i, j :: 0 <= i < j < |events| && events[j].kind.KindWrite? && events[i].kind.KindWrite? ==>
      events[i].time <= events[j].time
  }

  lemma {:induction false} PacketsTile(wm: WriterModel, w: int, dur: int, draws: nat -> Draw, n: nat)
    requires wm.rate > 0.0
    ensures Tiles(Packets(wm, w, dur, draws, n).events, w) && Packets(wm, w, dur, draws, n).pos == Flat(n, w)
  {
    hide FateOf;
    hide ClockTime;
    if n == 0 {
      FlatUnits(w);
    } else {
      PacketsTile(wm, w, dur, draws, n - 1);
      FlatNext(n - 1, w);
      hide Flat;
      var before, after := Packets(wm, w, dur, draws, n - 1).events, Packets(wm, w, dur, draws, n).events;
      forall k | 0 <= k < n
        ensures TileAt(after, k, w)
      {
        assert k < n - 1 ==> TileAt(before, k, w);
      }
    }
  }

  lemma {:induction false} PacketsInOrder(wm: WriterModel, w: int, dur: int, draws: nat -> Draw, n: nat)
    requires wm.rate > 0.0
    ensures InOrder(Packets(wm, w, dur, draws, n).events)
    ensures forall k :: 0 <= k < n && Packets(wm, w, dur, draws, n).events[k].kind.KindWrite? ==>
              Packets(wm, w, dur, draws, n).events[k].time <= Packets(wm, w, dur, draws, n).prevArr
  {
    hide FateOf;
    hide ClockTime;
    if n > 0 {
      PacketsInOrder(wm, w, dur, draws, n - 1);
      var before, after := Packets(wm, w, dur, draws, n - 1), Packets(wm, w, dur, draws, n);
      assert after.events[..n - 1] == before.events;
    }
  }

  /** When packet k would be released by itself: at its arrival, or with repair at the first copy
      that makes the deadline, and else at the deadline. None if it is lost. */
  function OwnRelease(wm: WriterModel, w: int, k: nat, draws: nat -> Draw): Option<int>
    requires wm.rate > 0.0
  {
    if wm.fecLag > 0 then Some(if Repaired(wm, w, k, draws) then FirstCopy(wm, w, k, draws).value else GiveUp(wm, w, k))
    else
      var a := Arrival(wm, ClockTime(k, w, wm.rate), draws(k));
      if a.1 then None else Some(a.0)
  }

  lemma FateIsRelease(wm: WriterModel, w: int, dur: int, k: nat, prevArr: int, draws: nat -> Draw)
    requires wm.rate > 0.0
    ensures var own, f := OwnRelease(wm, w, k, draws), FateOf(wm, w, dur, k, prevArr, draws);
            && (f.Delivered? <==> own.Some? && Max(prevArr, own.value) < dur)
            && (f.Delivered? ==> f.time == Max(prevArr, own.value))
  {
    hide Arrival;
    hide ClockTime;
  }

  ghost predicate IsOut(wm: WriterModel, w: int, dur: int, draws: nat -> Draw, n: nat, i: nat)
    requires wm.rate > 0.0 && i < n
  {
    Packets(wm, w, dur, draws, n).events[i].kind.KindWrite? && OwnRelease(wm, w, i, draws).Some?
  }

  /** In-order delivery, exactly: the latest delivery after n packets is the greatest own release
      time among the delivered ones (or the start of time), so each packet is held just until every
      delivered one before it is out. */
  lemma {:induction false} DeliveryIsRunningMaximum(wm: WriterModel, w: int, dur: int, draws: nat -> Draw, n: nat)
    requires wm.rate > 0.0
    ensures var line := Packets(wm, w, dur, draws, n);
            && (forall i :: 0 <= i < n && line.events[i].kind.KindWrite? ==>
                  IsOut(wm, w, dur, draws, n, i) && OwnRelease(wm, w, i, draws).value <= line.prevArr)
            && (line.prevArr == 0 || exists i :: 0 <= i < n && IsOut(wm, w, dur, draws, n, i)
                                                && OwnRelease(wm, w, i, draws).value == line.prevArr)
            && line.prevArr >= 0
            && (n > 0 && line.events[n - 1].kind.KindWrite? ==> line.events[n - 1].time == line.prevArr)
  {
    hide FateOf;
    hide ClockTime;
    hide OwnRelease;
    if n > 0 {
      DeliveryIsRunningMaximum(wm, w, dur, draws, n - 1);
      var was, line := Packets(wm, w, dur, draws, n - 1), Packets(wm, w, dur, draws, n);
      FateIsRelease(wm, w, dur, n - 1, was.prevArr, draws);
      assert line.events[..n - 1] == was.events;
      forall i | 0 <= i < n - 1 && was.events[i].kind.KindWrite?
        ensures IsOut(wm, w, dur, draws, n, i) && OwnRelease(wm, w, i, draws).value <= was.prevArr
      {
        assert IsOut(wm, w, dur, draws, n - 1, i);
      }
      if line.events[n - 1].kind.KindWrite? {
        assert IsOut(wm, w, dur, draws, n, n - 1);
      }
      if was.prevArr != 0 {
        var i :| 0 <= i < n - 1 && IsOut(wm, w, dur, draws, n - 1, i) && OwnRelease(wm, w, i, draws).value == was.prevArr;
        assert IsOut(wm, w, dur, draws, n, i);
      }
    }
  }

  /** The repair deadline is not before the packet was sent; without repair there is none. */
  predicate DeadlineAfterSend(wm: WriterModel, w: int) {
    wm.fecLag <= 0 || wm.baseDelay + 2 * w >= 0
  }

  /** Each event that counts, all of them or those that are not losses, is no earlier than anything
      before it. */
  ghost predicate Ordered(events: seq<Event>, all: bool) {
    forall i, j :: 0 <= i < j < |events| && (all || !events[j].kind.KindLost?) ==> events[i].time <= events[j].time
  }

  ghost predicate TimeSorted(events: seq<Event>) {
    Ordered(events, true)
  }

  /** Whatever is not a loss, so every call on the buffer, is no earlier than anything before it. */
  ghost predicate Playable(events: seq<Event>) {
    Ordered(events, false)
  }

  lemma FateAfterSend(wm: WriterModel, w: int, dur: int, k: nat, prevArr: int, draws: nat -> Draw)
    requires wm.rate > 0.0 && w >= 0 && DeadlineAfterSend(wm, w)
    ensures var f := FateOf(wm, w, dur, k, prevArr, draws);
            f.Delivered? ==> ClockTime(k, w, wm.rate) <= f.time
  {
    hide Arrival;
    if wm.fecLag > 0 {
      ClockMonotone(k, k + wm.fecLag, w, wm.rate);
    }
    hide ClockTime;
  }

  /** Each event's time: a loss at its send time, a write not before it. */
  ghost predicate AtSendTime(e: Event, send: int) {
    if e.kind.KindWrite? then send <= e.time else e.time == send
  }

  lemma {:induction false} PacketsTimely(wm: WriterModel, w: int, dur: int, draws: nat -> Draw, n: nat)
    requires wm.rate > 0.0 && w >= 0 && DeadlineAfterSend(wm, w)
    ensures forall k :: 0 <= k < n ==> AtSendTime(Packets(wm, w, dur, draws, n).events[k], ClockTime(k, w, wm.rate))
  {
    hide FateOf;
    hide ClockTime;
    if n > 0 {
      PacketsTimely(wm, w, dur, draws, n - 1);
      var before, after := Packets(wm, w, dur, draws, n - 1), Packets(wm, w, dur, draws, n);
      assert after.events[..n - 1] == before.events;
      FateAfterSend(wm, w, dur, n - 1, before.prevArr, draws);
      forall k | 0 <= k < n
        ensures AtSendTime(after.events[k], ClockTime(k, w, wm.rate))
      {
        assert k < n - 1 ==> AtSendTime(before.events[k], ClockTime(k, w, wm.rate));
      }
    }
  }

  /** A delivered write is no earlier than anything before it in the line, losses included. */
  lemma PacketsPaced(wm: WriterModel, w: int, dur: int, draws: nat -> Draw, n: nat)
    requires wm.rate > 0.0 && w >= 0 && DeadlineAfterSend(wm, w)
    ensures Playable(Packets(wm, w, dur, draws, n).events)
  {
    PacketsTimely(wm, w, dur, draws, n);
    PacketsInOrder(wm, w, dur, draws, n);
    PacketsTile(wm, w, dur, draws, n);
    hide Packets;
    hide ClockTime;
    hide Flat;
    var events := Packets(wm, w, dur, draws, n).events;
    forall i, j | 0 <= i < j < |events| && !events[j].kind.KindLost?
      ensures events[i].time <= events[j].time
    {
      assert AtSendTime(events[i], ClockTime(i, w, wm.rate)) && AtSendTime(events[j], ClockTime(j, w, wm.rate));
      assert TileAt(events, i, w) && TileAt(events, j, w);
      ClockMonotone(i, j, w, wm.rate);
    }
  }

  /** If packet k is lost, it was sent no earlier than the latest delivery before it arrived. */
  ghost predicate LostLate(wm: WriterModel, w: int, dur: int, draws: nat -> Draw, n: nat, k: nat)
    requires wm.rate > 0.0 && k < n
  {
    Packets(wm, w, dur, draws, n).events[k].kind.KindLost? ==>
      Packets(wm, w, dur, draws, k).prevArr <= ClockTime(k, w, wm.rate)
  }

  /** The line is sorted by time exactly when every lost packet was sent no earlier than the latest
      delivery before it arrived. */
  lemma LineSortedIff(wm: WriterModel, w: int, dur: int, draws: nat -> Draw, n: nat)
    requires wm.rate > 0.0 && w >= 0 && DeadlineAfterSend(wm, w)
    ensures TimeSorted(Packets(wm, w, dur, draws, n).events) <==> forall k :: 0 <= k < n ==> LostLate(wm, w, dur, draws, n, k)
  {
    PacketsPaced(wm, w, dur, draws, n);
    hide Packets;
    hide ClockTime;
    var events := Packets(wm, w, dur, draws, n).events;
    if TimeSorted(events) {
      forall k | 0 <= k < n
        ensures LostLate(wm, w, dur, draws, n, k)
      {
        SortedLostLate(wm, w, dur, draws, n, k);
      }
    } else {
      var i, j :| 0 <= i < j < |events| && events[i].time > events[j].time;
      if LostLate(wm, w, dur, draws, n, j) {
        LossAfter(wm, w, dur, draws, n, i, j);
      }
    }
  }

  lemma SortedLostLate(wm: WriterModel, w: int, dur: int, draws: nat -> Draw, n: nat, k: nat)
    requires wm.rate > 0.0 && w >= 0 && DeadlineAfterSend(wm, w) && k < n
    requires TimeSorted(Packets(wm, w, dur, draws, n).events)
    ensures LostLate(wm, w, dur, draws, n, k)
  {
    PacketsTimely(wm, w, dur, draws, n);
    PrevArrIs(wm, w, dur, draws, n, k);
    ClockNonnegative(k, w, wm.rate);
    hide Packets;
    hide ClockTime;
    assert AtSendTime(Packets(wm, w, dur, draws, n).events[k], ClockTime(k, w, wm.rate));
  }

  lemma LossAfter(wm: WriterModel, w: int, dur: int, draws: nat -> Draw, n: nat, i: nat, j: nat)
    requires wm.rate > 0.0 && w >= 0 && DeadlineAfterSend(wm, w) && i < j < n
    requires Packets(wm, w, dur, draws, n).events[j].kind.KindLost?
    requires Packets(wm, w, dur, draws, j).prevArr <= ClockTime(j, w, wm.rate)
    ensures Packets(wm, w, dur, draws, n).events[i].time <= Packets(wm, w, dur, draws, n).events[j].time
  {
    PacketsTimely(wm, w, dur, draws, n);
    PacketsTimely(wm, w, dur, draws, j);
    PacketsInOrder(wm, w, dur, draws, j);
    PacketsTile(wm, w, dur, draws, j);
    EventIs(wm, w, dur, draws, n, i);
    EventIs(wm, w, dur, draws, j, i);
    hide Packets;
    hide ClockTime;
    hide Flat;
    var e := Packets(wm, w, dur, draws, j).events[i];
    assert TileAt(Packets(wm, w, dur, draws, j).events, i, w);
    assert AtSendTime(e, ClockTime(i, w, wm.rate));
    assert AtSendTime(Packets(wm, w, dur, draws, n).events[j], ClockTime(j, w, wm.rate));
    ClockMonotone(i, j, w, wm.rate);
  }

  /** The latest delivery so far is the start of time or one of the line's own. */
  lemma {:induction false} PrevArrIs(wm: WriterModel, w: int, dur: int, draws: nat -> Draw, n: nat, k: nat)
    requires wm.rate > 0.0 && k <= n
    ensures var p := Packets(wm, w, dur, draws, k).prevArr;
            p == 0 || exists i :: 0 <= i < k && Packets(wm, w, dur, draws, n).events[i].time == p
  {
    hide FateOf;
    hide ClockTime;
    if k > 0 {
      PrevArrIs(wm, w, dur, draws, n, k - 1);
      EventIs(wm, w, dur, draws, n, k - 1);
      assert Packets(wm, w, dur, draws, k).events[k - 1].kind.KindWrite?
             ==> Packets(wm, w, dur, draws, k).events[k - 1].time == Packets(wm, w, dur, draws, k).prevArr;
    }
  }

  lemma ClockNonnegative(k: nat, step: int, rate: real)
    requires step >= 0 && rate > 0.0
    ensures ClockTime(k, step, rate) >= 0
  {
    ClockMonotone(0, k, step, rate);
    assert 0 * step == 0 && (0 as real) / rate == 0.0;
  }

  /** n is the number of ticks of a clock before dur. */
  ghost predicate TicksBefore(n: nat, step: int, rate: real, dur: int)
    requires rate > 0.0
  {
    ClockTime(n, step, rate) >= dur && forall k :: 0 <= k < n ==> ClockTime(k, step, rate) < dur
  }

  method BuildWrites(wm: WriterModel, w: int, dur: int, draws: nat -> Draw) returns (writing: seq<Event>)
    requires wm.rate > 0.0 && w >= 1
    ensures TicksBefore(|writing|, w, wm.rate, dur)
    ensures writing == Packets(wm, w, dur, draws, |writing|).events
  {
    hide Arrival;
    hide ClockTime;
    hide TickBound;
    writing := [];
    var pos, prevArr, k := 0, 0, 0;
    var send := ClockTime(0, w, wm.rate);
    while send < dur
      invariant 0 <= k && send == ClockTime(k, w, wm.rate)
      invariant Packets(wm, w, dur, draws, k) == Line(writing, prevArr, pos)
      invariant forall j :: 0 <= j < k ==> ClockTime(j, w, wm.rate) < dur
      decreases TickBound(dur, wm.rate) - k
    {
      TicksBounded(k, w, wm.rate, dur);
      ghost var line := Line(writing, prevArr, pos);
      var f := Deliver(wm, w, dur, k, prevArr, draws);
      if f.Gone? {
        writing := writing + [Event(send, KindLost, w, pos, false)];
      } else {
        prevArr := f.time;
        writing := writing + [Event(f.time, KindWrite, w, pos, f.conceal)];
      }
      pos := pos + w;
      assert Line(writing, prevArr, pos) == Sent(wm, w, dur, draws, k, line);
      k := k + 1;
      send := ClockTime(k, w, wm.rate);
    }
  }

  /** The fate of one packet, copy by copy. */
  method Deliver(wm: WriterModel, w: int, dur: int, k: nat, prevArr: int, draws: nat -> Draw) returns (f: Fate)
    requires wm.rate > 0.0
    ensures f == FateOf(wm, w, dur, k, prevArr, draws)
  {
    hide Arrival;
    hide ClockTime;
    var send := ClockTime(k, w, wm.rate);
    if wm.fecLag > 0 {
      var arr, lost := OneArrival(wm, send, draws(2 * k));
      var repSend := ClockTime(k + wm.fecLag, w, wm.rate);
      var repArr, repLost := OneArrival(wm, repSend, draws(2 * k + 1));
      var giveUp := repSend + wm.baseDelay + 2 * w;
      var ready := None;
      if !lost {
        ready := Some(arr);
      }
      if !repLost && (ready.None? || repArr < ready.value) {
        ready := Some(repArr);
      }
      var made := ready.Some? && ready.value <= giveUp;
      var rel := if made then Max(prevArr, ready.value) else Max(prevArr, giveUp);
      return if rel < dur then Delivered(rel, !made) else Gone;
    }
    var arr, lost := OneArrival(wm, send, draws(k));
    if !lost && arr < prevArr {
      arr := prevArr;
    }
    if !lost && arr >= dur {
      lost := true;
    }
    f := if lost then Gone else Delivered(arr, false);
  }

  // ---- What repair promises ----------------------------------------------------------------------

  /** When the reassembler gives up on packet k. */
  function GiveUp(wm: WriterModel, w: int, k: nat): int
    requires wm.rate > 0.0 && wm.fecLag >= 0
  {
    ClockTime(k + wm.fecLag, w, wm.rate) + wm.baseDelay + 2 * w
  }

  lemma {:induction false} PrevArrInside(wm: WriterModel, w: int, dur: int, draws: nat -> Draw, n: nat)
    requires wm.rate > 0.0 && dur > 0
    ensures Packets(wm, w, dur, draws, n).prevArr < dur
  {
    hide FateOf;
    hide ClockTime;
    if n > 0 {
      PrevArrInside(wm, w, dur, draws, n - 1);
    }
  }

  lemma {:induction false} EventIs(wm: WriterModel, w: int, dur: int, draws: nat -> Draw, n: nat, k: nat)
    requires wm.rate > 0.0 && k < n
    ensures Packets(wm, w, dur, draws, n).events[k] == Packets(wm, w, dur, draws, k + 1).events[k]
  {
    hide Sent;
    if k + 1 < n {
      EventIs(wm, w, dur, draws, n - 1, k);
      SentAppends(wm, w, dur, draws, n - 1);
    }
  }

  lemma SentAppends(wm: WriterModel, w: int, dur: int, draws: nat -> Draw, n: nat)
    requires wm.rate > 0.0
    ensures Packets(wm, w, dur, draws, n + 1).events[..n] == Packets(wm, w, dur, draws, n).events
  {
    hide FateOf;
    hide ClockTime;
  }

  /** Packet k's first surviving copy. */
  function FirstCopy(wm: WriterModel, w: int, k: nat, draws: nat -> Draw): Option<int>
    requires wm.rate > 0.0 && wm.fecLag > 0
  {
    Ready(Arrival(wm, ClockTime(k, w, wm.rate), draws(2 * k)),
          Arrival(wm, ClockTime(k + wm.fecLag, w, wm.rate), draws(2 * k + 1)))
  }

  /** A copy makes the deadline. */
  predicate Repaired(wm: WriterModel, w: int, k: nat, draws: nat -> Draw)
    requires wm.rate > 0.0 && wm.fecLag > 0
  {
    FirstCopy(wm, w, k, draws).Some? && FirstCopy(wm, w, k, draws).value <= GiveUp(wm, w, k)
  }

  /** The deadline, or a copy that makes it, falls inside the run. */
  predicate Released(wm: WriterModel, w: int, dur: int, k: nat, draws: nat -> Draw)
    requires wm.rate > 0.0 && wm.fecLag > 0
  {
    GiveUp(wm, w, k) < dur || (Repaired(wm, w, k, draws) && FirstCopy(wm, w, k, draws).value < dur)
  }

  /** With repair on, a packet is delivered exactly when it is released inside the run, whatever
      became of the packets before it; and it carries concealment exactly when no copy made the
      deadline. */
  lemma RepairDelivers(wm: WriterModel, w: int, dur: int, draws: nat -> Draw, n: nat, k: nat)
    requires wm.rate > 0.0 && wm.fecLag > 0 && dur > 0 && k < n
    ensures var e := Packets(wm, w, dur, draws, n).events[k];
            && (e.kind.KindWrite? <==> Released(wm, w, dur, k, draws))
            && (e.kind.KindWrite? ==> (e.conceal <==> !Repaired(wm, w, k, draws)))
  {
    EventIs(wm, w, dur, draws, n, k);
    PrevArrInside(wm, w, dur, draws, k);
    FateByRelease(wm, w, dur, k, Packets(wm, w, dur, draws, k).prevArr, draws);
    hide FateOf;
    hide ClockTime;
    hide Released;
    hide Repaired;
  }

  lemma FateByRelease(wm: WriterModel, w: int, dur: int, k: nat, prevArr: int, draws: nat -> Draw)
    requires wm.rate > 0.0 && wm.fecLag > 0 && prevArr < dur
    ensures var f := FateOf(wm, w, dur, k, prevArr, draws);
            && (f.Delivered? <==> Released(wm, w, dur, k, draws))
            && (f.Delivered? ==> (f.conceal <==> !Repaired(wm, w, k, draws)))
  {
    hide Arrival;
    hide ClockTime;
  }

  /** No delivery follows a loss. */
  ghost predicate GapFree(events: seq<Event>) {
    forall i, j :: 0 <= i < j < |events| && events[j].kind.KindWrite? ==> events[i].kind.KindWrite?
  }

  /** The repaired stream has no gap exactly when every packet before a released one is released
      too, and loses nothing at all exactly when every packet is. */
  lemma RepairGapFreeIff(wm: WriterModel, w: int, dur: int, draws: nat -> Draw, n: nat)
    requires wm.rate > 0.0 && wm.fecLag > 0 && dur > 0
    ensures GapFree(Packets(wm, w, dur, draws, n).events) <==>
            forall i, j :: 0 <= i < j < n && Released(wm, w, dur, j, draws) ==> Released(wm, w, dur, i, draws)
    ensures (forall k :: 0 <= k < n ==> Packets(wm, w, dur, draws, n).events[k].kind.KindWrite?) <==>
            forall k :: 0 <= k < n ==> Released(wm, w, dur, k, draws)
  {
    hide Packets;
    hide Released;
    hide Repaired;
    var events := Packets(wm, w, dur, draws, n).events;
    forall k | 0 <= k < n
      ensures events[k].kind.KindWrite? <==> Released(wm, w, dur, k, draws)
    {
      RepairDelivers(wm, w, dur, draws, n, k);
    }
  }

  /** So there is no gap up to any packet whose deadline falls inside the run. */
  lemma RepairLeavesNoGap(wm: WriterModel, w: int, dur: int, draws: nat -> Draw, n: nat, k: nat)
    requires wm.rate > 0.0 && wm.fecLag > 0 && dur > 0 && w >= 0 && k < n && GiveUp(wm, w, k) < dur
    ensures forall i :: 0 <= i <= k ==> Packets(wm, w, dur, draws, n).events[i].kind.KindWrite?
  {
    hide Packets;
    hide Repaired;
    forall i | 0 <= i <= k
      ensures Packets(wm, w, dur, draws, n).events[i].kind.KindWrite?
    {
      ClockMonotone(i + wm.fecLag, k + wm.fecLag, w, wm.rate);
      hide ClockTime;
      RepairDelivers(wm, w, dur, draws, n, i);
    }
  }

  /** A stream with a gap: neither copy of the first packet nor its deadline comes before the end of
      the run, and the second packet is delivered all the same, not held behind it. */
  lemma RepairGapAtTheEnd()
    ensures var wm := WriterModel(1.0, 0, 1, 0, 0, 0, 0, 0.0, [], [], 1);
            var draws := (i: nat) => Draw(if i < 2 then 5000 else 0, 0, 0.5);
            var events := Packets(wm, 240, 700, draws, 2).events;
            events == [Event(0, KindLost, 240, 0, false), Event(240, KindWrite, 240, 240, false)]
  {
    var wm := WriterModel(1.0, 0, 1, 0, 0, 0, 0, 0.0, [], [], 1);
    var draws := (i: nat) => Draw(if i < 2 then 5000 else 0, 0, 0.5);
    UnitClock(0);
    UnitClock(1);
    UnitClock(2);
    hide ClockTime;
    assert Arrival(wm, 0, draws(0)) == (5000, false) && Arrival(wm, 240, draws(1)) == (5240, false);
    assert Arrival(wm, 240, draws(2)) == (240, false) && Arrival(wm, 480, draws(3)) == (480, false);
    assert FateOf(wm, 240, 700, 0, 0, draws) == Gone;
    assert FateOf(wm, 240, 700, 1, 0, draws) == Delivered(240, false);
    assert Packets(wm, 240, 700, draws, 0) == Line([], 0, 0);
    assert Packets(wm, 240, 700, draws, 1) == Line([Event(0, KindLost, 240, 0, false)], 0, 240);
  }

  lemma UnitClock(k: nat)
    ensures ClockTime(k, 240, 1.0) == 240 * k
  {
  }

  // ---- Reads ------------------------------------------------------------------------------------

  /** A read due at t runs at the end of the stall it falls in. */
  function ReadTime(stalls: seq<Stall>, t: int): (r: int)
    ensures r >= t
  {
    var s := InStall(stalls, t);
    if s.Some? then End(s.value) else t
  }

  /** Deferring reads to the ends of stalls does not reorder them. */
  lemma ReadTimeMonotone(stalls: seq<Stall>, t: int, u: int)
    requires Tidy(stalls) && t <= u
    ensures ReadTime(stalls, t) <= ReadTime(stalls, u)
  {
    var s := InStall(stalls, t);
    if s.Some? && u < End(s.value) {
      var i :| 0 <= i < |stalls| && stalls[i] == s.value;
      InStallComplete(stalls, u, i);
    }
  }

  function ReadEvent(stalls: seq<Stall>, r: int, rate: real, j: int): Event
    requires rate > 0.0
  {
    Event(ReadTime(stalls, ClockTime(j, r, rate)), KindRead, r, 0, false)
  }

  /** A read due inside a stall runs at that stall's end, any other when it is due. */
  lemma StalledReadsDefer(stalls: seq<Stall>, t: int)
    requires Tidy(stalls)
    ensures forall i :: 0 <= i < |stalls| && Inside(stalls[i], t) ==> ReadTime(stalls, t) == End(stalls[i])
    ensures (forall i :: 0 <= i < |stalls| ==> !Inside(stalls[i], t)) ==> ReadTime(stalls, t) == t
  {
    forall i | 0 <= i < |stalls| && Inside(stalls[i], t)
      ensures ReadTime(stalls, t) == End(stalls[i])
    {
      InStallComplete(stalls, t, i);
    }
  }

  method BuildReads(stalls: seq<Stall>, r: int, rate: real, dur: int) returns (reading: seq<Event>)
    requires rate > 0.0 && r >= 1
    ensures forall j :: 0 <= j < |reading| ==> reading[j] == ReadEvent(stalls, r, rate, j) && reading[j].time < dur
    ensures ReadTime(stalls, ClockTime(|reading|, r, rate)) >= dur
    ensures Tidy(stalls) ==> TimeSorted(reading)
  {
    hide InStall;
    hide ClockTime;
    hide TickBound;
    reading := [];
    var j := 0;
    var t := ClockTime(0, r, rate);
    while t < dur
      invariant j == |reading| && t == ClockTime(j, r, rate)
      invariant forall i :: 0 <= i < |reading| ==> reading[i] == ReadEvent(stalls, r, rate, i) && reading[i].time < dur
      decreases TickBound(dur, rate) - j
    {
      TicksBounded(j, r, rate, dur);
      var s := FindStall(stalls, t);
      if s.Some? {
        t := End(s.value);
        if t >= dur {
          break;
        }
      }
      reading := reading + [Event(t, KindRead, r, 0, false)];
      j := j + 1;
      t := ClockTime(j, r, rate);
    }
    ReadsSorted(stalls, r, rate, reading);
  }

  lemma ReadsSorted(stalls: seq<Stall>, r: int, rate: real, reading: seq<Event>)
    requires rate > 0.0 && r >= 0
    requires forall j :: 0 <= j < |reading| ==> reading[j] == ReadEvent(stalls, r, rate, j)
    ensures Tidy(stalls) ==> TimeSorted(reading)
  {
    hide ClockTime;
    hide ReadTime;
    hide Tidy;
    if Tidy(stalls) {
      forall i, j | 0 <= i < j < |reading|
        ensures reading[i].time <= reading[j].time
      {
        ClockMonotone(i, j, r, rate);
        ReadTimeMonotone(stalls, ClockTime(i, r, rate), ClockTime(j, r, rate));
      }
    }
  }

  // ---- Merging ------------------------------------------------------------------------------------

  /** The writer's, or the reader's, side of an event list. */
  function Side(events: seq<Event>, ofReader: bool): seq<Event> {
    if events == [] then []
    else
      var e := events[|events| - 1];
      Side(events[..|events| - 1], ofReader) + if e.kind.KindRead? == ofReader then [e] else []
  }

  ghost predicate AllSide(events: seq<Event>, ofReader: bool) {
    forall i :: 0 <= i < |events| ==> events[i].kind.KindRead? == ofReader
  }

  lemma {:induction false} SideAll(events: seq<Event>, ofReader: bool)
    requires AllSide(events, ofReader)
    ensures Side(events, ofReader) == events && Side(events, !ofReader) == []
  {
    if events != [] {
      SideAll(events[..|events| - 1], ofReader);
    }
  }

  lemma {:induction false} SideJoin(a: seq<Event>, b: seq<Event>, ofReader: bool)
    ensures Side(a + b, ofReader) == Side(a, ofReader) + Side(b, ofReader)
  {
    if b == [] {
      assert a + b == a;
    } else {
      assert (a + b)[..|a + b| - 1] == a + b[..|b| - 1];
      SideJoin(a, b[..|b| - 1], ofReader);
    }
  }

  /** Everything merged so far is no later than a pending event that counts. */
  ghost predicate Before(out: seq<Event>, rest: seq<Event>, all: bool) {
    forall a, b :: 0 <= a < |out| && 0 <= b < |rest| && (all || !rest[b].kind.KindLost?) ==> out[a].time <= rest[b].time
  }

  /** The merge has reached i and j with everything in its place. */
  ghost predicate Orderly(out: seq<Event>, writing: seq<Event>, reading: seq<Event>, i: nat, j: nat, all: bool) {
    && i <= |writing| && j <= |reading| && Ordered(writing, all) && Ordered(reading, true)
    && Ordered(out, all) && Before(out, writing[i..], all) && Before(out, reading[j..], true)
  }

  /** Merge two event lists, writes first on ties: each side keeps its own events in its own
      order; calls on the buffer come out in time order if they are so on each side; and the
      whole list is sorted exactly when the writer's side is. */
  method MergeEvents(writing: seq<Event>, reading: seq<Event>) returns (out: seq<Event>)
    requires AllSide(writing, false) && AllSide(reading, true)
    ensures Side(out, false) == writing && Side(out, true) == reading
    ensures Playable(writing) && TimeSorted(reading) ==> Playable(out)
    ensures TimeSorted(reading) ==> (TimeSorted(out) <==> TimeSorted(writing))
  {
    hide Side;
    hide Ordered;
    out := [];
    var i, j := 0, 0;
    StartMerge(writing, reading);
    hide Orderly;
    while i < |writing| && j < |reading|
      invariant 0 <= i <= |writing| && 0 <= j <= |reading|
      invariant Side(out, false) == writing[..i] && Side(out, true) == reading[..j]
      invariant Ordered(writing, false) && Ordered(reading, true) ==> Orderly(out, writing, reading, i, j, false)
      invariant Ordered(writing, true) && Ordered(reading, true) ==> Orderly(out, writing, reading, i, j, true)
      decreases |writing| - i + |reading| - j
    {
      if writing[i].time <= reading[j].time {
        TakeOne(out, writing, reading, i, j, true);
        out := out + [writing[i]];
        i := i + 1;
      } else {
        TakeOne(out, writing, reading, i, j, false);
        out := out + [reading[j]];
        j := j + 1;
      }
    }
    TakeRest(out, writing, reading, i, j);
    out := out + writing[i..];
    out := out + reading[j..];
    if Ordered(out, true) {
      SideSorted(out, false);
    }
  }

  /** A side of a sorted list is sorted. */
  lemma {:induction false} SideSorted(events: seq<Event>, ofReader: bool)
    requires Ordered(events, true)
    ensures Ordered(Side(events, ofReader), true)
  {
    if events != [] {
      var n := |events| - 1;
      SideSorted(events[..n], ofReader);
      forall i | 0 <= i < |Side(events[..n], ofReader)|
        ensures Side(events[..n], ofReader)[i].time <= events[n].time
      {
        SideMember(events[..n], ofReader, i);
      }
    }
  }

  lemma {:induction false} SideMember(events: seq<Event>, ofReader: bool, i: nat)
    requires i < |Side(events, ofReader)|
    ensures Side(events, ofReader)[i] in events
  {
    if events != [] && i < |Side(events[..|events| - 1], ofReader)| {
      SideMember(events[..|events| - 1], ofReader, i);
    }
  }

  lemma StartMerge(writing: seq<Event>, reading: seq<Event>)
    ensures Side([], false) == writing[..0] && Side([], true) == reading[..0]
    ensures Ordered(writing, false) && Ordered(reading, true) ==> Orderly([], writing, reading, 0, 0, false)
    ensures Ordered(writing, true) && Ordered(reading, true) ==> Orderly([], writing, reading, 0, 0, true)
  {
  }

  lemma TakeOne(out: seq<Event>, writing: seq<Event>, reading: seq<Event>, i: nat, j: nat, w: bool)
    requires AllSide(writing, false) && AllSide(reading, true) && i < |writing| && j < |reading|
    requires Side(out, false) == writing[..i] && Side(out, true) == reading[..j]
    requires w <==> writing[i].time <= reading[j].time
    ensures var next := out + [if w then writing[i] else reading[j]];
            var i', j' := if w then i + 1 else i, if w then j else j + 1;
            && Side(next, false) == writing[..i'] && Side(next, true) == reading[..j']
            && (Orderly(out, writing, reading, i, j, false) ==> Orderly(next, writing, reading, i', j', false))
            && (Orderly(out, writing, reading, i, j, true) ==> Orderly(next, writing, reading, i', j', true))
  {
    hide Side;
    hide Orderly;
    var e := if w then writing[i] else reading[j];
    SideJoin(out, [e], false);
    SideJoin(out, [e], true);
    SideAll([e], !w);
    assert writing[..i] + [writing[i]] == writing[..i + 1] && reading[..j] + [reading[j]] == reading[..j + 1];
    hide AllSide;
    if Orderly(out, writing, reading, i, j, false) {
      TakeOneOrder(out, writing, reading, i, j, w, false);
    }
    if Orderly(out, writing, reading, i, j, true) {
      TakeOneOrder(out, writing, reading, i, j, w, true);
    }
  }

  lemma TakeOneOrder(out: seq<Event>, writing: seq<Event>, reading: seq<Event>, i: nat, j: nat, w: bool, all: bool)
    requires i < |writing| && j < |reading| && AllSide(reading, true)
    requires w <==> writing[i].time <= reading[j].time
    requires Orderly(out, writing, reading, i, j, all)
    ensures var next := out + [if w then writing[i] else reading[j]];
            var i', j' := if w then i + 1 else i, if w then j else j + 1;
            Orderly(next, writing, reading, i', j', all)
  {
    var e := if w then writing[i] else reading[j];
    var next := out + [e];
    var i', j' := if w then i + 1 else i, if w then j else j + 1;
    assert w ==> e == writing[i..][0];
    assert !w ==> e == reading[j..][0];
    forall b | 0 <= b < |writing[i'..]| && (all || !writing[i'..][b].kind.KindLost?)
      ensures forall a :: 0 <= a < |next| ==> next[a].time <= writing[i'..][b].time
    {
      assert writing[i'..][b] == writing[i..][b + (i' - i)];
      assert i < i' + b ==> writing[i].time <= writing[i' + b].time;
    }
    forall b | 0 <= b < |reading[j'..]|
      ensures forall a :: 0 <= a < |next| ==> next[a].time <= reading[j'..][b].time
    {
      assert reading[j'..][b] == reading[j..][b + (j' - j)];
      assert reading[j].time <= reading[j' + b].time;
    }
  }

  lemma TakeRest(out: seq<Event>, writing: seq<Event>, reading: seq<Event>, i: nat, j: nat)
    requires AllSide(writing, false) && AllSide(reading, true) && i <= |writing| && j <= |reading| && (i == |writing| || j == |reading|)
    requires Side(out, false) == writing[..i] && Side(out, true) == reading[..j]
    ensures var all := out + writing[i..] + reading[j..];
            && Side(all, false) == writing && Side(all, true) == reading
            && (Orderly(out, writing, reading, i, j, false) ==> Ordered(all, false))
            && (Orderly(out, writing, reading, i, j, true) ==> Ordered(all, true))
  {
    hide Side;
    hide Orderly;
    SideJoin(out, writing[i..], false);
    SideJoin(out, writing[i..], true);
    SideJoin(out + writing[i..], reading[j..], false);
    SideJoin(out + writing[i..], reading[j..], true);
    SideAll(writing[i..], false);
    SideAll(reading[j..], true);
    assert writing[..i] + writing[i..] == writing && reading[..j] + reading[j..] == reading;
    hide AllSide;
    if Orderly(out, writing, reading, i, j, false) {
      TakeRestOrder(out, writing, reading, i, j, false);
    }
    if Orderly(out, writing, reading, i, j, true) {
      TakeRestOrder(out, writing, reading, i, j, true);
    }
  }

  lemma TakeRestOrder(out: seq<Event>, writing: seq<Event>, reading: seq<Event>, i: nat, j: nat, all: bool)
    requires Orderly(out, writing, reading, i, j, all) && (i == |writing| || j == |reading|)
    ensures Ordered(out + writing[i..] + reading[j..], all)
  {
    var rest := if i == |writing| then reading[j..] else writing[i..];
    assert out + writing[i..] + reading[j..] == out + rest;
    forall a, b | 0 <= a < b < |rest| && (all || !rest[b].kind.KindLost?)
      ensures rest[a].time <= rest[b].time
    {
      if i == |writing| {
        assert reading[j + a].time <= reading[j + b].time;
      } else {
        assert writing[i + a].time <= writing[i + b].time;
      }
    }
    assert Before(out, rest, all);
    var whole := out + rest;
    forall a, b | 0 <= a < b < |whole| && (all || !whole[b].kind.KindLost?)
      ensures whole[a].time <= whole[b].time
    {
      assert b >= |out| ==> whole[b] == rest[b - |out|];
      assert a >= |out| ==> whole[a] == rest[a - |out|];
    }
  }

  /** A whole schedule. For any draws, losses, outages and stalls, with or without repair, the
      writer's events tile the stream and its deliveries are in order; when the reader's stalls
      are tidy and the repair deadline follows the send, every call on the buffer comes in time
      order. */
  method Build(wm: WriterModel, w: int, draws: nat -> Draw, stalls: seq<Stall>, r: int, rate: real, dur: int)
    returns (events: seq<Event>)
    requires wm.rate > 0.0 && rate > 0.0 && w >= 1 && r >= 1
    ensures var line := Side(events, false);
            && line == Packets(wm, w, dur, draws, |line|).events && TicksBefore(|line|, w, wm.rate, dur)
            && Tiles(line, w) && InOrder(line)
    ensures var line := Side(events, true);
            && (forall j :: 0 <= j < |line| ==> line[j] == ReadEvent(stalls, r, rate, j) && line[j].time < dur)
            && ReadTime(stalls, ClockTime(|line|, r, rate)) >= dur
    ensures Tidy(stalls) && DeadlineAfterSend(wm, w) ==> Playable(events)
    ensures Tidy(stalls) ==> (TimeSorted(events) <==> TimeSorted(Side(events, false)))
  {
    hide Packets;
    hide ClockTime;
    hide ReadTime;
    var writing := BuildWrites(wm, w, dur, draws);
    PacketsTile(wm, w, dur, draws, |writing|);
    PacketsInOrder(wm, w, dur, draws, |writing|);
    if DeadlineAfterSend(wm, w) {
      PacketsPaced(wm, w, dur, draws, |writing|);
    }
    var reading := BuildReads(stalls, r, rate, dur);
    TilesSide(writing, w);
    events := MergeEvents(writing, reading);
  }

  lemma TilesSide(events: seq<Event>, w: int)
    requires Tiles(events, w)
    ensures AllSide(events, false)
  {
    forall i | 0 <= i < |events|
      ensures !events[i].kind.KindRead?
    {
      assert TileAt(events, i, w);
    }
  }

  lemma TilesPrefix(events: seq<Event>, w: int, n: nat)
    requires Tiles(events, w) && n <= |events|
    ensures Tiles(events[..n], w)
  {
    hide Flat;
    forall i | 0 <= i < n
      ensures TileAt(events[..n], i, w)
    {
      assert TileAt(events, i, w);
    }
  }

  /** A writer's line that is not sorted, and so no schedule it is merged into: the first packet
      takes 1000 frames, and an outage takes the second at its send. */
  lemma LossesBreakTimeOrder()
    ensures var wm := WriterModel(1.0, 1000, 0, 0, 0, 0, 0, 0.0, [], [Stall(240, 1, false)], 0);
            var line := Packets(wm, 240, 2000, (i: nat) => Draw(0, 0, 0.5), 2).events;
            && line == [Event(1000, KindWrite, 240, 0, false), Event(240, KindLost, 240, 240, false)]
            && DeadlineAfterSend(wm, 240) && !TimeSorted(line)
  {
    var wm := WriterModel(1.0, 1000, 0, 0, 0, 0, 0, 0.0, [], [Stall(240, 1, false)], 0);
    var draws := (i: nat) => Draw(0, 0, 0.5);
    UnitClock(0);
    UnitClock(1);
    hide ClockTime;
    assert InStall(wm.outages, 240) == Some(Stall(240, 1, false));
    assert Arrival(wm, 0, draws(0)) == (1000, false) && Arrival(wm, 240, draws(1)).1;
    assert FateOf(wm, 240, 2000, 0, 0, draws) == Delivered(1000, false);
    assert FateOf(wm, 240, 2000, 1, 1000, draws) == Gone;
    assert Packets(wm, 240, 2000, draws, 0) == Line([], 0, 0);
    assert Packets(wm, 240, 2000, draws, 1) == Line([Event(1000, KindWrite, 240, 0, false)], 1000, 240);
    var line := Packets(wm, 240, 2000, draws, 2).events;
    assert line[0].time > line[1].time;
  }

  // ---- From positions back to arrival times -----------------------------------------------------

  datatype WriteRec = WriteRec(startPos: int, time: int)

  /** The append-only index the runner keeps: one record per delivered write. */
  function Index(events: seq<Event>): seq<WriteRec> {
    if events == [] then []
    else
      var e := events[|events| - 1];
      Index(events[..|events| - 1]) + if e.kind.KindWrite? then [WriteRec(e.pos, e.time)] else []
  }

  /** Reads in between do not change the index. */
  lemma {:induction false} IndexOfSide(events: seq<Event>)
    ensures Index(events) == Index(Side(events, false))
  {
    if events != [] {
      IndexOfSide(events[..|events| - 1]);
      var init := Side(events[..|events| - 1], false);
      assert (init + [events[|events| - 1]])[..|init|] == init && init + [] == init;
    }
  }

  ghost predicate Rising(recs: seq<WriteRec>) {
    forall i, j :: 0 <= i < j < |recs| ==> recs[i].startPos < recs[j].startPos
  }

  lemma {:induction false} IndexRises(events: seq<Event>, w: int)
    requires Tiles(events, w) && w >= 1
    ensures Rising(Index(events))
    ensures forall i :: 0 <= i < |Index(events)| ==> Index(events)[i].startPos < Flat(|events|, w)
  {
    if events != [] {
      var n := |events| - 1;
      var init := events[..n];
      TilesPrefix(events, w, n);
      assert TileAt(events, n, w);
      IndexRises(init, w);
      FlatNext(n, w);
      hide Flat;
      hide Tiles;
    }
  }

  /** The time of the last record at or before pos, or zero. */
  function LastAt(recs: seq<WriteRec>, pos: int): int {
    if recs == [] then 0
    else if recs[|recs| - 1].startPos <= pos then recs[|recs| - 1].time
    else LastAt(recs[..|recs| - 1], pos)
  }

  lemma {:induction false} LastAtIs(recs: seq<WriteRec>, pos: int, i: nat)
    requires i <= |recs| && (forall j :: i <= j < |recs| ==> recs[j].startPos > pos) && (i > 0 ==> recs[i - 1].startPos <= pos)
    ensures LastAt(recs, pos) == if i == 0 then 0 else recs[i - 1].time
  {
    if i < |recs| {
      LastAtIs(recs[..|recs| - 1], pos, i);
    }
  }

  /** Binary search for the first record past pos, then one step back. */
  method WriteTimeOf(recs: seq<WriteRec>, pos: int) returns (t: int)
    requires Rising(recs)
    ensures t == LastAt(recs, pos)
  {
    var i, j := 0, |recs|;
    while i < j
      invariant 0 <= i <= j <= |recs|
      invariant forall k :: 0 <= k < i ==> recs[k].startPos <= pos
      invariant forall k :: j <= k < |recs| ==> recs[k].startPos > pos
    {
      var h := (i + j) / 2;
      if recs[h].startPos > pos {
        j := h;
      } else {
        i := h + 1;
      }
    }
    LastAtIs(recs, pos, i);
    if i == 0 {
      return 0;
    }
    t := recs[i - 1].time;
  }

  /** Once packet k has been delivered, any position inside it looks up its arrival time, no
      matter how much of the schedule has gone by since and what was lost around it. */
  lemma {:induction false} LookupIsExact(line: seq<Event>, w: int, k: nat, pos: int)
    requires Tiles(line, w) && w >= 1 && k < |line| && line[k].kind.KindWrite?
    requires line[k].pos <= pos < line[k].pos + line[k].frames
    ensures LastAt(Index(line), pos) == line[k].time
  {
    hide Flat;
    var n := |line| - 1;
    var init, recs := line[..n], Index(line[..n]);
    assert TileAt(line, k, w) && TileAt(line, n, w);
    if n > k {
      TilesPrefix(line, w, n);
      LookupIsExact(init, w, k, pos);
      FlatNext(k, w);
      FlatOrder(k + 1, n, w);
      assert (recs + [WriteRec(line[n].pos, line[n].time)])[..|recs|] == recs && recs + [] == recs;
    }
  }

  /** The same over a run: at any point of the merged schedule, every position of a packet
      delivered so far looks up the time it arrived. */
  lemma LookupInRun(events: seq<Event>, w: int, m: nat, k: nat, pos: int)
    requires Tiles(Side(events, false), w) && w >= 1 && m <= |events| && k < |Side(events[..m], false)|
    requires var e := Side(events[..m], false)[k]; e.kind.KindWrite? && e.pos <= pos < e.pos + e.frames
    ensures Rising(Index(events[..m]))
    ensures LastAt(Index(events[..m]), pos) == Side(events[..m], false)[k].time
  {
    var line, seen := Side(events, false), Side(events[..m], false);
    SideJoin(events[..m], events[m..], false);
    assert events[..m] + events[m..] == events && line[..|seen|] == seen;
    TilesPrefix(line, w, |seen|);
    IndexOfSide(events[..m]);
    IndexRises(seen, w);
    LookupIsExact(seen, w, k, pos);
  }

  // ---- Generated stalls --------------------------------------------------------------------------

  function Uniform(lo: int, hi: int, draw: nat): (r: int)
    ensures lo <= r && (lo <= hi ==> r <= hi)
  {
    if hi <= lo then lo else lo + draw % (hi - lo + 1)
  }

  lemma TruncAtLeast(x: real, m: int)
    requires x >= m as real
    ensures Trunc(x) >= m
  {
  }

  /** How far along t is, times span. */
  function Share(t: int, dur: int, span: int): real
    requires dur > 0
  {
    t as real / dur as real * span as real
  }

  /** A bound that moves linearly from a at time 0 to b at time dur, and on at the same slope. */
  function Between(a: int, b: int, t: int, dur: int): (r: int)
    requires 0 <= t && dur > 0
    ensures t == 0 ==> r == a
    ensures t <= dur ==> Min(a, b) <= r
    ensures t >= dur && a - b <= dur ==> t + r >= dur + b
  {
    BetweenBounds(b - a, t, dur);
    a + Trunc(Share(t, dur, b - a))
  }

  lemma BetweenBounds(span: int, t: int, dur: int)
    requires 0 <= t && dur > 0
    ensures t == 0 ==> Trunc(Share(t, dur, span)) == 0
    ensures t <= dur ==> Min(0, span) <= Trunc(Share(t, dur, span))
    ensures t >= dur && -dur <= span ==> span - (t - dur) <= Trunc(Share(t, dur, span))
  {
    NoShare(dur, span);
    hide Share;
    hide Trunc;
    if t <= dur {
      ShareWithin(t, dur, span);
      TruncAtLeast(Share(t, dur, span), Min(0, span));
    }
    if t >= dur && -dur <= span {
      ShareBeyond(t, dur, span);
      TruncAtLeast(Share(t, dur, span), span - (t - dur));
    }
  }

  lemma NoShare(dur: int, span: int)
    requires dur > 0
    ensures Trunc(Share(0, dur, span)) == 0
  {
    assert (0 as real) / dur as real == 0.0;
    assert 0.0 * span as real == 0.0;
  }

  lemma ShareWithin(t: int, dur: int, span: int)
    requires 0 <= t <= dur && dur > 0
    ensures Share(t, dur, span) >= Min(0, span) as real
  {
    var d, f := dur as real, t as real / dur as real;
    DivideKeepsOrder(0.0, t as real, d);
    DivideKeepsOrder(t as real, d, d);
    ShareOf(f, span as real);
  }

  lemma ShareBeyond(t: int, dur: int, span: int)
    requires t >= dur > 0 && span >= -dur
    ensures Share(t, dur, span) >= (span - (t - dur)) as real
  {
    var d, f := dur as real, t as real / dur as real;
    DivideKeepsOrder(d, t as real, d);
    assert f * d == t as real;
    TimesKeeps(-(span as real), d, f - 1.0);
    Expand(f, d, span as real);
  }

  lemma Expand(f: real, d: real, span: real)
    ensures d * (f - 1.0) == f * d - d && -span * (f - 1.0) == span - f * span
  {
  }

  /** Every value of a range can be drawn. */
  lemma EveryValueDrawn(lo: int, hi: int, v: int)
    requires lo <= v <= hi
    ensures Uniform(lo, hi, v - lo) == v
  {
  }

  /** The moving bound is a at the start and b at the end of the run. */
  lemma BoundMoves(a: int, b: int, dur: int)
    requires dur > 0
    ensures Between(a, b, 0, dur) == a && Between(a, b, dur, dur) == b
  {
    var d := dur as real;
    assert d / d == 1.0;
    assert Share(dur, dur, b - a) == (b - a) as real;
    WholeIs(b - a);
  }

  lemma WholeIs(n: int)
    ensures Trunc(n as real) == n
  {
  }

  /** Generated stalls are sorted, do not overlap and start inside the run, as long as each round
      moves on. Behind the end of the run the gap range is extrapolated and may be negative, but
      it cannot step back into the run: a least gap that shrinks by more than the run's length
      starts out longer than the run. */
  method GenStalls(dur: int, durMin: int, durMax: int, gapMin0: int, gapMax0: int, gapMin1: int, gapMax1: int,
                   drop: bool, draws: nat -> nat) returns (out: seq<Stall>)
    requires dur > 0 && durMin >= 0 && gapMin0 >= 0 && gapMin1 >= 0
    requires durMin >= 1 || (gapMin0 >= 1 && gapMin1 >= 1)
    ensures Tidy(out)
    ensures forall i :: 0 <= i < |out| ==>
              0 <= out[i].start < dur && durMin <= out[i].dur && (durMin <= durMax ==> out[i].dur <= durMax) && out[i].drop == drop
  {
    hide Between;
    hide Uniform;
    out := [];
    var t, n := 0, 0;
    while true
      invariant 0 <= t && Tidy(out) && forall i :: 0 <= i < |out| ==> End(out[i]) <= t
      invariant forall i :: 0 <= i < |out| ==>
                  0 <= out[i].start < dur && durMin <= out[i].dur && (durMin <= durMax ==> out[i].dur <= durMax) && out[i].drop == drop
      invariant gapMin0 - gapMin1 > dur ==> t == 0
      decreases if t >= dur then 0 else dur - t
    {
      var gLo, gHi := Between(gapMin0, gapMin1, t, dur), Between(gapMax0, gapMax1, t, dur);
      t := t + Uniform(gLo, gHi, draws(n));
      if t >= dur {
        return;
      }
      var d := Uniform(durMin, durMax, draws(n + 1));
      out := out + [Stall(t, d, drop)];
      t := t + d;
      n := n + 2;
    }
  }
}
