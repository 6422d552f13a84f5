/** The overlap-save convolver: one forward transform per channel over (history, frame), a
    spectral multiply-accumulate against the filter spectra, one inverse transform per ear,
    and only the last block kept. The transform library enters by its mathematical law. */
module OverlapSave {
  import opened Layout

  const BLOCK := 240
  const FFT := 512
  const HIST := FFT - BLOCK
  const MAX_TAPS := HIST + 1

  // ---- What the convolver is for -----------------------------------------------------

  /** The first k terms of the linear convolution of s with the taps h, at time t. */
  function Fir(h: seq<real>, s: seq<real>, t: int, k: nat): real
    requires k <= |h|
  {
    if k == 0 then 0.0 else Fir(h, s, t, k - 1) + h[k - 1] * At(s, t - (k - 1))
  }

  /** The first k terms of the circular convolution of two transform-length blocks. */
  function Circular(x: seq<real>, h: seq<real>, i: int, k: nat): real
    requires |x| == FFT && |h| == FFT && k <= FFT
  {
    if k == 0 then 0.0 else Circular(x, h, i, k - 1) + h[k - 1] * x[(i - (k - 1)) % FFT]
  }

  // ---- The transform library -----------------------------------------------------------

  datatype Transform = Transform(
    forward: seq<real> -> seq<real>,
    backward: seq<real> -> seq<real>,
    mac: (seq<real>, seq<real>, seq<real>, real) -> seq<real>)

  ghost predicate Convolves(f: Transform, acc: seq<real>, x: seq<real>, h: seq<real>, scale: real)
    requires |acc| == FFT && |x| == FFT && |h| == FFT
  {
    var after := f.backward(f.mac(acc, f.forward(x), f.forward(h), scale));
    && |f.forward(x)| == FFT && |f.mac(acc, f.forward(x), f.forward(h), scale)| == FFT
    && |after| == FFT && |f.backward(acc)| == FFT
    && forall i :: 0 <= i < FFT ==>
         after[i] == f.backward(acc)[i] + scale * (FFT as real) * Circular(x, h, i, FFT)
  }

  /** Unscaled transforms: multiplying spectra convolves circularly, times the length, and the
      multiply-accumulate adds that to what the accumulator already stands for. */
  ghost predicate Lawful(f: Transform) {
    && f.backward(Zeros(FFT)) == Zeros(FFT)
    && (forall acc, x, h, scale :: |acc| == FFT && |x| == FFT && |h| == FFT ==> Convolves(f, acc, x, h, scale))
  }

  /** The law is consistent: working in the time domain throughout satisfies it. */
  lemma LawfulTransformExists()
    ensures exists f :: Lawful(f)
  {
    var f := Transform(
      x => x,
      z => seq(|z|, i requires 0 <= i < |z| => z[i] * (FFT as real)),
      (acc, a, b, scale) => TimeDomainMac(acc, a, b, scale));
    forall acc: seq<real>, x: seq<real>, h: seq<real>, scale: real | |acc| == FFT && |x| == FFT && |h| == FFT
      ensures Convolves(f, acc, x, h, scale)
    {
      forall i | 0 <= i < FFT
        ensures f.backward(f.mac(acc, f.forward(x), f.forward(h), scale))[i]
                == f.backward(acc)[i] + scale * (FFT as real) * Circular(x, h, i, FFT)
      {
        ScaledSum(acc[i], scale, Circular(x, h, i, FFT));
      }
    }
    assert f.backward(Zeros(FFT)) == Zeros(FFT);
    assert Lawful(f);
  }

  function TimeDomainMac(acc: seq<real>, a: seq<real>, b: seq<real>, scale: real): seq<real> {
    if |acc| == FFT && |a| == FFT && |b| == FFT
    then seq(FFT, i requires 0 <= i < FFT => acc[i] + scale * Circular(a, b, i, FFT)) else acc
  }

  lemma ScaledSum(v: real, scale: real, c: real)
    ensures (v + scale * c) * (FFT as real) == v * (FFT as real) + scale * (FFT as real) * c
  {
  }

  // ---- Circular equals linear where the block is not aliased -----------------------------

  function Padded(h: seq<real>): (r: seq<real>)
    requires |h| <= FFT
    ensures |r| == FFT
  {
    h + Zeros(FFT - |h|)
  }

  /** x is the transform-length stretch of the stream s that starts at time start. */
  predicate Stretch(x: seq<real>, s: seq<real>, start: int) {
    |x| == FFT && forall i :: 0 <= i < FFT ==> x[i] == At(s, start + i)
  }

  lemma {:induction false} CircularIsFir(x: seq<real>, h: seq<real>, s: seq<real>, start: int, i: int, k: nat)
    requires Stretch(x, s, start) && |h| <= MAX_TAPS && HIST <= i < FFT && k <= |h|
    ensures Circular(x, Padded(h), i, k) == Fir(h, s, start + i, k)
  {
    if k > 0 {
      CircularIsFir(x, h, s, start, i, k - 1);
      assert (i - (k - 1)) % FFT == i - (k - 1);
    }
  }

  lemma {:induction false} PaddingAddsNothing(x: seq<real>, h: seq<real>, i: int, k: nat)
    requires |x| == FFT && |h| <= k <= FFT
    ensures Circular(x, Padded(h), i, k) == Circular(x, Padded(h), i, |h|)
  {
    if k > |h| {
      PaddingAddsNothing(x, h, i, k - 1);
      assert Padded(h)[k - 1] == 0.0;
    }
  }

  /** The last block of the circular convolution is the linear one, for filters of up to
      HIST + 1 taps. */
  lemma LastBlockIsLinear(x: seq<real>, h: seq<real>, s: seq<real>, start: int, i: int)
    requires Stretch(x, s, start) && |h| <= MAX_TAPS && HIST <= i < FFT
    ensures Circular(x, Padded(h), i, FFT) == Fir(h, s, start + i, |h|)
  {
    PaddingAddsNothing(x, h, i, FFT);
    CircularIsFir(x, h, s, start, i, |h|);
  }

  /** The bound on the taps is exact: one tap more and the first kept sample aliases. */
  lemma LongerFilterAliases()
    ensures var h := Zeros(MAX_TAPS) + [1.0];
            var s := seq(FFT, i => if i == FFT - 1 then 1.0 else 0.0);
            Stretch(s, s, 0) && Circular(s, Padded(h), HIST, FFT) != Fir(h, s, HIST, |h|)
  {
    var h := Zeros(MAX_TAPS) + [1.0];
    var s := seq(FFT, i => if i == FFT - 1 then 1.0 else 0.0);
    PaddingAddsNothing(s, h, HIST, FFT);
    QuietCircular(s, h, HIST, MAX_TAPS);
    QuietFir(h, s, HIST, MAX_TAPS);
    assert (HIST - MAX_TAPS) % FFT == FFT - 1;
    assert Padded(h)[MAX_TAPS] == 1.0;
  }

  lemma {:induction false} QuietCircular(x: seq<real>, h: seq<real>, i: int, k: nat)
    requires |x| == FFT && |h| <= FFT && k <= |h| && forall j :: 0 <= j < k ==> h[j] == 0.0
    ensures Circular(x, Padded(h), i, k) == 0.0
  {
    if k > 0 {
      QuietCircular(x, h, i, k - 1);
    }
  }

  lemma {:induction false} QuietFir(h: seq<real>, s: seq<real>, t: int, k: nat)
    requires k <= |h| && forall j :: 0 <= j < k ==> h[j] == 0.0
    ensures Fir(h, s, t, k) == 0.0
  {
    if k > 0 {
      QuietFir(h, s, t, k - 1);
    }
  }

  // ---- The filter set ---------------------------------------------------------------------

  datatype FilterSet = FilterSet(nCh: int, filterLen: int, taps: seq<real>, fft: Transform, spec: seq<seq<real>>)

  /** The taps have the layout [2][nCh][filterLen]. */
  ghost predicate Shaped(taps: seq<real>, nCh: int, filterLen: int) {
    |taps| == Flat(2 * nCh, filterLen)
  }

  /** Row ec of a flat table of rows. */
  function TapRow(taps: seq<real>, nCh: int, filterLen: int, ec: int): (r: seq<real>)
    requires 0 <= ec < 2 * nCh && 0 < filterLen && Shaped(taps, nCh, filterLen)
    ensures |r| == filterLen
  {
    RowInside(nCh, filterLen, ec);
    taps[Flat(ec, filterLen)..Flat(ec + 1, filterLen)]
  }

  lemma RowInside(nCh: int, filterLen: int, ec: int)
    requires 0 <= ec < 2 * nCh && 0 < filterLen
    ensures 0 <= Flat(ec, filterLen) && Flat(ec, filterLen) + filterLen == Flat(ec + 1, filterLen) <= Flat(2 * nCh, filterLen)
  {
    hide Flat;
    FlatNat(ec, filterLen);
    FlatNext(ec, filterLen);
    FlatOrder(ec + 1, 2 * nCh, filterLen);
  }

  ghost predicate SetOk(bank: FilterSet) {
    && Lawful(bank.fft) && bank.nCh >= 1 && 0 < bank.filterLen <= MAX_TAPS
    && Shaped(bank.taps, bank.nCh, bank.filterLen)
    && |bank.spec| == 2 * bank.nCh
    && forall ec :: 0 <= ec < 2 * bank.nCh ==>
         bank.spec[ec] == bank.fft.forward(Padded(TapRow(bank.taps, bank.nCh, bank.filterLen, ec)))
  }

  ghost function EarRow(bank: FilterSet, ec: int): (r: seq<real>)
    requires SetOk(bank) && 0 <= ec < 2 * bank.nCh
    ensures |r| == bank.filterLen && |r| <= MAX_TAPS
  {
    TapRow(bank.taps, bank.nCh, bank.filterLen, ec)
  }

  method CreateSet(fft: Transform, taps: seq<real>, nCh: int, filterLen: int) returns (r: Option<FilterSet>)
    requires Lawful(fft)
    requires nCh >= 1 && filterLen >= 1 ==> Shaped(taps, nCh, filterLen)
    ensures r.None? <==> nCh < 1 || filterLen < 1 || filterLen > MAX_TAPS
    ensures r.Some? ==> SetOk(r.value) && r.value.nCh == nCh && r.value.filterLen == filterLen && r.value.taps == taps
  {
    hide Lawful;
    if nCh < 1 || filterLen < 1 || filterLen > MAX_TAPS {
      return None;
    }
    var spec := [];
    var ec := 0;
    while ec < 2 * nCh
      invariant 0 <= ec <= 2 * nCh && |spec| == ec
      invariant forall e :: 0 <= e < ec ==> spec[e] == fft.forward(Padded(TapRow(taps, nCh, filterLen, e)))
    {
      RowInside(nCh, filterLen, ec);
      var pad := taps[Flat(ec, filterLen)..Flat(ec + 1, filterLen)] + Zeros(FFT - filterLen);
      spec := spec + [fft.forward(pad)];
      ec := ec + 1;
    }
    r := Some(FilterSet(nCh, filterLen, taps, fft, spec));
  }

  // ---- What an ear hears ------------------------------------------------------------------

  /** The first ch channels' contribution to one ear at time t, by linear convolution. */
  ghost function Ear(bank: FilterSet, ear: int, fed: seq<seq<real>>, t: int, ch: nat): real
    requires SetOk(bank) && 0 <= ear <= 1 && ch <= bank.nCh && |fed| == 2 * bank.nCh
  {
    if ch == 0 then 0.0
    else
      EarBase(ear, bank.nCh);
      var ec := Flat(ear, bank.nCh) + ch - 1;
      Ear(bank, ear, fed, t, ch - 1)
      + Fir(EarRow(bank, ec), fed[ec], t, bank.filterLen)
  }

  /** Each ear hears its own half of the bus through its own half of the taps. */
  lemma EarsApart(bank: FilterSet, fed: seq<seq<real>>, t: int)
    requires SetOk(bank) && bank.nCh == 1 && |fed| == 2
    ensures |bank.taps| == 2 * bank.filterLen
    ensures Ear(bank, 0, fed, t, 1) == Fir(bank.taps[..bank.filterLen], fed[0], t, bank.filterLen)
    ensures Ear(bank, 1, fed, t, 1) == Fir(bank.taps[bank.filterLen..], fed[1], t, bank.filterLen)
  {
    hide Lawful;
    EarBase(0, 1);
    EarBase(1, 1);
    assert EarRow(bank, 0) == bank.taps[..bank.filterLen];
    assert EarRow(bank, 1) == bank.taps[bank.filterLen..];
    assert Ear(bank, 0, fed, t, 0) == 0.0 && Ear(bank, 1, fed, t, 0) == 0.0;
  }

  /** The response to an impulse is the taps. */
  lemma {:induction false} ImpulseGivesTaps(h: seq<real>, t: int, k: nat)
    requires k <= |h| && 0 <= t
    ensures Fir(h, [1.0], t, k) == if t < k then h[t] else 0.0
  {
    if k > 0 {
      ImpulseGivesTaps(h, t, k - 1);
    }
  }

  lemma EarBase(ear: int, nCh: int)
    requires 0 <= ear <= 1 && nCh >= 0
    ensures Flat(ear, nCh) == if ear == 0 then 0 else nCh
  {
  }

  lemma {:induction false} FirCausal(h: seq<real>, s: seq<real>, more: seq<real>, t: int, k: nat)
    requires k <= |h| && s <= more && t < |s|
    ensures Fir(h, s, t, k) == Fir(h, more, t, k)
  {
    if k > 0 {
      FirCausal(h, s, more, t, k - 1);
    }
  }

  /** What an ear hears at a time already fed does not depend on what comes later. */
  lemma {:induction false} EarCausal(bank: FilterSet, ear: int, fed: seq<seq<real>>, more: seq<seq<real>>, t: int, ch: nat)
    requires SetOk(bank) && 0 <= ear <= 1 && ch <= bank.nCh && |fed| == 2 * bank.nCh && |more| == |fed|
    requires Flat(ear, bank.nCh) == if ear == 0 then 0 else bank.nCh
    requires forall c {:trigger fed[c]} :: Flat(ear, bank.nCh) <= c < Flat(ear, bank.nCh) + ch ==> fed[c] <= more[c] && t < |fed[c]|
    ensures Ear(bank, ear, fed, t, ch) == Ear(bank, ear, more, t, ch)
  {
    hide SetOk;
    hide Fir;
    hide TapRow;
    hide Flat;
    if ch > 0 {
      EarCausal(bank, ear, fed, more, t, ch - 1);
      var ec := Flat(ear, bank.nCh) + ch - 1;
      FirCausal(EarRow(bank, ec), fed[ec], more[ec], t, bank.filterLen);
    }
  }

  // ---- The per-listener handle -------------------------------------------------------------

  /** Channel ec's share of the history. */
  function HistRow(hist: seq<real>, ec: int): (r: seq<real>)
    requires 0 <= ec && HIST * (ec + 1) <= |hist|
    ensures |r| == HIST
  {
    hist[HIST * ec..HIST * (ec + 1)]
  }

  /** row is the last HIST samples of the stream s. */
  ghost predicate Last(row: seq<real>, s: seq<real>) {
    |row| == HIST && forall j :: 0 <= j < HIST ==> row[j] == At(s, |s| - HIST + j)
  }

  ghost predicate Remembers(hist: seq<real>, fed: seq<seq<real>>) {
    |hist| == HIST * |fed| && forall ec :: 0 <= ec < |fed| ==> Last(HistRow(hist, ec), fed[ec])
  }

  /** Keeping the last HIST samples of (history, frame) gives the history of the longer stream,
      and (history, frame) is the stretch of that stream ending with the frame. */
  lemma HistoryShifts(row: seq<real>, s: seq<real>, frame: seq<real>)
    requires Last(row, s) && |frame| == BLOCK
    ensures Last(row[BLOCK..] + frame, s + frame)
    ensures Stretch(row + frame, s + frame, |s| - HIST)
  {
  }

  lemma RowReplaced(hist: seq<real>, ec: int, row: seq<real>, other: int)
    requires 0 <= ec && HIST * (ec + 1) <= |hist| && |row| == HIST && 0 <= other && HIST * (other + 1) <= |hist|
    ensures HistRow(Over(hist, HIST * ec, row), other) == if other == ec then row else HistRow(hist, other)
  {
    if other != ec {
      OverElsewhere(hist, HIST * ec, row, HIST * other, HIST * (other + 1));
    } else {
      assert Over(hist, HIST * ec, row)[HIST * ec..HIST * (ec + 1)] == row;
    }
  }

  lemma OverTwice(s: seq<real>, at: nat, x: seq<real>, y: seq<real>)
    requires at + |x| + |y| <= |s|
    ensures Over(Over(s, at, x), at + |x|, y) == Over(s, at, x + y)
  {
  }

  /** Extending one channel of a remembered set of streams. */
  lemma RemembersGrows(hist: seq<real>, fed: seq<seq<real>>, ec: int, frame: seq<real>)
    requires Remembers(hist, fed) && 0 <= ec < |fed| && |frame| == BLOCK
    ensures Remembers(Over(hist, HIST * ec, HistRow(hist, ec)[BLOCK..] + frame), fed[ec := fed[ec] + frame])
  {
    var row := HistRow(hist, ec)[BLOCK..] + frame;
    var d := Over(hist, HIST * ec, row);
    forall other | 0 <= other < |fed|
      ensures Last(HistRow(d, other), fed[ec := fed[ec] + frame][other])
    {
      assert Last(HistRow(hist, other), fed[other]);
      RowReplaced(hist, ec, row, other);
      HistoryShifts(HistRow(hist, other), fed[other], frame);
    }
  }

  /** The streams after one ear's first ch channels have taken their frames. */
  function FedTo(fed: seq<seq<real>>, input: seq<seq<real>>, base: int, ch: int): (r: seq<seq<real>>)
    requires |input| == |fed| && 0 <= base && 0 <= ch && base + ch <= |fed|
    ensures |r| == |fed|
  {
    seq(|fed|, ec requires 0 <= ec < |fed| => if base <= ec < base + ch then fed[ec] + input[ec] else fed[ec])
  }

  predicate Framed(input: seq<seq<real>>, n: int) {
    |input| == n && forall ec :: 0 <= ec < n ==> |input[ec]| == BLOCK
  }

  /** Accumulator contents that stand for an ear's first ch channels, on the block that counts. */
  ghost predicate StandsFor(bank: FilterSet, acc: seq<real>, ear: int, fed: seq<seq<real>>, start: int, ch: nat)
    requires SetOk(bank) && 0 <= ear <= 1 && ch <= bank.nCh && |fed| == 2 * bank.nCh
  {
    && |acc| == FFT && |bank.fft.backward(acc)| == FFT
    && forall i :: HIST <= i < FFT ==> bank.fft.backward(acc)[i] == Ear(bank, ear, fed, start + i, ch)
  }

  /** One more channel: the multiply-accumulate adds exactly its linear convolution. */
  lemma OneMoreChannel(bank: FilterSet, acc: seq<real>, ear: int, fed: seq<seq<real>>, more: seq<seq<real>>,
                       start: int, ch: nat, x: seq<real>)
    requires SetOk(bank) && 0 <= ear <= 1 && ch < bank.nCh && |fed| == 2 * bank.nCh && |more| == |fed|
    requires StandsFor(bank, acc, ear, fed, start, ch)
    requires Flat(ear, bank.nCh) == if ear == 0 then 0 else bank.nCh
    requires forall c {:trigger fed[c]} ::
               Flat(ear, bank.nCh) <= c < Flat(ear, bank.nCh) + ch ==> fed[c] == more[c] && |fed[c]| == start + FFT
    requires Stretch(x, more[Flat(ear, bank.nCh) + ch], start)
    ensures var ec := Flat(ear, bank.nCh) + ch;
            StandsFor(bank, bank.fft.mac(acc, bank.fft.forward(x), bank.spec[ec], 1.0 / FFT as real), ear, more, start, ch + 1)
  {
    var ec := Flat(ear, bank.nCh) + ch;
    var row := EarRow(bank, ec);
    assert bank.spec[ec] == bank.fft.forward(Padded(row));
    assert Convolves(bank.fft, acc, x, Padded(row), 1.0 / FFT as real);
    var next := bank.fft.mac(acc, bank.fft.forward(x), bank.spec[ec], 1.0 / FFT as real);
    hide Lawful;
    hide Flat;
    hide Circular;
    hide Fir;
    forall i | HIST <= i < FFT
      ensures bank.fft.backward(next)[i] == Ear(bank, ear, more, start + i, ch + 1)
    {
      LastBlockIsLinear(x, row, more[ec], start, i);
      EarCausal(bank, ear, fed, more, start + i, ch);
    }
  }

  lemma NothingYet(bank: FilterSet, ear: int, fed: seq<seq<real>>, start: int)
    requires SetOk(bank) && 0 <= ear <= 1 && |fed| == 2 * bank.nCh
    ensures StandsFor(bank, Zeros(FFT), ear, fed, start, 0)
  {
  }

  /** Every sample an ear has been given is the linear convolution of everything fed. */
  ghost predicate HeardRight(bank: FilterSet, ear: int, fed: seq<seq<real>>, heard: seq<real>)
    requires SetOk(bank) && 0 <= ear <= 1 && |fed| == 2 * bank.nCh
  {
    forall t :: 0 <= t < |heard| ==> heard[t] == Ear(bank, ear, fed, t, bank.nCh)
  }

  lemma HeardGrows(bank: FilterSet, ear: int, fed: seq<seq<real>>, more: seq<seq<real>>, heard: seq<real>, block: seq<real>)
    requires SetOk(bank) && 0 <= ear <= 1 && |fed| == 2 * bank.nCh && |more| == |fed|
    requires HeardRight(bank, ear, fed, heard)
    requires forall c {:trigger fed[c]} :: 0 <= c < |fed| ==> fed[c] <= more[c] && |fed[c]| == |heard|
    requires forall j :: 0 <= j < |block| ==> block[j] == Ear(bank, ear, more, |heard| + j, bank.nCh)
    ensures HeardRight(bank, ear, more, heard + block)
  {
    hide SetOk;
    hide Ear;
    forall t | 0 <= t < |heard + block|
      ensures (heard + block)[t] == Ear(bank, ear, more, t, bank.nCh)
    {
      if t < |heard| {
        EarBase(ear, bank.nCh);
        EarCausal(bank, ear, fed, more, t, bank.nCh);
      } else {
        assert block[t - |heard|] == Ear(bank, ear, more, |heard| + (t - |heard|), bank.nCh);
      }
    }
  }

  class Handle {
    const bank: FilterSet
    const hist: array<real>
    const time: array<real>
    const freq: array<real>
    const acc: array<real>

    /** Everything fed to each bus channel, and everything given to each ear, since creation or
        the last reset. */
    ghost var fed: seq<seq<real>>
    ghost var heard: seq<seq<real>>

    ghost predicate Laid()
      reads this, hist
    {
      && SetOk(bank) && |fed| == 2 * bank.nCh && Remembers(hist[..], fed)
      && time.Length == FFT && freq.Length == FFT && acc.Length == FFT
      && hist != time && hist != freq && hist != acc && time != freq && time != acc && freq != acc
    }

    ghost predicate Valid()
      reads this, hist
    {
      Laid() && Account(bank, fed, heard)
    }

    constructor (bank: FilterSet)
      requires SetOk(bank)
      ensures Valid() && this.bank == bank && fresh(hist) && fresh(time) && fresh(freq) && fresh(acc)
      ensures fed == seq(2 * bank.nCh, _ => []) && heard == [[], []]
    {
      this.bank := bank;
      hist := new real[HIST * (2 * bank.nCh)](_ => 0.0);
      time := new real[FFT](_ => 0.0);
      freq := new real[FFT](_ => 0.0);
      acc := new real[FFT](_ => 0.0);
      fed := seq(2 * bank.nCh, _ => []);
      heard := [[], []];
      new;
      SilentHistory(hist[..], fed);
    }

    /** Forget everything: the listener's streams start again. */
    method Reset()
      requires Valid()
      modifies this`fed, this`heard, hist
      ensures Valid() && fed == seq(2 * bank.nCh, _ => []) && heard == [[], []]
    {
      hide SetOk;
      forall i | 0 <= i < hist.Length {
        hist[i] := 0.0;
      }
      fed := seq(2 * bank.nCh, _ => []);
      heard := [[], []];
      SilentHistory(hist[..], fed);
    }

    /** Keep the last HIST samples of channel ec's (history, frame). */
    method PushHistory(ec: int, frame: seq<real>)
      requires 0 <= ec && HIST * (ec + 1) <= hist.Length && |frame| == BLOCK
      modifies hist
      ensures hist[..] == Over(old(hist[..]), HIST * ec, HistRow(old(hist[..]), ec)[BLOCK..] + frame)
    {
      ghost var d := hist[..];
      var base := HIST * ec;
      var kept := hist[base + BLOCK..base + HIST];
      assert kept == HistRow(d, ec)[BLOCK..];
      OverTwice(d, base, kept, frame);
      hide Over;
      CopyInto(hist, base, kept);
      CopyInto(hist, base + (HIST - BLOCK), frame);
    }

    /** Take one channel's frame: transform (history, frame) and accumulate its product. */
    method TakeChannel(ear: int, ch: nat, frame: seq<real>, ghost start: int)
      requires Laid() && 0 <= ear <= 1 && ch < bank.nCh && |frame| == BLOCK
      requires Flat(ear, bank.nCh) == if ear == 0 then 0 else bank.nCh
      requires StandsFor(bank, acc[..], ear, fed, start, ch)
      requires Lengths(fed, Flat(ear, bank.nCh), ch, start + FFT)
      requires |fed[Flat(ear, bank.nCh) + ch]| == start + HIST
      modifies this`fed, hist, time, freq, acc
      ensures Laid() && StandsFor(bank, acc[..], ear, fed, start, ch + 1)
      ensures var ec := Flat(ear, bank.nCh) + ch; fed == old(fed)[ec := old(fed)[ec] + frame]
    {
      hide SetOk;
      hide Flat;
      hide Over;
      var ec := Flat(ear, bank.nCh) + ch;
      ghost var was, d := fed, hist[..];
      var row := hist[HIST * ec..HIST * (ec + 1)];
      assert Last(HistRow(d, ec), fed[ec]) && row == HistRow(d, ec);
      HistoryShifts(row, fed[ec], frame);
      RemembersGrows(d, fed, ec, frame);
      fed := fed[ec := fed[ec] + frame];
      OneMoreChannel(bank, acc[..], ear, was, fed, start, ch, row + frame);
      hide Remembers;
      hide StandsFor;
      hide Last;
      hide Stretch;
      SpectraSized(bank, acc[..], row + frame, ec);
      FillTwo(time, row, frame);
      PushHistory(ec, frame);
      Fill(freq, bank.fft.forward(time[..]));
      Fill(acc, bank.fft.mac(acc[..], freq[..], bank.spec[ec], 1.0 / FFT as real));
    }

    /** The first ch channels of an ear's bus have been taken. */
    ghost predicate Taken(ear: int, input: seq<seq<real>>, was: seq<seq<real>>, T: nat, ch: nat)
      reads this, hist, acc
    {
      && Laid() && 0 <= ear <= 1 && ch <= bank.nCh && Framed(input, |fed|) && |was| == |fed|
      && Flat(ear, bank.nCh) == (if ear == 0 then 0 else bank.nCh)
      && Lengths(was, Flat(ear, bank.nCh), bank.nCh, T)
      && fed == FedTo(was, input, Flat(ear, bank.nCh), ch)
      && StandsFor(bank, acc[..], ear, fed, T - HIST, ch)
    }

    /** Take the next channel of an ear's bus. */
    method TakeNext(ear: int, input: seq<seq<real>>, ghost was: seq<seq<real>>, ghost T: nat, ch: nat)
      requires Taken(ear, input, was, T, ch) && ch < bank.nCh
      modifies this`fed, hist, time, freq, acc
      ensures Taken(ear, input, was, T, ch + 1)
    {
      hide SetOk;
      hide Flat;
      hide Remembers;
      hide StandsFor;
      FedStep(was, input, Flat(ear, bank.nCh), ch, bank.nCh, T);
      hide FedTo;
      hide Lengths;
      TakeChannel(ear, ch, input[Flat(ear, bank.nCh) + ch], T - HIST);
    }

    /** Start an ear: an empty accumulator stands for no channels. */
    method ClearBus(ear: int, input: seq<seq<real>>, ghost T: nat)
      requires Laid() && 0 <= ear <= 1 && Framed(input, 2 * bank.nCh)
      requires Flat(ear, bank.nCh) == if ear == 0 then 0 else bank.nCh
      requires Lengths(fed, Flat(ear, bank.nCh), bank.nCh, T)
      modifies acc
      ensures Taken(ear, input, fed, T, 0)
    {
      hide SetOk;
      hide Flat;
      hide Remembers;
      hide Lengths;
      NothingYet(bank, ear, fed, T - HIST);
      FedNone(fed, input, Flat(ear, bank.nCh));
      hide FedTo;
      hide StandsFor;
      hide Zeros;
      Fill(acc, Zeros(FFT));
    }

    /** Run one ear's channels through the accumulator. */
    method TakeBus(ear: int, input: seq<seq<real>>, ghost T: nat)
      requires Laid() && 0 <= ear <= 1 && Framed(input, 2 * bank.nCh)
      requires Flat(ear, bank.nCh) == if ear == 0 then 0 else bank.nCh
      requires Lengths(fed, Flat(ear, bank.nCh), bank.nCh, T)
      modifies this`fed, hist, time, freq, acc
      ensures Taken(ear, input, old(fed), T, bank.nCh)
    {
      hide SetOk;
      hide Flat;
      hide Framed;
      hide Lengths;
      hide Taken;
      hide Remembers;
      assert |fed| == 2 * bank.nCh;
      hide Laid;
      ClearBus(ear, input, T);
      var ch := 0;
      while ch < bank.nCh
        invariant 0 <= ch <= bank.nCh && Taken(ear, input, old(fed), T, ch)
      {
        TakeNext(ear, input, old(fed), T, ch);
        ch := ch + 1;
      }
    }

    /** One ear's half of a call: its block is the linear convolution of its bus, and its bus
        channels have taken their frames. */
    method ProcessEar(ear: int, input: seq<seq<real>>, out: array<real>, ghost T: nat)
      requires Laid() && 0 <= ear <= 1 && Framed(input, 2 * bank.nCh) && out.Length >= BLOCK
      requires out != hist && out != time && out != freq && out != acc
      requires Flat(ear, bank.nCh) == if ear == 0 then 0 else bank.nCh
      requires Lengths(fed, Flat(ear, bank.nCh), bank.nCh, T)
      modifies this`fed, hist, time, freq, acc, out
      ensures Laid() && fed == FedTo(old(fed), input, Flat(ear, bank.nCh), bank.nCh)
      ensures EarBlock(bank, ear, fed, T, out[..BLOCK])
      ensures out[BLOCK..] == old(out[BLOCK..])
    {
      hide SetOk;
      hide Flat;
      hide Remembers;
      hide StandsFor;
      hide FedTo;
      hide EarBlock;
      hide Lengths;
      TakeBus(ear, input, T);
      EarSamples(bank, acc[..], ear, fed, T);
      Fill(time, bank.fft.backward(acc[..]));
      ghost var was := out[..];
      CopyInto(out, 0, time[HIST..]);
      assert out[..] == time[HIST..] + was[BLOCK..];
      assert out[..BLOCK] == time[HIST..];
    }

    /** One call: both ears hear the linear convolution of everything fed so far. */
    method Process(input: seq<seq<real>>, outLeft: array<real>, outRight: array<real>)
      requires Valid() && Framed(input, 2 * bank.nCh)
      requires outLeft.Length >= BLOCK && outRight.Length >= BLOCK && outLeft != outRight
      requires outLeft != hist && outLeft != time && outLeft != freq && outLeft != acc
      requires outRight != hist && outRight != time && outRight != freq && outRight != acc
      modifies this`fed, this`heard, hist, time, freq, acc, outLeft, outRight
      ensures Valid() && fed == FedTo(old(fed), input, 0, |input|)
      ensures heard == [old(heard)[0] + outLeft[..BLOCK], old(heard)[1] + outRight[..BLOCK]]
    {
      ghost var was, T := fed, |heard[0]|;
      EarBase(0, bank.nCh);
      EarBase(1, bank.nCh);
      CallStart(was, input, bank.nCh, T);
      hide SetOk;
      hide Remembers;
      hide Account;
      hide EarBlock;
      hide FedTo;
      hide Lengths;
      hide Flat;
      hide Framed;
      ProcessEar(0, input, outLeft, T);
      ghost var left := outLeft[..BLOCK];
      ProcessEar(1, input, outRight, T);
      ghost var right := outRight[..BLOCK];
      assert outLeft[..BLOCK] == left;
      CallDone(bank, was, input, heard, T, left, right);
      heard := [heard[0] + left, heard[1] + right];
    }
  }

  ghost predicate Lengths(fed: seq<seq<real>>, base: int, n: int, T: int) {
    0 <= base && base + n <= |fed| && forall c {:trigger fed[c]} :: base <= c < base + n ==> |fed[c]| == T
  }

  /** A block that is an ear's linear convolution from time T on. */
  ghost predicate EarBlock(bank: FilterSet, ear: int, fed: seq<seq<real>>, T: int, block: seq<real>)
    requires SetOk(bank) && 0 <= ear <= 1 && |fed| == 2 * bank.nCh
  {
    |block| == BLOCK && forall j :: 0 <= j < BLOCK ==> block[j] == Ear(bank, ear, fed, T + j, bank.nCh)
  }

  lemma FedNone(fed: seq<seq<real>>, input: seq<seq<real>>, base: int)
    requires |input| == |fed| && 0 <= base <= |fed|
    ensures FedTo(fed, input, base, 0) == fed
  {
  }

  lemma FedStep(fed: seq<seq<real>>, input: seq<seq<real>>, base: int, ch: int, n: int, T: nat)
    requires Framed(input, |fed|) && 0 <= ch < n && Lengths(fed, base, n, T)
    ensures var now := FedTo(fed, input, base, ch);
            && FedTo(fed, input, base, ch + 1) == now[base + ch := now[base + ch] + input[base + ch]]
            && Lengths(now, base, ch, T + BLOCK) && |now[base + ch]| == T
  {
  }

  /** Both ears have heard as much as every channel was fed, and what they heard is right. */
  ghost predicate Account(bank: FilterSet, fed: seq<seq<real>>, heard: seq<seq<real>>)
    requires SetOk(bank) && |fed| == 2 * bank.nCh
  {
    && |heard| == 2 && |heard[0]| == |heard[1]|
    && (forall ec :: 0 <= ec < |fed| ==> |fed[ec]| == |heard[0]|)
    && HeardRight(bank, 0, fed, heard[0]) && HeardRight(bank, 1, fed, heard[1])
  }

  lemma CallStart(fed: seq<seq<real>>, input: seq<seq<real>>, n: nat, T: nat)
    requires |fed| == 2 * n && Framed(input, |fed|) && (forall c :: 0 <= c < |fed| ==> |fed[c]| == T)
    ensures Lengths(fed, 0, n, T) && Lengths(FedTo(fed, input, 0, n), n, n, T)
    ensures FedTo(FedTo(fed, input, 0, n), input, n, n) == FedTo(fed, input, 0, |input|)
  {
  }

  /** What the two halves of a call add up to. */
  lemma CallDone(bank: FilterSet, fed: seq<seq<real>>, input: seq<seq<real>>, heard: seq<seq<real>>, T: nat,
                 left: seq<real>, right: seq<real>)
    requires SetOk(bank) && |fed| == 2 * bank.nCh && Framed(input, |fed|) && Account(bank, fed, heard) && T == |heard[0]|
    requires EarBlock(bank, 0, FedTo(fed, input, 0, bank.nCh), T, left)
    requires EarBlock(bank, 1, FedTo(fed, input, 0, |input|), T, right)
    ensures Account(bank, FedTo(fed, input, 0, |input|), [heard[0] + left, heard[1] + right])
  {
    hide SetOk;
    hide HeardRight;
    hide Ear;
    var half, more := FedTo(fed, input, 0, bank.nCh), FedTo(fed, input, 0, |input|);
    LeftStays(bank, half, more, T, left);
    HeardGrows(bank, 0, fed, more, heard[0], left);
    HeardGrows(bank, 1, fed, more, heard[1], right);
  }

  lemma LeftStays(bank: FilterSet, half: seq<seq<real>>, more: seq<seq<real>>, T: nat, left: seq<real>)
    requires SetOk(bank) && |half| == 2 * bank.nCh && |more| == |half| && EarBlock(bank, 0, half, T, left)
    requires forall c {:trigger half[c]} :: 0 <= c < bank.nCh ==> half[c] == more[c] && |half[c]| == T + BLOCK
    ensures EarBlock(bank, 0, more, T, left)
  {
    hide SetOk;
    hide Ear;
    EarBase(0, bank.nCh);
    forall j | 0 <= j < BLOCK
      ensures left[j] == Ear(bank, 0, more, T + j, bank.nCh)
    {
      EarCausal(bank, 0, half, more, T + j, bank.nCh);
    }
  }

  lemma EarSamples(bank: FilterSet, acc: seq<real>, ear: int, fed: seq<seq<real>>, T: nat)
    requires SetOk(bank) && 0 <= ear <= 1 && |fed| == 2 * bank.nCh && StandsFor(bank, acc, ear, fed, T - HIST, bank.nCh)
    ensures |bank.fft.backward(acc)| == FFT
    ensures EarBlock(bank, ear, fed, T, bank.fft.backward(acc)[HIST..])
  {
    hide Lawful;
    hide Ear;
    forall j | 0 <= j < BLOCK
      ensures bank.fft.backward(acc)[HIST..][j] == Ear(bank, ear, fed, T + j, bank.nCh)
    {
      assert bank.fft.backward(acc)[HIST + j] == Ear(bank, ear, fed, T - HIST + (HIST + j), bank.nCh);
    }
  }

  lemma SilentHistory(hist: seq<real>, fed: seq<seq<real>>)
    requires |hist| == HIST * |fed| && (forall i :: 0 <= i < |hist| ==> hist[i] == 0.0)
    requires forall ec :: 0 <= ec < |fed| ==> fed[ec] == []
    ensures Remembers(hist, fed)
  {
  }

  lemma SpectraSized(bank: FilterSet, acc: seq<real>, x: seq<real>, ec: int)
    requires SetOk(bank) && |acc| == FFT && |x| == FFT && 0 <= ec < 2 * bank.nCh
    ensures |bank.spec| == 2 * bank.nCh && |bank.fft.forward(x)| == FFT
    ensures |bank.fft.mac(acc, bank.fft.forward(x), bank.spec[ec], 1.0 / FFT as real)| == FFT
  {
    assert Convolves(bank.fft, acc, x, Padded(EarRow(bank, ec)), 1.0 / FFT as real);
  }

  /** Overwrite a whole array. */
  method Fill(dst: array<real>, s: seq<real>)
    requires |s| == dst.Length
    modifies dst
    ensures dst[..] == s
  {
    CopyInto(dst, 0, s);
  }

  method FillTwo(dst: array<real>, x: seq<real>, y: seq<real>)
    requires |x| + |y| == dst.Length
    modifies dst
    ensures dst[..] == x + y
  {
    CopyInto(dst, 0, x);
    CopyInto(dst, |x|, y);
  }
}
