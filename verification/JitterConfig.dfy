/** Geometry of a jitter buffer, derived from its settings at construction.
    Durations are nanoseconds, positions and sizes are frames. */
module JitterConfig {
  import opened Layout
  import opened Order

  const NANOS_PER_SECOND := 1_000_000_000
  const WINDOW_SEC := 2.0
  const WIDTH_HISTORY := 10
  const WIDTH_RANK := 3
  const FREEZE_MS := 40.0
  const NARROW_STEP_MS := 0.5
  const K_LOW := 1.2
  const K_HIGH := 1.5
  const WIDTH_LOW_MAX_MS := 30.0
  const WIDTH_HIGH_MAX_MS := 60.0
  const DEADBAND_MS := 0.25
  const GAIN_PER_SEC := 0.01
  const RATE_CAP_PER_SEC := 20.0
  const FF_CLAMP_PER_SEC := 22.0
  const MAX_DEBT := 1.5

  datatype Settings = Settings(
    sampleRate: int, numChannels: int,
    writerFrameSize: int, readerFrameSize: int, safety: int,
    writerFrames: int, readerFrames: int,
    floor: int, robustness: real, capacity: int)

  datatype Geometry = Geometry(
    capacity: int, w: int, r: int, s: int, nc: int, sr: int,
    windowReads: int, freezeReads: int, narrowStep: real,
    spBase: int, flDecl: int, kLow: real, kHigh: real, wlCap: int,
    deadband: int, gain: real, rateCap: real, ffClamp: real,
    ffDeadZone: int, theta: int, spMax: int)

  /** Integer division truncating toward zero, for a positive divisor. */
  function TruncDiv(a: int, b: int): int
    requires b > 0
  {
    if a >= 0 then a / b else -((-a) / b)
  }

  function MsToFrames(sr: int, ms: real): (n: int)
    ensures sr >= 0 && ms >= 0.0 ==> n >= 0
  {
    Trunc(ms * sr as real / 1000.0)
  }

  /** A frame count scaled by a factor and truncated. */
  function Scale(k: real, x: int): (n: int)
    ensures k >= 0.0 && x >= 0 ==> n >= 0
  {
    assert k >= 0.0 && x >= 0 ==> k * x as real >= 0.0;
    Trunc(k * x as real)
  }

  function DurToFrames(sr: int, d: int): int {
    TruncDiv(d * sr, NANOS_PER_SECOND)
  }

  ghost predicate Divides(d: int, a: int) {
    exists k: int :: d * k == a
  }

  lemma DividesCombination(d: int, a: int, b: int, q: int)
    requires Divides(d, a) && Divides(d, b)
    ensures Divides(d, a - q * b)
  {
    var i, j :| d * i == a && d * j == b;
    assert d * (i - q * j) == a - q * b;
  }

  /** A positive common divisor that every common divisor divides. */
  ghost predicate IsGcd(g: int, a: int, b: int) {
    g > 0 && Divides(g, a) && Divides(g, b) && forall d: int :: Divides(d, a) && Divides(d, b) ==> Divides(d, g)
  }

  /** The Euclidean loop. */
  method Gcd(a0: int, b0: int) returns (g: int)
    requires a0 > 0 && b0 >= 0
    ensures IsGcd(g, a0, b0)
  {
    var a, b := a0, b0;
    while b != 0
      invariant a > 0 && b >= 0
      invariant forall d: int :: Divides(d, a) && Divides(d, b) <==> Divides(d, a0) && Divides(d, b0)
      decreases b
    {
      forall d: int
        ensures Divides(d, a) && Divides(d, b) <==> Divides(d, b) && Divides(d, a % b)
      {
        EuclidStep(d, a, b);
      }
      a, b := b, a % b;
    }
    assert a * 1 == a && a * 0 == 0;
    assert Divides(a, a) && Divides(a, b);
    forall d: int | Divides(d, a0) && Divides(d, b0)
      ensures Divides(d, a)
    {
      assert Divides(d, a) && Divides(d, b);
    }
    g := a;
  }

  lemma EuclidStep(d: int, a: int, b: int)
    requires b > 0
    ensures Divides(d, a) && Divides(d, b) <==> Divides(d, b) && Divides(d, a % b)
  {
    if Divides(d, b) {
      if Divides(d, a) {
        DividesCombination(d, a, b, a / b);
      }
      if Divides(d, a % b) {
        DividesCombination(d, a % b, b, -(a / b));
      }
    }
  }

  /** Construction, given the gcd of the two frame sizes. None is the constructor's panic. */
  function Derive(cfg: Settings, grain: int): Option<Geometry>
    requires cfg.sampleRate >= 0
  {
    var sr := if cfg.sampleRate == 0 then 48000 else cfg.sampleRate;
    var nc := if cfg.numChannels == 0 then 1 else cfg.numChannels;
    var w := WriterFrames(cfg);
    var r := ReaderFrames(cfg);
    if w <= 0 || r <= 0 || nc < 0 then None else
    var s := if DurToFrames(sr, cfg.safety) == 0 then MsToFrames(sr, 1.0) else DurToFrames(sr, cfg.safety);
    var kappa := if cfg.robustness < 1.0 then 1.0 else cfg.robustness;
    var spBase := Max(r + s, r + w);
    var flDecl := DurToFrames(sr, cfg.floor);
    var kLow := K_LOW * kappa;
    var kHigh := K_HIGH * kappa;
    var wlCap := Scale(kappa, MsToFrames(sr, WIDTH_LOW_MAX_MS));
    var whCap := Scale(kappa, MsToFrames(sr, WIDTH_HIGH_MAX_MS));
    var spMax0 := Max(spBase + Scale(kLow, wlCap), flDecl);
    var capacity := if DurToFrames(sr, cfg.capacity) == 0
                    then 2 * (spMax0 + Scale(kHigh, whCap)) + 2 * Max(w, r)
                    else DurToFrames(sr, cfg.capacity);
    if capacity < 0 then None else
    var reserve := 4 * Max(w, r);
    var spMax := if spMax0 > capacity - reserve then Max(spBase, capacity - reserve) else spMax0;
    Some(Geometry(
      capacity, w, r, s, nc, sr,
      Trunc(WINDOW_SEC * sr as real / r as real),
      Max(8, TruncDiv(MsToFrames(sr, FREEZE_MS), r)),
      MsToFrames(sr, NARROW_STEP_MS) as real / kappa,
      spBase, flDecl, kLow, kHigh, wlCap,
      MsToFrames(sr, DEADBAND_MS), GAIN_PER_SEC, RATE_CAP_PER_SEC, FF_CLAMP_PER_SEC,
      Max(1, TruncDiv(grain, 2)), w + Trunc(RATE_CAP_PER_SEC * WINDOW_SEC), spMax))
  }

  function WriterFrames(cfg: Settings): int {
    if cfg.writerFrames != 0 then cfg.writerFrames
    else DurToFrames(if cfg.sampleRate == 0 then 48000 else cfg.sampleRate, cfg.writerFrameSize)
  }

  function ReaderFrames(cfg: Settings): int {
    if cfg.readerFrames != 0 then cfg.readerFrames
    else DurToFrames(if cfg.sampleRate == 0 then 48000 else cfg.sampleRate, cfg.readerFrameSize)
  }

  /** What every constructed geometry satisfies. */
  predicate Sound(g: Geometry) {
    && g.capacity >= 1 && g.w >= 1 && g.r >= 1 && g.nc >= 1 && g.sr >= 1
    && g.spBase >= g.r + g.w
    && g.spBase <= g.spMax
    && (g.spMax == g.spBase || g.spMax <= g.capacity - 4 * Max(g.w, g.r))
    && g.wlCap >= 0 && g.kLow >= 0.0 && g.narrowStep >= 0.0
    && g.windowReads >= 0 && g.freezeReads >= 8
    && g.rateCap >= 0.0
  }

  /** The ring holds the structural setpoint plus one writer and one reader frame. */
  predicate Roomy(g: Geometry) {
    g.spBase + g.w + g.r <= g.capacity
  }

  /** One frame less will do for the read head never to move back. */
  predicate Snug(g: Geometry) {
    g.spBase + g.w + g.r <= g.capacity + 1
  }

  /** Every geometry the constructor returns is sound, and a buffer whose capacity is
      left to the constructor is always roomy. */
  lemma DerivedGeometry(cfg: Settings, grain: int)
    requires cfg.sampleRate >= 0
    requires Derive(cfg, grain).Some?
    ensures Sound(Derive(cfg, grain).value)
    ensures DurToFrames(Derive(cfg, grain).value.sr, cfg.capacity) == 0 ==> Roomy(Derive(cfg, grain).value)
  {
    hide Scale;
    hide MsToFrames;
    hide DurToFrames;
    var g := Derive(cfg, grain).value;
    assert WINDOW_SEC * g.sr as real / g.r as real >= 0.0;
    var kappa := if cfg.robustness < 1.0 then 1.0 else cfg.robustness;
    assert MsToFrames(g.sr, NARROW_STEP_MS) as real / kappa >= 0.0;
  }

  /** A fill of sp trips neither capacity valve. */
  predicate Clears(g: Geometry, sp: int) {
    sp < g.capacity && sp <= g.capacity - (g.w + g.r)
  }

  /** The capacity valve snaps to a setpoint in [spBase, spMax]. Every such setpoint stays at
      or below the near-capacity guard exactly when the ring is roomy. */
  lemma ValveClearance(g: Geometry)
    requires Sound(g)
    ensures Roomy(g) <==> forall sp :: g.spBase <= sp <= g.spMax ==> Clears(g, sp)
  {
    if !Roomy(g) {
      assert !Clears(g, g.spBase);
    }
  }

  /** The quality levels: declared floor, robustness and capacity, in nanoseconds. */
  function QualityLevel(level: int): (int, real, int) {
    if level <= 0 then (0, 1.0, 0)
    else if level == 1 then (50_000_000, 4.0, 500_000_000)
    else (150_000_000, 8.0, 400_000_000)
  }

  function FECFloor(maxOffset: int, writerFrame: int): int {
    if maxOffset <= 0 then 0 else 2 * (maxOffset + 2) * writerFrame
  }

  /** The settings AddSource builds for a source of the given quality and redundancy. */
  function SourceSettings(quality: int, redundancy: int, writerFrame: int, readerFrame: int): Settings {
    var (floor, robustness, capacity) := QualityLevel(quality);
    Settings(48000, 1, writerFrame, readerFrame, 0, 0, 0,
             Max(floor, FECFloor(redundancy, writerFrame)), robustness, capacity)
  }

  /** A source's declared floor is the larger of its quality level's and of what its redundancy
      needs: two overlapping repairs of offset plus two frames each. Higher levels tolerate more. */
  lemma FloorsCompose(quality: int, redundancy: int, writerFrame: int, readerFrame: int)
    ensures var floor := SourceSettings(quality, redundancy, writerFrame, readerFrame).floor;
            && floor >= QualityLevel(quality).0
            && (redundancy > 0 ==> floor >= 2 * (redundancy + 2) * writerFrame)
            && (floor == QualityLevel(quality).0 || (redundancy > 0 && floor == 2 * (redundancy + 2) * writerFrame) || floor == 0)
    ensures QualityLevel(0).0 == 0 && QualityLevel(1).0 == 50_000_000 && QualityLevel(2).0 == 150_000_000
    ensures quality <= 0 ==> QualityLevel(quality) == QualityLevel(0)
    ensures quality >= 2 ==> QualityLevel(quality) == QualityLevel(2)
    ensures QualityLevel(0).1 == 1.0 && QualityLevel(1).1 == 4.0 && QualityLevel(2).1 == 8.0
  {
  }

  /** Every source the mixer can build gets a roomy ring at the interactive level, and at the
      others as long as its wire and reader frames together last at most 199 ms, whatever its
      declared redundancy. */
  lemma SourcesAreRoomy(quality: int, redundancy: int, writerFrame: int, readerFrame: int, grain: int)
    requires 0 < writerFrame && 0 < readerFrame && (quality <= 0 || writerFrame + readerFrame <= 199_000_000)
    requires Derive(SourceSettings(quality, redundancy, writerFrame, readerFrame), grain).Some?
    ensures Roomy(Derive(SourceSettings(quality, redundancy, writerFrame, readerFrame), grain).value)
  {
    var cfg := SourceSettings(quality, redundancy, writerFrame, readerFrame);
    var g := Derive(cfg, grain).value;
    DerivedGeometry(cfg, grain);
    assert g.w == writerFrame * 48000 / NANOS_PER_SECOND;
    assert g.r == readerFrame * 48000 / NANOS_PER_SECOND;
    assert quality > 0 ==> g.w + g.r <= 9552;
  }
}
