/** The source-pose ring: 32 version-guarded entries, one writer pushing, one reader scanning
    from the newest back, interleaved at single loads and stores. */
module PoseRing {
  import opened Seqlock

  const SIZE := 32
  const WORDS := 8   // sequence number, end sample, six pose words

  datatype Pushing = Rest | Filling | Sealed

  /** An entry a scan kept, with the number of the push it turned out to be. */
  datatype Taken = Taken(rec: seq<int>, push: int)

  /** A scan that loaded head as h and has kept the entries before position i. */
  datatype Scan = NoScan | Looking(h: nat, i: nat) | Copying(h: nat, i: nat, attempt: Attempt)

  /** pushes is every accepted push, oldest first, the one in progress included. */
  datatype Ring = Ring(
    cells: seq<Cell>, head: nat, pushes: seq<seq<int>>, pushing: Pushing,
    scan: Scan, scanned: nat, taken: seq<Taken>)

  datatype Action =
    | BeginPush(rec: seq<int>) | PutWord | EndStore | Publish
    | LoadHead | LoadVersion | LoadWord | Recheck

  predicate Shape(r: Ring) {
    && |r.cells| == SIZE
    && forall j :: 0 <= j < SIZE ==> CellOk(r.cells[j], WORDS)
  }

  /** Cell a scan at position i of head h looks at. */
  function Seat(h: nat, i: nat): nat
    requires i < h
  {
    (h - 1 - i) % SIZE
  }

  predicate Next(r: Ring, a: Action, r': Ring)
    requires Shape(r)
  {
    var seat := r.head % SIZE;
    match a
    case BeginPush(rec) =>
      // A push whose sequence number is not above the last one is dropped.
      && r.pushing.Rest? && |rec| == WORDS
      && r' == if r.head > 0 && r.pushes != [] && |r.pushes[|r.pushes| - 1]| == WORDS
                  && rec[0] <= r.pushes[|r.pushes| - 1][0] then r
               else r.(cells := r.cells[seat := Open(r.cells[seat], rec)],
                       pushes := r.pushes + [rec], pushing := Filling)
    case PutWord =>
      && r.pushing.Filling? && 0 <= r.cells[seat].filled < WORDS
      && r' == r.(cells := r.cells[seat := Put(r.cells[seat])])
    case EndStore =>
      && r.pushing.Filling? && r.cells[seat].filled == WORDS
      && r' == r.(cells := r.cells[seat := Seal(r.cells[seat])], pushing := Sealed)
    case Publish =>
      r.pushing.Sealed? && r' == r.(head := r.head + 1, pushing := Rest)
    case LoadHead =>
      r.scan.NoScan? && r' == r.(scan := Looking(r.head, 0), scanned := r.head, taken := [])
    case LoadVersion =>
      && r.scan.Looking?
      && r' == if r.scan.i >= SIZE || r.scan.i >= r.scan.h then r.(scan := NoScan)
               else
                 var v := r.cells[Seat(r.scan.h, r.scan.i)].version;
                 if v % 2 != 0 then r.(scan := NoScan)
                 else r.(scan := Copying(r.scan.h, r.scan.i, Attempt(v, [])))
    case LoadWord =>
      && r.scan.Copying? && r.scan.i < r.scan.h && |r.scan.attempt.got| < WORDS
      && r' == r.(scan := r.scan.(attempt := Take(r.cells[Seat(r.scan.h, r.scan.i)], r.scan.attempt)))
    case Recheck =>
      && r.scan.Copying? && r.scan.i < r.scan.h && |r.scan.attempt.got| == WORDS
      && var seat' := Seat(r.scan.h, r.scan.i);
         var a := r.scan.attempt;
         r' == if r.cells[seat'].version != a.v1 then r.(scan := NoScan)
               else r.(scan := Looking(r.scan.h, r.scan.i + 1),
                       taken := r.taken + [Taken(a.got, seat' + SIZE * (a.v1 / 2 - 1))])
  }

  // ---- The invariant ----------------------------------------------------------

  /** Slot j has been given pushes j, j + 32, j + 64, ... and nothing else. */
  predicate History(stored: seq<seq<int>>, pushes: seq<seq<int>>, j: nat) {
    && |stored| == (|pushes| + SIZE - 1 - j) / SIZE
    && forall c :: 0 <= c < |stored| ==> j + SIZE * c < |pushes| && stored[c] == pushes[j + SIZE * c]
  }

  predicate WriterOk(r: Ring) {
    && Shape(r)
    && |r.pushes| == r.head + (if r.pushing.Rest? then 0 else 1)
    && (forall k :: 0 <= k < |r.pushes| ==> |r.pushes[k]| == WORDS)
    && (forall k :: 0 < k < |r.pushes| ==> r.pushes[k - 1][0] < r.pushes[k][0])
    && (forall j :: 0 <= j < SIZE ==> History(r.cells[j].stored, r.pushes, j))
    && (forall j :: 0 <= j < SIZE ==>
          if r.pushing.Filling? && j == r.head % SIZE then r.cells[j].filled >= 0 else r.cells[j].filled == -1)
  }

  /** A kept entry is one whole push of the slot the scan looked at, no older than the push the
      scan was after. */
  predicate TakenOk(t: Taken, pushes: seq<seq<int>>, h: nat, i: nat) {
    && i < h && h - 1 - i <= t.push < |pushes|
    && (t.push - (h - 1 - i)) % SIZE == 0
    && t.rec == pushes[t.push]
  }

  predicate ScanOk(r: Ring) {
    && r.scanned <= r.head
    && |r.taken| <= r.scanned && |r.taken| <= SIZE
    && (forall i :: 0 <= i < |r.taken| ==> TakenOk(r.taken[i], r.pushes, r.scanned, i))
    && (!r.scan.NoScan? ==> r.scan.h == r.scanned && r.scan.i == |r.taken|)
    && (r.scan.Copying? ==>
          && r.scan.i < r.scan.h && r.scan.i < SIZE
          && |r.cells| == SIZE
          && AttemptOk(r.cells[Seat(r.scan.h, r.scan.i)], r.scan.attempt)
          && r.scan.attempt.v1 / 2 - 1 >= (r.scan.h - 1 - r.scan.i) / SIZE)
  }

  predicate Inv(r: Ring) {
    WriterOk(r) && ScanOk(r)
  }

  predicate IsInitial(r: Ring) {
    && |r.cells| == SIZE
    && (forall j :: 0 <= j < SIZE ==>
          && |r.cells[j].words| == WORDS && r.cells[j].version == 0
          && r.cells[j].stored == [] && r.cells[j].filled == -1)
    && r.head == 0 && r.pushes == [] && r.pushing == Rest
    && r.scan == NoScan && r.scanned == 0 && r.taken == []
  }

  // ---- Writer steps -------------------------------------------------------------

  /** A writer step on one cell leaves the scan's evidence sound. */
  lemma ScanSurvives(r: Ring, r': Ring, seat: nat)
    requires ScanOk(r) && seat < SIZE == |r.cells| == |r'.cells|
    requires r'.scan == r.scan && r'.scanned == r.scanned && r'.taken == r.taken
    requires r.pushes <= r'.pushes && r.head <= r'.head
    requires forall j :: 0 <= j < SIZE && j != seat ==> r'.cells[j] == r.cells[j]
    requires r.scan.Copying? && AttemptOk(r.cells[seat], r.scan.attempt) ==> AttemptOk(r'.cells[seat], r.scan.attempt)
    ensures ScanOk(r')
  {
    hide AttemptOk;
  }

  lemma PushHistory(stored: seq<seq<int>>, pushes: seq<seq<int>>, j: nat, rec: seq<int>)
    requires j < SIZE && History(stored, pushes, j)
    ensures j == |pushes| % SIZE ==> History(stored + [rec], pushes + [rec], j)
    ensures j != |pushes| % SIZE ==> History(stored, pushes + [rec], j)
  {
    if j == |pushes| % SIZE {
      assert j + SIZE * |stored| == |pushes|;
    }
  }

  lemma BeginPushWriter(r: Ring, rec: seq<int>, r': Ring)
    requires WriterOk(r) && Next(r, BeginPush(rec), r') && r' != r
    ensures WriterOk(r')
  {
    hide CellOk;
    hide History;
    hide Open;
    var seat := r.head % SIZE;
    OpenKeeps(r.cells[seat], rec, WORDS, Attempt(0, []));
    OpenFrame(r.cells[seat], rec);
    forall j | 0 <= j < SIZE
      ensures History(r'.cells[j].stored, r'.pushes, j)
    {
      PushHistory(r.cells[j].stored, r.pushes, j, rec);
    }
  }

  lemma BeginPushStep(r: Ring, rec: seq<int>, r': Ring)
    requires Inv(r) && Next(r, BeginPush(rec), r')
    ensures Inv(r')
  {
    hide CellOk;
    hide AttemptOk;
    hide ScanOk;
    if r' != r {
      BeginPushWriter(r, rec, r');
      hide History;
      var seat := r.head % SIZE;
      var att := if r.scan.Copying? then r.scan.attempt else Attempt(0, []);
      OpenKeeps(r.cells[seat], rec, WORDS, att);
      ScanSurvives(r, r', seat);
    }
  }

  lemma OpenFrame(c: Cell, rec: seq<int>)
    ensures Open(c, rec).stored == c.stored + [rec] && Open(c, rec).filled == 0
  {
  }

  lemma FillStep(r: Ring, a: Action, r': Ring)
    requires Inv(r) && Next(r, a, r') && (a.PutWord? || a.EndStore?)
    ensures Inv(r')
  {
    hide CellOk;
    hide History;
    hide AttemptOk;
    hide ScanOk;
    var seat := r.head % SIZE;
    var att := if r.scan.Copying? then r.scan.attempt else Attempt(0, []);
    if a.PutWord? {
      PutKeeps(r.cells[seat], WORDS, att);
    } else {
      SealKeeps(r.cells[seat], WORDS, att);
    }
    ScanSurvives(r, r', seat);
  }

  lemma PublishStep(r: Ring, r': Ring)
    requires Inv(r) && Next(r, Publish, r')
    ensures Inv(r')
  {
    hide CellOk;
    hide History;
    hide AttemptOk;
  }

  // ---- Reader steps -------------------------------------------------------------

  /** When a scan looks at a cell whose version is even, that version already names a push at
      least as new as the one it is after. */
  lemma VersionIsFresh(r: Ring, h: nat, i: nat)
    requires WriterOk(r) && i < h <= r.head && r.cells[Seat(h, i)].version % 2 == 0
    ensures r.cells[Seat(h, i)].version / 2 - 1 >= (h - 1 - i) / SIZE
    ensures r.cells[Seat(h, i)].version > 0
  {
    var j := Seat(h, i);
    var c := r.cells[j];
    assert CellOk(c, WORDS) && History(c.stored, r.pushes, j);
    assert c.filled < 0;
    var q := h - 1 - i;
    assert q == j + SIZE * (q / SIZE);
  }

  lemma LookStep(r: Ring, a: Action, r': Ring)
    requires Inv(r) && Next(r, a, r') && (a.LoadHead? || a.LoadVersion?)
    ensures Inv(r')
  {
    if a.LoadVersion? && r'.scan.Copying? {
      VersionIsFresh(r, r.scan.h, r.scan.i);
      BeginAttempt(r.cells[Seat(r.scan.h, r.scan.i)], WORDS);
    }
    hide CellOk;
    hide History;
    hide AttemptOk;
  }

  lemma WordStep(r: Ring, r': Ring)
    requires Inv(r) && Next(r, LoadWord, r')
    ensures Inv(r')
  {
    TakeKeeps(r.cells[Seat(r.scan.h, r.scan.i)], WORDS, r.scan.attempt);
    hide CellOk;
    hide History;
    hide AttemptOk;
  }

  lemma RecheckTakes(r: Ring)
    requires Inv(r) && r.scan.Copying? && |r.scan.attempt.got| == WORDS
    requires r.cells[Seat(r.scan.h, r.scan.i)].version == r.scan.attempt.v1
    ensures var j, a := Seat(r.scan.h, r.scan.i), r.scan.attempt;
            TakenOk(Taken(a.got, j + SIZE * (a.v1 / 2 - 1)), r.pushes, r.scan.h, r.scan.i)
  {
    var j := Seat(r.scan.h, r.scan.i);
    var a := r.scan.attempt;
    var c := a.v1 / 2 - 1;
    assert CellOk(r.cells[j], WORDS) && History(r.cells[j].stored, r.pushes, j);
    WholeRecord(r.cells[j], WORDS, a);
    assert r.cells[j].stored[c] == r.pushes[j + SIZE * c];
    hide CellOk;
    hide History;
    var q := r.scan.h - 1 - r.scan.i;
    assert q == j + SIZE * (q / SIZE);
    PushAfter(q, j, c);
  }

  lemma RecheckStep(r: Ring, r': Ring)
    requires Inv(r) && Next(r, Recheck, r')
    ensures Inv(r')
  {
    hide CellOk;
    hide History;
    hide AttemptOk;
    hide TakenOk;
    if r.cells[Seat(r.scan.h, r.scan.i)].version == r.scan.attempt.v1 {
      RecheckTakes(r);
    }
  }

  lemma PushAfter(q: nat, j: nat, c: nat)
    requires q == j + SIZE * (q / SIZE) && c >= q / SIZE
    ensures q <= j + SIZE * c && (j + SIZE * c - q) % SIZE == 0
  {
    assert j + SIZE * c - q == SIZE * (c - q / SIZE);
  }

  // ---- Runs ----------------------------------------------------------------------

  predicate IsRun(rs: seq<Ring>, acts: seq<Action>) {
    && |rs| == |acts| + 1 && IsInitial(rs[0])
    && forall i :: 0 <= i < |acts| ==> Shape(rs[i]) && Next(rs[i], acts[i], rs[i + 1])
  }

  lemma StepKeeps(r: Ring, a: Action, r': Ring)
    requires Inv(r) && Next(r, a, r')
    ensures Inv(r')
  {
    hide Inv;
    hide Next;
    match a
    case BeginPush(rec) => BeginPushStep(r, rec, r');
    case PutWord => FillStep(r, a, r');
    case EndStore => FillStep(r, a, r');
    case Publish => PublishStep(r, r');
    case LoadHead => LookStep(r, a, r');
    case LoadVersion => LookStep(r, a, r');
    case LoadWord => WordStep(r, r');
    case Recheck => RecheckStep(r, r');
  }

  lemma {:induction false} RunKeeps(rs: seq<Ring>, acts: seq<Action>, i: nat)
    requires IsRun(rs, acts) && i < |rs|
    ensures Inv(rs[i])
  {
    if i > 0 {
      hide Inv;
      hide Next;
      hide Shape;
      hide IsInitial;
      RunKeeps(rs, acts, i - 1);
      assert Next(rs[i - 1], acts[i - 1], rs[i - 1 + 1]);
      StepKeeps(rs[i - 1], acts[i - 1], rs[i]);
    }
  }

  /** The ring never tears: under every interleaving, each entry a scan kept is exactly one
      accepted push, and it is push number h - 1 - i for the head h the scan started from as
      long as the writer has not come round to that slot again. */
  lemma NeverTears(rs: seq<Ring>, acts: seq<Action>, i: nat)
    requires IsRun(rs, acts) && i < |rs|
    ensures forall k :: 0 <= k < |rs[i].taken| ==> TakenOk(rs[i].taken[k], rs[i].pushes, rs[i].scanned, k)
    ensures forall k :: 0 <= k < |rs[i].taken| && |rs[i].pushes| <= rs[i].scanned - 1 - k + SIZE
              ==> rs[i].taken[k].push == rs[i].scanned - 1 - k
  {
    RunKeeps(rs, acts, i);
    var r := rs[i];
    forall k | 0 <= k < |r.taken| && |r.pushes| <= r.scanned - 1 - k + SIZE
      ensures r.taken[k].push == r.scanned - 1 - k
    {
      assert TakenOk(r.taken[k], r.pushes, r.scanned, k);
    }
  }

  /** Accepted pushes carry strictly increasing sequence numbers: reordered and repeated
      packets never reach the ring. */
  lemma LatestWins(rs: seq<Ring>, acts: seq<Action>, i: nat, a: nat, b: nat)
    requires IsRun(rs, acts) && i < |rs| && a < b < |rs[i].pushes|
    ensures |rs[i].pushes[a]| == WORDS && |rs[i].pushes[b]| == WORDS
    ensures rs[i].pushes[a][0] < rs[i].pushes[b][0]
  {
    RunKeeps(rs, acts, i);
    Increasing(rs[i].pushes, a, b);
  }

  lemma {:induction false} Increasing(p: seq<seq<int>>, a: nat, b: nat)
    requires forall k :: 0 <= k < |p| ==> |p[k]| == WORDS
    requires forall k :: 0 < k < |p| ==> p[k - 1][0] < p[k][0]
    requires a < b < |p|
    ensures p[a][0] < p[b][0]
    decreases b
  {
    if a < b - 1 {
      Increasing(p, a, b - 1);
    }
  }
}
