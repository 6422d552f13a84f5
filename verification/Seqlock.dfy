/** One version-guarded record, written and read a word at a time by one writer and one
    reader. The version is odd while a store is in progress; a reader keeps what it copied
    only if the version did not move meanwhile. */
module Seqlock {

  /** stored is every record whose store has begun, oldest first; filled counts the words of
      the last one already in place, or is -1 when the record is stable. */
  datatype Cell = Cell(version: nat, words: seq<int>, stored: seq<seq<int>>, filled: int)

  /** A read in progress: the even version seen first and the words copied since. */
  datatype Attempt = Attempt(v1: nat, got: seq<int>)

  predicate CellOk(c: Cell, m: nat) {
    && |c.words| == m
    && (forall i :: 0 <= i < |c.stored| ==> |c.stored[i]| == m)
    && (if c.filled < 0
        then c.version == 2 * |c.stored| && (c.stored != [] ==> c.words == c.stored[|c.stored| - 1])
        else && c.stored != [] && c.filled <= m && c.version == 2 * |c.stored| - 1
             && forall i :: 0 <= i < c.filled ==> c.words[i] == c.stored[|c.stored| - 1][i])
  }

  /** The store steps: mark odd, put the next word, mark even. */
  function Open(c: Cell, rec: seq<int>): Cell {
    c.(version := c.version + 1, stored := c.stored + [rec], filled := 0)
  }

  function Put(c: Cell): Cell
    requires c.stored != [] && 0 <= c.filled < |c.words| && |c.stored[|c.stored| - 1]| == |c.words|
  {
    c.(words := c.words[c.filled := c.stored[|c.stored| - 1][c.filled]], filled := c.filled + 1)
  }

  function Seal(c: Cell): Cell {
    c.(version := c.version + 1, filled := -1)
  }

  /** Nothing copied so far disagrees with the record the version names, unless the version has
      already moved on. */
  predicate AttemptOk(c: Cell, a: Attempt) {
    && a.v1 % 2 == 0 && a.v1 > 0 && a.v1 <= c.version && a.v1 / 2 <= |c.stored|
    && |a.got| <= |c.words| == |c.stored[a.v1 / 2 - 1]|
    && (c.version == a.v1 ==> a.got == c.stored[a.v1 / 2 - 1][..|a.got|])
  }

  lemma OpenKeeps(c: Cell, rec: seq<int>, m: nat, a: Attempt)
    requires CellOk(c, m) && c.filled < 0 && |rec| == m
    ensures CellOk(Open(c, rec), m)
    ensures AttemptOk(c, a) ==> AttemptOk(Open(c, rec), a)
  {
  }

  lemma PutKeeps(c: Cell, m: nat, a: Attempt)
    requires CellOk(c, m) && 0 <= c.filled < m
    ensures CellOk(Put(c), m)
    ensures AttemptOk(c, a) ==> AttemptOk(Put(c), a)
  {
  }

  lemma SealKeeps(c: Cell, m: nat, a: Attempt)
    requires CellOk(c, m) && c.filled == m
    ensures CellOk(Seal(c), m)
    ensures AttemptOk(c, a) ==> AttemptOk(Seal(c), a)
  {
    var last := |c.stored| - 1;
    assert c.words == c.stored[last];
  }

  lemma BeginAttempt(c: Cell, m: nat)
    requires CellOk(c, m) && c.version % 2 == 0 && c.version > 0
    ensures AttemptOk(c, Attempt(c.version, []))
  {
  }

  /** Copy the next word. */
  function Take(c: Cell, a: Attempt): Attempt
    requires |a.got| < |c.words|
  {
    a.(got := a.got + [c.words[|a.got|]])
  }

  lemma TakeKeeps(c: Cell, m: nat, a: Attempt)
    requires CellOk(c, m) && AttemptOk(c, a) && |a.got| < m
    ensures AttemptOk(c, Take(c, a))
  {
    if c.version == a.v1 {
      var rec := c.stored[a.v1 / 2 - 1];
      assert c.filled < 0 && a.v1 / 2 - 1 == |c.stored| - 1;
      assert rec[..|a.got| + 1] == rec[..|a.got|] + [rec[|a.got|]];
    }
  }

  /** An attempt whose recheck succeeds copied one whole record: the one its version names. */
  lemma WholeRecord(c: Cell, m: nat, a: Attempt)
    requires CellOk(c, m) && AttemptOk(c, a) && |a.got| == m && c.version == a.v1
    ensures a.got == c.stored[a.v1 / 2 - 1]
  {
  }
}

/** The latest-wins pose slot of a sink: one cell of six words. */
module PoseSlot {
  import opened Seqlock

  const WORDS := 6

  /** load is the reader's loop body state; returned lists, oldest first, the version each
      finished load found and the record it returned. */
  datatype Slot = Slot(cell: Cell, load: Loading, returned: seq<(nat, seq<int>)>)

  datatype Loading = Away | Reading(attempt: Attempt)

  datatype Action =
    | BeginStore(rec: seq<int>) | PutWord | EndStore
    | LoadVersion | LoadWord | Recheck

  predicate Next(s: Slot, a: Action, s': Slot)
    requires CellOk(s.cell, WORDS)
  {
    match a
    case BeginStore(rec) => s.cell.filled < 0 && |rec| == WORDS && s' == s.(cell := Open(s.cell, rec))
    case PutWord => 0 <= s.cell.filled < WORDS && s' == s.(cell := Put(s.cell))
    case EndStore => s.cell.filled == WORDS && s' == s.(cell := Seal(s.cell))
    case LoadVersion =>
      s.load.Away? && s' == if s.cell.version == 0 || s.cell.version % 2 != 0 then s
                            else s.(load := Reading(Attempt(s.cell.version, [])))
    case LoadWord =>
      s.load.Reading? && |s.load.attempt.got| < WORDS
      && s' == s.(load := Reading(Take(s.cell, s.load.attempt)))
    case Recheck =>
      s.load.Reading? && |s.load.attempt.got| == WORDS
      && s' == if s.cell.version == s.load.attempt.v1
               then s.(load := Away, returned := s.returned + [(s.load.attempt.v1, s.load.attempt.got)])
               else s.(load := Away)
  }

  /** The i-th returned load is one whole stored record, never older than an earlier one. */
  predicate ReturnedOk(s: Slot) {
    && (forall i :: 0 <= i < |s.returned| ==>
          var (v, rec) := s.returned[i];
          v % 2 == 0 && 0 < v <= s.cell.version && v / 2 <= |s.cell.stored| && rec == s.cell.stored[v / 2 - 1])
    && (forall i, j :: 0 <= i < j < |s.returned| ==> s.returned[i].0 <= s.returned[j].0)
    && (s.load.Reading? ==> forall i :: 0 <= i < |s.returned| ==> s.returned[i].0 <= s.load.attempt.v1)
  }

  predicate Inv(s: Slot) {
    && CellOk(s.cell, WORDS)
    && (s.load.Reading? ==> AttemptOk(s.cell, s.load.attempt))
    && ReturnedOk(s)
  }

  predicate IsInitial(s: Slot) {
    |s.cell.words| == WORDS && s.cell.version == 0 && s.cell.stored == [] && s.cell.filled == -1
    && s.load == Away && s.returned == []
  }

  lemma StoreKeepsReturned(s: Slot, cell: Cell)
    requires ReturnedOk(s) && s.cell.version <= cell.version && s.cell.stored <= cell.stored
    ensures ReturnedOk(s.(cell := cell))
  {
  }

  lemma StoreStep(s: Slot, a: Action, s': Slot)
    requires Inv(s) && Next(s, a, s') && (a.BeginStore? || a.PutWord? || a.EndStore?)
    ensures Inv(s')
  {
    hide CellOk;
    hide AttemptOk;
    hide ReturnedOk;
    var att := if s.load.Reading? then s.load.attempt else Attempt(0, []);
    if a.BeginStore? {
      OpenKeeps(s.cell, a.rec, WORDS, att);
    } else if a.PutWord? {
      PutKeeps(s.cell, WORDS, att);
    } else {
      SealKeeps(s.cell, WORDS, att);
    }
    StoreKeepsReturned(s, s'.cell);
  }

  lemma LoadStep(s: Slot, a: Action, s': Slot)
    requires Inv(s) && Next(s, a, s') && (a.LoadVersion? || a.LoadWord?)
    ensures Inv(s')
  {
    hide CellOk;
    hide AttemptOk;
    if a.LoadWord? {
      TakeKeeps(s.cell, WORDS, s.load.attempt);
    } else if s.cell.version > 0 && s.cell.version % 2 == 0 {
      BeginAttempt(s.cell, WORDS);
    }
  }

  lemma RecheckStep(s: Slot, s': Slot)
    requires Inv(s) && Next(s, Recheck, s')
    ensures Inv(s')
  {
    hide CellOk;
    var a := s.load.attempt;
    if s.cell.version == a.v1 {
      WholeRecord(s.cell, WORDS, a);
    }
  }

  lemma StepKeeps(s: Slot, a: Action, s': Slot)
    requires Inv(s) && Next(s, a, s')
    ensures Inv(s')
  {
    hide Inv;
    hide Next;
    if a.BeginStore? || a.PutWord? || a.EndStore? {
      StoreStep(s, a, s');
    } else if a.Recheck? {
      RecheckStep(s, s');
    } else {
      LoadStep(s, a, s');
    }
  }

  predicate IsRun(ss: seq<Slot>, acts: seq<Action>) {
    && |ss| == |acts| + 1 && IsInitial(ss[0])
    && forall i :: 0 <= i < |acts| ==> CellOk(ss[i].cell, WORDS) && Next(ss[i], acts[i], ss[i + 1])
  }

  lemma {:induction false} RunKeeps(ss: seq<Slot>, acts: seq<Action>, i: nat)
    requires IsRun(ss, acts) && i < |ss|
    ensures Inv(ss[i])
  {
    if i > 0 {
      RunKeeps(ss, acts, i - 1);
      hide Inv;
      hide Next;
      assert Next(ss[i - 1], acts[i - 1], ss[i - 1 + 1]);
      StepKeeps(ss[i - 1], acts[i - 1], ss[i]);
    }
  }

  /** Under every interleaving of single loads and stores, each load that returns gives one
      whole stored pose, and loads never go back to an older store. */
  lemma LoadsAreWholeAndFresh(ss: seq<Slot>, acts: seq<Action>, i: nat)
    requires IsRun(ss, acts) && i < |ss|
    ensures forall k :: 0 <= k < |ss[i].returned| ==>
              var (v, rec) := ss[i].returned[k];
              v % 2 == 0 && 0 < v && v / 2 <= |ss[i].cell.stored| && rec == ss[i].cell.stored[v / 2 - 1]
    ensures forall j, k :: 0 <= j < k < |ss[i].returned| ==> ss[i].returned[j].0 <= ss[i].returned[k].0
  {
    RunKeeps(ss, acts, i);
  }
}
