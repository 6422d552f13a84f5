/** The pose ring's concurrent scan meets the pose track: what a scan keeps, decoded, is what the
    evaluation along the track assumes. */
module PoseScan {
  import opened Order
  import opened PoseRing
  import opened PoseAlign

  /** The ring's words as a sample; bits turns a stored word into the coordinate it encodes. */
  function Decoded(rec: seq<int>, bits: int -> real): Sample
    requires |rec| == WORDS
  {
    Sample(rec[0], rec[1], Pose(bits(rec[2]), bits(rec[3]), bits(rec[4]), bits(rec[5]), bits(rec[6]), bits(rec[7])))
  }

  /** The words a push stores. */
  function Encoded(s: Sample, words: real -> int): (rec: seq<int>)
    ensures |rec| == WORDS
  {
    [s.seqNo, s.endSample, words(s.pose.x), words(s.pose.y), words(s.pose.z),
     words(s.pose.yaw), words(s.pose.pitch), words(s.pose.roll)]
  }

  /** A stored sample is loaded as it was pushed. */
  lemma RecordRoundTrip(s: Sample, words: real -> int, bits: int -> real)
    requires forall x: real :: bits(words(x)) == x
    ensures Decoded(Encoded(s, words), bits) == s
  {
    assert bits(words(s.pose.x)) == s.pose.x;
  }

  predicate AllWords(recs: seq<seq<int>>) {
    forall k :: 0 <= k < |recs| ==> |recs[k]| == WORDS
  }

  function DecodedAll(recs: seq<seq<int>>, bits: int -> real): (r: seq<Sample>)
    requires AllWords(recs)
    ensures |r| == |recs|
  {
    seq(|recs|, k requires 0 <= k < |recs| => Decoded(recs[k], bits))
  }

  function Records(taken: seq<Taken>): (r: seq<seq<int>>)
    ensures |r| == |taken|
  {
    seq(|taken|, k requires 0 <= k < |taken| => taken[k].rec)
  }

  /** The writer has not come round to anything the scan kept. */
  predicate NotLapped(r: Ring) {
    r.taken != [] ==> |r.pushes| <= r.scanned - |r.taken| + SIZE
  }

  /** At any point of any interleaved run in which the writer has not come round, the entries a scan
      has kept are, newest first, the newest of the pushes published when it began. */
  lemma ScanIsNewest(rs: seq<Ring>, acts: seq<Action>, i: nat, bits: int -> real)
    requires IsRun(rs, acts) && i < |rs| && NotLapped(rs[i])
    ensures var r := rs[i];
            && r.scanned <= |r.pushes| && |r.taken| <= Min(RING_SIZE, r.scanned)
            && AllWords(r.pushes) && AllWords(Records(r.taken))
            && DecodedAll(Records(r.taken), bits) == Newest(DecodedAll(r.pushes[..r.scanned], bits), |r.taken|)
  {
    RunKeeps(rs, acts, i);
    NeverTears(rs, acts, i);
    var r := rs[i];
    hide IsRun;
    hide Shape;
    hide History;
    hide Decoded;
    forall k | 0 <= k < |r.taken|
      ensures r.taken[k].rec == r.pushes[r.scanned - 1 - k]
    {
      assert TakenOk(r.taken[k], r.pushes, r.scanned, k);
    }
  }

  lemma NewestGivesTrack(history: seq<Sample>, m: nat, l: int, p: Pose)
    requires m <= |history| && Ascending(history) && Evaluates(Newest(history, m), l, p)
    ensures m > 0 && OnTrack(history[|history| - m..], l, p)
  {
    hide OnTrack;
    hide FirstAtOrBefore;
    hide Interpolates;
    ScanFollowsTrack(history, m, l, p);
  }

  /** So evaluating what the scan kept gives the track through those pushes. */
  lemma ScanGivesTrack(rs: seq<Ring>, acts: seq<Action>, i: nat, bits: int -> real, l: int, p: Pose)
    requires IsRun(rs, acts) && i < |rs| && NotLapped(rs[i])
    requires AllWords(rs[i].pushes) && AllWords(Records(rs[i].taken)) && rs[i].scanned <= |rs[i].pushes|
    requires Ascending(DecodedAll(rs[i].pushes[..rs[i].scanned], bits))
    requires Evaluates(DecodedAll(Records(rs[i].taken), bits), l, p)
    ensures |rs[i].taken| <= rs[i].scanned
    ensures OnTrack(DecodedAll(rs[i].pushes[..rs[i].scanned], bits)[rs[i].scanned - |rs[i].taken|..], l, p)
  {
    hide IsRun;
    hide OnTrack;
    hide DecodedAll;
    hide Evaluates;
    hide Ascending;
    hide Newest;
    ScanIsNewest(rs, acts, i, bits);
    NewestGivesTrack(DecodedAll(rs[i].pushes[..rs[i].scanned], bits), |rs[i].taken|, l, p);
  }
}
