// Stalls of the data path, measured between consecutive beats, and the policy that judges them
// (e2e/pkg/framework/io_workload_parse.go, io_workload.go).
module Stalls {
  import opened Text
  import opened Journal

  datatype Gap = Gap(duration: int, from: int, to: int, fromSequence: int, toSequence: int)

  function GapAt(beats: seq<Beat>, i: nat): Gap
    requires 0 < i < |beats|
  {
    Gap(beats[i].at - beats[i - 1].at, beats[i - 1].at, beats[i].at, beats[i - 1].sequence, beats[i].sequence)
  }

  /** The gaps longer than the threshold that end at beats `i` to `n`, oldest first. */
  function GapsBetween(beats: seq<Beat>, i: nat, n: nat, threshold: int): seq<Gap>
    requires 0 < i && n <= |beats|
    decreases n - i
  {
    if i >= n then []
    else (if GapAt(beats, i).duration > threshold then [GapAt(beats, i)] else [])
         + GapsBetween(beats, i + 1, n, threshold)
  }

  function GapsOver(beats: seq<Beat>, threshold: int): seq<Gap> {
    GapsBetween(beats, 1, |beats|, threshold)
  }

  method CollectGaps(beats: seq<Beat>, threshold: int) returns (out: seq<Gap>)
    ensures out == GapsOver(beats, threshold)
    ensures forall g :: g in out <==>
              exists i :: 0 < i < |beats| && beats[i].at - beats[i - 1].at > threshold
                          && g == Gap(beats[i].at - beats[i - 1].at, beats[i - 1].at, beats[i].at,
                                      beats[i - 1].sequence, beats[i].sequence)
  {
    hide GapsBetween;
    out := [];
    var i := 1;
    assert out + GapsBetween(beats, 1, |beats|, threshold) == GapsBetween(beats, 1, |beats|, threshold);
    while i < |beats|
      invariant 1 <= i
      invariant out + GapsBetween(beats, i, |beats|, threshold) == GapsOver(beats, threshold)
    {
      var prev, cur := beats[i - 1], beats[i];
      var gap := cur.at - prev.at;
      GapsStep(beats, i, threshold);
      Assoc(out, [GapAt(beats, i)], GapsBetween(beats, i + 1, |beats|, threshold));
      if gap > threshold {
        out := out + [Gap(gap, prev.at, cur.at, prev.sequence, cur.sequence)];
      }
      i := i + 1;
    }
    GapsEnd(beats, i, threshold);
    assert out + [] == out;
    GapsListed(beats, threshold);
  }

  lemma GapsStep(beats: seq<Beat>, i: nat, threshold: int)
    requires 0 < i < |beats|
    ensures GapAt(beats, i).duration > threshold ==>
              GapsBetween(beats, i, |beats|, threshold)
              == [GapAt(beats, i)] + GapsBetween(beats, i + 1, |beats|, threshold)
    ensures GapAt(beats, i).duration <= threshold ==>
              GapsBetween(beats, i, |beats|, threshold) == GapsBetween(beats, i + 1, |beats|, threshold)
  {
    assert [] + GapsBetween(beats, i + 1, |beats|, threshold) == GapsBetween(beats, i + 1, |beats|, threshold);
  }

  lemma GapsEnd(beats: seq<Beat>, i: nat, threshold: int)
    requires 0 < i && i >= |beats|
    ensures GapsBetween(beats, i, |beats|, threshold) == []
  {
  }

  /** The largest gap and the beat that ended it; zero and none when no gap is positive. */
  method MaxInterBeatGap(beats: seq<Beat>) returns (gap: int, endedBy: Option<Beat>)
    ensures gap >= 0 && (endedBy.None? <==> gap == 0)
    ensures forall i :: 0 < i < |beats| ==> beats[i].at - beats[i - 1].at <= gap
    ensures endedBy.Some? ==>
              exists i :: 0 < i < |beats| && beats[i].at - beats[i - 1].at == gap && beats[i] == endedBy.value
    ensures forall threshold :: threshold >= 0 ==> (GapsOver(beats, threshold) != [] <==> gap > threshold)
  {
    gap, endedBy := 0, None;
    var i := 1;
    while i < |beats|
      invariant 1 <= i && gap >= 0 && (endedBy.None? <==> gap == 0)
      invariant forall k :: 0 < k < i && k < |beats| ==> beats[k].at - beats[k - 1].at <= gap
      invariant endedBy.Some? ==>
                  exists k :: 0 < k < i && k < |beats| && beats[k].at - beats[k - 1].at == gap
                              && beats[k] == endedBy.value
    {
      var d := beats[i].at - beats[i - 1].at;
      if d > gap {
        gap, endedBy := d, Some(beats[i]);
      }
      i := i + 1;
    }
    forall threshold | threshold >= 0 ensures GapsOver(beats, threshold) != [] <==> gap > threshold {
      AnyGapIff(beats, threshold);
    }
  }

  /** The beats from `i` on that end a listed gap. */
  ghost function GapEnds(beats: seq<Beat>, i: nat, threshold: int): (ends: seq<nat>)
    requires 0 < i
    ensures forall k :: 0 <= k < |ends| ==> i <= ends[k] < |beats|
    decreases |beats| - i
  {
    if i >= |beats| then []
    else (if GapAt(beats, i).duration > threshold then [i] else []) + GapEnds(beats, i + 1, threshold)
  }

  lemma {:induction false} GapsEndThere(beats: seq<Beat>, i: nat, threshold: int)
    requires 0 < i
    ensures |GapEnds(beats, i, threshold)| == |GapsBetween(beats, i, |beats|, threshold)|
    ensures forall k :: 0 <= k < |GapEnds(beats, i, threshold)| ==>
              GapsBetween(beats, i, |beats|, threshold)[k] == GapAt(beats, GapEnds(beats, i, threshold)[k])
    decreases |beats| - i
  {
    hide GapAt;
    if i < |beats| {
      GapsEndThere(beats, i + 1, threshold);
    }
  }

  lemma {:induction false} EndsAscend(beats: seq<Beat>, i: nat, threshold: int)
    requires 0 < i
    ensures forall j, k :: 0 <= j < k < |GapEnds(beats, i, threshold)| ==>
              GapEnds(beats, i, threshold)[j] < GapEnds(beats, i, threshold)[k]
    decreases |beats| - i
  {
    hide GapAt;
    if i < |beats| {
      EndsAscend(beats, i + 1, threshold);
    }
  }

  lemma {:induction false} EndsIff(beats: seq<Beat>, i: nat, k: nat, threshold: int)
    requires 0 < i <= k < |beats|
    ensures k in GapEnds(beats, i, threshold) <==> GapAt(beats, k).duration > threshold
    decreases |beats| - i
  {
    hide GapAt;
    if i < k {
      EndsIff(beats, i + 1, k, threshold);
    }
  }

  /**
   * The list holds, oldest first, one gap for each beat that came more than the threshold after the one
   * before it: `ends` are those beats, and each gap runs from the earlier of the two to the later.
   */
  lemma GapsInOrder(beats: seq<Beat>, threshold: int) returns (ends: seq<nat>)
    ensures |ends| == |GapsOver(beats, threshold)|
    ensures forall k :: 0 <= k < |ends| ==>
              && 0 < ends[k] < |beats|
              && GapsOver(beats, threshold)[k]
                 == Gap(beats[ends[k]].at - beats[ends[k] - 1].at, beats[ends[k] - 1].at, beats[ends[k]].at,
                        beats[ends[k] - 1].sequence, beats[ends[k]].sequence)
    ensures forall j, k :: 0 <= j < k < |ends| ==> ends[j] < ends[k]
    ensures forall k: nat :: 0 < k < |beats| ==> (k in ends <==> beats[k].at - beats[k - 1].at > threshold)
  {
    ends := GapEnds(beats, 1, threshold);
    GapsEndThere(beats, 1, threshold);
    EndsAscend(beats, 1, threshold);
    forall k: nat | 0 < k < |beats| ensures k in ends <==> beats[k].at - beats[k - 1].at > threshold {
      EndsIff(beats, 1, k, threshold);
    }
    hide GapsBetween, GapEnds;
  }

  /** A gap is listed iff it is the gap of two consecutive beats and longer than the threshold. */
  lemma GapsListed(beats: seq<Beat>, threshold: int)
    ensures forall g :: g in GapsOver(beats, threshold) <==>
              exists i :: 0 < i < |beats| && beats[i].at - beats[i - 1].at > threshold
                          && g == Gap(beats[i].at - beats[i - 1].at, beats[i - 1].at, beats[i].at,
                                      beats[i - 1].sequence, beats[i].sequence)
  {
    var ends := GapsInOrder(beats, threshold);
    hide GapsOver;
    var gaps := GapsOver(beats, threshold);
    forall g | g in gaps
      ensures exists i :: 0 < i < |beats| && beats[i].at - beats[i - 1].at > threshold
                          && g == Gap(beats[i].at - beats[i - 1].at, beats[i - 1].at, beats[i].at,
                                      beats[i - 1].sequence, beats[i].sequence)
    {
      var k :| 0 <= k < |gaps| && gaps[k] == g;
      assert ends[k] in ends;
    }
  }

  /** Some gap is listed iff some beat came more than the threshold after the one before it. */
  lemma AnyGapIff(beats: seq<Beat>, threshold: int)
    ensures GapsOver(beats, threshold) != [] <==>
            exists i :: 0 < i < |beats| && beats[i].at - beats[i - 1].at > threshold
  {
    var ends := GapsInOrder(beats, threshold);
    hide GapsOver;
    if ends != [] {
      assert ends[0] in ends;
    }
  }

  /** Beat `i` came more than the threshold after the one before it. */
  predicate Late(beats: seq<Beat>, i: int, threshold: int) {
    0 < i < |beats| && beats[i].at - beats[i - 1].at > threshold
  }

  /** At most one gap is listed iff at most one beat came late. */
  lemma OneGapIff(beats: seq<Beat>, threshold: int)
    ensures |GapsOver(beats, threshold)| <= 1 <==>
            forall i, j :: Late(beats, i, threshold) && Late(beats, j, threshold) ==> i == j
  {
    var ends := GapsInOrder(beats, threshold);
    hide GapsOver;
    if |ends| > 1 {
      assert ends[0] in ends && ends[1] in ends;
      assert Late(beats, ends[0], threshold) && Late(beats, ends[1], threshold);
    }
  }

  /** A single gap is that of the one late beat. */
  lemma OnlyGap(beats: seq<Beat>, threshold: int) returns (e: nat)
    requires |GapsOver(beats, threshold)| == 1
    ensures 0 < e < |beats| && GapsOver(beats, threshold)[0].duration == beats[e].at - beats[e - 1].at
    ensures forall k :: 0 < k < |beats| && k != e ==> beats[k].at - beats[k - 1].at <= threshold
  {
    var ends := GapsInOrder(beats, threshold);
    hide GapsOver;
    e := ends[0];
    assert ends == [e];
    forall k | 0 < k < |beats| && k != e ensures beats[k].at - beats[k - 1].at <= threshold {
      assert k !in ends;
    }
  }

  // ---------------------------------------------------------------------------
  // The policy
  // ---------------------------------------------------------------------------

  datatype Allowance = Allowance(declared: bool, max: int)

  predicate Violated(a: Allowance, gaps: seq<Gap>) {
    if !a.declared then |gaps| > 0
    else if |gaps| > 1 then true
    else |gaps| == 1 && gaps[0].duration > a.max
  }

  /** The freeze declaration of a workload: at most one, and never one that tolerates nothing or everything. */
  class Workload {
    const maxHeartbeatGap: int
    var freeze: Allowance

    constructor (maxHeartbeatGap: int)
      ensures this.maxHeartbeatGap == maxHeartbeatGap && freeze == Allowance(false, 0)
    {
      this.maxHeartbeatGap := maxHeartbeatGap;
      freeze := Allowance(false, 0);
    }

    ghost predicate Valid()
      reads this
    {
      freeze.declared ==> 0 < freeze.max && maxHeartbeatGap < freeze.max
    }

    method DeclareFreeze(maxFreeze: int) returns (ok: bool)
      requires Valid()
      modifies this
      ensures Valid()
      ensures ok <==> !old(freeze.declared) && maxFreeze > 0 && maxFreeze > maxHeartbeatGap
      ensures freeze == if ok then Allowance(true, maxFreeze) else old(freeze)
    {
      if freeze.declared || maxFreeze <= 0 || maxFreeze <= maxHeartbeatGap {
        return false;
      }
      freeze := Allowance(true, maxFreeze);
      return true;
    }
  }

  /**
   * What the policy means for the beats: undeclared, no two consecutive beats are further apart than the
   * heartbeat gap; with a freeze declared above it, at most one pair is, and no pair exceeds the declared bound.
   */
  lemma PolicyMeans(a: Allowance, beats: seq<Beat>, threshold: int)
    requires a.declared ==> a.max > threshold
    ensures !Violated(a, GapsOver(beats, threshold)) <==>
            if a.declared then
              && (forall i, j :: Late(beats, i, threshold) && Late(beats, j, threshold) ==> i == j)
              && forall i :: 0 < i < |beats| ==> beats[i].at - beats[i - 1].at <= a.max
            else forall i :: 0 < i < |beats| ==> beats[i].at - beats[i - 1].at <= threshold
  {
    hide GapsOver, Late;
    AnyGapIff(beats, threshold);
    OneGapIff(beats, threshold);
    if |GapsOver(beats, threshold)| == 1 {
      var _ := OnlyGap(beats, threshold);
    }
  }

  /** `part` is a contiguous part of `whole`. */
  ghost predicate Within(part: seq<Gap>, whole: seq<Gap>) {
    exists p, q :: whole == p + part + q
  }

  lemma ViolationSpreads(a: Allowance, part: seq<Gap>, whole: seq<Gap>)
    requires Within(part, whole) && Violated(a, part)
    ensures Violated(a, whole)
  {
    var p, q :| whole == p + part + q;
    if |whole| == 1 {
      assert p == [] && q == [] && whole == part;
    }
  }

  // ---------------------------------------------------------------------------
  // A part of the journal never shows more than the whole
  // ---------------------------------------------------------------------------

  lemma {:induction false} GapsSplit(beats: seq<Beat>, i: nat, m: nat, n: nat, threshold: int)
    requires 0 < i <= m <= n <= |beats|
    ensures GapsBetween(beats, i, n, threshold)
            == GapsBetween(beats, i, m, threshold) + GapsBetween(beats, m, n, threshold)
    decreases m - i
  {
    if i < m {
      GapsSplit(beats, i + 1, m, n, threshold);
      Assoc(if GapAt(beats, i).duration > threshold then [GapAt(beats, i)] else [],
            GapsBetween(beats, i + 1, m, threshold), GapsBetween(beats, m, n, threshold));
    }
  }

  /** The same beats at another place, whatever their checksums. */
  ghost predicate SameBeats(part: seq<Beat>, whole: seq<Beat>, lo: nat) {
    && lo + |part| <= |whole|
    && forall i :: 0 <= i < |part| ==> part[i].at == whole[lo + i].at && part[i].sequence == whole[lo + i].sequence
  }

  lemma {:induction false} GapsShift(part: seq<Beat>, whole: seq<Beat>, lo: nat, i: nat, threshold: int)
    requires SameBeats(part, whole, lo) && 0 < i
    ensures GapsBetween(part, i, |part|, threshold) == GapsBetween(whole, lo + i, lo + |part|, threshold)
    decreases |part| - i
  {
    if i < |part| {
      GapsShift(part, whole, lo, i + 1, threshold);
      assert GapAt(part, i) == GapAt(whole, lo + i);
    }
  }

  /** The stalls of any stretch of beats are a contiguous part of all stalls; of a tail, the last part. */
  lemma GapsOfPart(part: seq<Beat>, whole: seq<Beat>, lo: nat, threshold: int)
    requires SameBeats(part, whole, lo)
    ensures Within(GapsOver(part, threshold), GapsOver(whole, threshold))
    ensures lo + |part| == |whole| && part != [] ==>
              exists p :: GapsOver(whole, threshold) == p + GapsOver(part, threshold)
  {
    var g, all := GapsOver(part, threshold), GapsOver(whole, threshold);
    if |part| < 2 {
      assert all == all + g + [] && all == all + g;
    } else {
      var hi := lo + |part|;
      GapsShift(part, whole, lo, 1, threshold);
      GapsSplit(whole, 1, lo + 1, |whole|, threshold);
      GapsSplit(whole, lo + 1, hi, |whole|, threshold);
      var p, q := GapsBetween(whole, 1, lo + 1, threshold), GapsBetween(whole, hi, |whole|, threshold);
      Assoc(p, g, q);
      assert all == p + g + q;
      if hi == |whole| {
        assert all == p + g;
      }
    }
  }

  // ---------------------------------------------------------------------------
  // Probes and the final verification
  // ---------------------------------------------------------------------------

  /** The beats a probe reports: `n` records and `c` characters are on disk, and it reads `k` lines. */
  ghost function ProbedBeats(rs: seq<Record>, slots: nat, n: nat, c: nat, k: nat): seq<Beat>
    requires slots > 0 && Produced(rs, slots)
    requires n <= |rs| && (c == 0 || (n < |rs| && c <= |RecordText(rs[n])|))
  {
    WindowParses(rs, slots, n, c, k);
    ParseLines(EMPTY, Tail(Split(FileText(rs, 0, n, c), '\n'), k)).value.beats
  }

  lemma {:induction false} BeatsOfSplit(rs: seq<Record>, i: nat, m: nat, n: nat)
    requires i <= m <= n <= |rs|
    ensures BeatsOf(rs, i, n) == BeatsOf(rs, i, m) + BeatsOf(rs, m, n)
    decreases m - i
  {
    if i < m {
      BeatsOfSplit(rs, i + 1, m, n);
      Assoc(if rs[i].Ok? then [BeatOf(rs[i])] else [], BeatsOf(rs, i + 1, m), BeatsOf(rs, m, n));
    }
  }

  /** What a probe reports is a stretch of the beats of any number of records that holds its last. */
  lemma ProbeShowsPart(rs: seq<Record>, slots: nat, n: nat, c: nat, k: nat, m: nat) returns (lo: nat)
    requires slots > 0 && Produced(rs, slots)
    requires n <= |rs| && (c == 0 || (n < |rs| && c <= |RecordText(rs[n])|))
    requires WindowEnd(rs, n, c, k) <= m <= |rs|
    ensures SameBeats(ProbedBeats(rs, slots, n, c, k), BeatsOf(rs, 0, m), lo)
    ensures WindowStart(n, c, k) == 0 && WindowEnd(rs, n, c, k) == m ==>
              lo == 0 && |ProbedBeats(rs, slots, n, c, k)| == |BeatsOf(rs, 0, m)|
  {
    hide RecordText, ParseLines, Split, Tail, FileText, ShowsBeat;
    WindowParses(rs, slots, n, c, k);
    var d, e := WindowStart(n, c, k), WindowEnd(rs, n, c, k);
    lo := |BeatsOf(rs, 0, d)|;
    BeatsOfSplit(rs, 0, d, m);
    BeatsOfSplit(rs, d, e, m);
    StretchIsPart(BeatsOf(rs, 0, d), BeatsOf(rs, d, e), BeatsOf(rs, e, m), ProbedBeats(rs, slots, n, c, k));
  }

  lemma StretchIsPart(x: seq<Beat>, written: seq<Beat>, y: seq<Beat>, probed: seq<Beat>)
    requires AsWritten(probed, written)
    ensures SameBeats(probed, x + (written + y), |x|)
  {
    var all := x + (written + y);
    assert forall i :: 0 <= i < |written| ==> all[|x| + i] == written[i];
  }

  /** Later contents of the same file: more whole records, or more of the one being appended. */
  predicate Later(n: nat, c: nat, n': nat, c': nat) { n < n' || (n == n' && c <= c') }

  /** A later full view ends no earlier. */
  lemma LaterEndsLater(rs: seq<Record>, n: nat, c: nat, k: nat, n': nat, c': nat, k': nat)
    requires n <= |rs| && (c == 0 || n < |rs|) && n' <= |rs| && (c' == 0 || n' < |rs|)
    requires Later(n, c, n', c') && k' >= n' + (if c' > 0 then 1 else 0)
    requires forall i :: 0 <= i < |rs| ==> Writable(rs[i])
    ensures WindowEnd(rs, n, c, k) <= WindowEnd(rs, n', c', k') && WindowStart(n', c', k') == 0
  {
    if n == n' && c > 0 && rs[n].Ok? {
      CutFieldsGrow(Tokens(rs[n]), c, c');
      TokensAreTokens(rs[n]);
      CutFieldsAre(Tokens(rs[n]), c');
    }
  }

  /**
   * A policy broken in any probe, at any moment and through any window, is broken for good: any later view
   * of the whole journal breaks it too, of a writer that has ended or is still appending, with or without
   * a declared freeze.
   */
  lemma BrokenPolicyStaysBroken(rs: seq<Record>, slots: nat, n: nat, c: nat, k: nat, n': nat, c': nat, k': nat,
                                threshold: int, a: Allowance)
    requires slots > 0 && Produced(rs, slots)
    requires n <= |rs| && (c == 0 || (n < |rs| && c <= |RecordText(rs[n])|))
    requires n' <= |rs| && (c' == 0 || (n' < |rs| && c' <= |RecordText(rs[n'])|))
    requires Later(n, c, n', c') && k' >= n' + (if c' > 0 then 1 else 0)
    requires Violated(a, GapsOver(ProbedBeats(rs, slots, n, c, k), threshold))
    ensures Violated(a, GapsOver(ProbedBeats(rs, slots, n', c', k'), threshold))
  {
    hide RecordText, ParseLines, Split, Tail, FileText, ShowsBeat, ProbedBeats, GapsOver, BeatsOf;
    hide WindowEnd, WindowStart;
    LaterEndsLater(rs, n, c, k, n', c', k');
    var m := WindowEnd(rs, n', c', k');
    WindowEndBounds(rs, n', c', k');
    var lo := ProbeShowsPart(rs, slots, n, c, k, m);
    var _ := ProbeShowsPart(rs, slots, n', c', k', m);
    var seen, final := ProbedBeats(rs, slots, n, c, k), ProbedBeats(rs, slots, n', c', k');
    SameThrough(seen, final, BeatsOf(rs, 0, m), lo);
    GapsOfPart(seen, final, lo, threshold);
    ViolationSpreads(a, GapsOver(seen, threshold), GapsOver(final, threshold));
  }

  lemma SameThrough(part: seq<Beat>, other: seq<Beat>, whole: seq<Beat>, lo: nat)
    requires SameBeats(part, whole, lo) && SameBeats(other, whole, 0) && |other| == |whole|
    ensures SameBeats(part, other, lo)
  {
    forall i | 0 <= i < |part|
      ensures part[i].at == other[lo + i].at && part[i].sequence == other[lo + i].sequence
    {
      assert other[lo + i].at == whole[0 + (lo + i)].at;
    }
  }

  lemma WindowEndBounds(rs: seq<Record>, n: nat, c: nat, k: nat)
    requires n <= |rs| && (c == 0 || n < |rs|)
    ensures n <= WindowEnd(rs, n, c, k) <= |rs|
  {
  }

  /** The final read, of up to 2^20 lines, covers every journal that is shorter, whatever is on disk. */
  lemma FinalVerdictCovers(rs: seq<Record>, slots: nat, n: nat, c: nat, k: nat, n': nat, c': nat,
                           threshold: int, a: Allowance)
    requires slots > 0 && Produced(rs, slots)
    requires n <= |rs| && (c == 0 || (n < |rs| && c <= |RecordText(rs[n])|))
    requires n' < 1_048_576 && n' <= |rs| && (c' == 0 || (n' < |rs| && c' <= |RecordText(rs[n'])|))
    requires Later(n, c, n', c') && Violated(a, GapsOver(ProbedBeats(rs, slots, n, c, k), threshold))
    ensures Violated(a, GapsOver(ProbedBeats(rs, slots, n', c', 1_048_576), threshold))
  {
    hide RecordText, ProbedBeats, GapsOver, Violated;
    BrokenPolicyStaysBroken(rs, slots, n, c, k, n', c', 1_048_576, threshold, a);
  }
}
