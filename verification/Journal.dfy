// The heartbeat journal: what the writer program appends (e2e/pkg/framework/io_workload_program.go)
// and how a probe of its tail reads it back (e2e/pkg/framework/io_workload_parse.go).
module Journal {
  import opened Text

  // ---------------------------------------------------------------------------
  // What the writer appends
  // ---------------------------------------------------------------------------

  datatype Record =
    | Start(ms: nat, pid: nat, device: string, identity: string, size: nat)
    | Ok(sequence: nat, slot: nat, ms: nat, crc: string)
    | Fail(ms: nat, message: string)
    | Stopped(sequence: nat, ms: nat)

  function Tokens(r: Record): seq<string> {
    match r
    case Start(ms, pid, device, identity, size) =>
      ["start", NatText(ms), NatText(pid), device, identity, NatText(size)]
    case Ok(sequence, slot, ms, crc) => ["ok", NatText(sequence), NatText(slot), NatText(ms), crc]
    case Fail(ms, message) => ["fail", NatText(ms)]
    case Stopped(sequence, ms) => ["stopped", NatText(sequence), NatText(ms)]
  }

  /** One line of the journal, without its newline. */
  function RecordText(r: Record): string {
    if r.Fail? then Join(Tokens(r), ' ') + " " + r.message else Join(Tokens(r), ' ')
  }

  predicate NoNewline(s: string) { '\n' !in s }

  /** Numbers fit 64 bits, names carry no spaces, a failure says something. */
  predicate Writable(r: Record) {
    match r
    case Start(ms, pid, device, identity, size) =>
      ms <= MAX_INT64 && Token(device) && Token(identity)
    case Ok(sequence, slot, ms, crc) =>
      sequence <= MAX_INT64 && slot <= MAX_INT64 && ms <= MAX_INT64 && Token(crc)
    case Fail(ms, message) => ms <= MAX_INT64 && NoNewline(message) && Fields(message) != []
    case Stopped(sequence, ms) => ms <= MAX_INT64
  }

  /**
   * The journals the writer program produces: one start record, beats numbered from zero around the
   * ring, and one last record; a failure can also be the only record.
   */
  predicate Produced(rs: seq<Record>, slots: nat)
    requires slots > 0
  {
    forall i :: 0 <= i < |rs| ==>
      && Writable(rs[i])
      && (rs[i].Start? ==> i == 0)
      && (rs[i].Ok? ==> i > 0 && rs[i].sequence == i - 1 && rs[i].slot == (i - 1) % slots)
      && (rs[i].Fail? || rs[i].Stopped? ==> i == |rs| - 1)
  }

  /** What an append in progress has put behind the first `n` records: `c` characters of the next. */
  function Cut(rs: seq<Record>, n: nat, c: nat): string
    requires n <= |rs| && (c == 0 || (n < |rs| && c <= |RecordText(rs[n])|))
  {
    if c == 0 then "" else RecordText(rs[n])[..c]
  }

  /** The file from record `i` on, holding `n` whole records and a cut one. */
  function FileText(rs: seq<Record>, i: nat, n: nat, c: nat): string
    requires i <= n <= |rs| && (c == 0 || (n < |rs| && c <= |RecordText(rs[n])|))
    decreases n - i
  {
    if i == n then Cut(rs, n, c) else RecordText(rs[i]) + ['\n'] + FileText(rs, i + 1, n, c)
  }

  // ---------------------------------------------------------------------------
  // What a probe reads
  // ---------------------------------------------------------------------------

  /** `tail -n k` on the lines of a file; the last element is what follows the last newline. */
  function Tail(lines: seq<string>, k: nat): seq<string>
    requires lines != []
  {
    var n := |lines| - 1;
    if lines[n] == "" then (if k < n then lines[n - k..] else lines)
    else if k < n + 1 then (if k == 0 then [""] else lines[n + 1 - k..])
    else lines
  }

  datatype Beat = Beat(sequence: int, slot: int, at: int, checksum: string)

  datatype Termination = Termination(failed: bool, at: int, message: string)

  datatype Log = Log(started: bool, beats: seq<Beat>, termination: Option<Termination>)

  const EMPTY := Log(false, [], None)

  datatype Outcome<T> = Parsed(value: T) | Malformed | NotMonotonic

  /** A timestamp in milliseconds; small values are seconds. */
  function ParseUnixMillis(s: string): Option<int> {
    match ParseInt(s)
    case None => None
    case Some(v) => if v < 100_000_000_000 then Some(v * 1000) else Some(v)
  }

  function Millis(ms: nat): int { if ms < 100_000_000_000 then ms * 1000 else ms }

  function ParseBeat(fields: seq<string>): Outcome<Beat> {
    if |fields| < 5 then Malformed
    else
      var sequence, slot, at := ParseInt(fields[1]), ParseInt(fields[2]), ParseUnixMillis(fields[3]);
      if sequence.None? || slot.None? || at.None? then Malformed
      else Parsed(Beat(sequence.value, slot.value, at.value, fields[4]))
  }

  function AppendRecord(log: Log, line: string): Outcome<Log> {
    var fields := Fields(line);
    if fields == [] then Malformed
    else if fields[0] == "start" then
      if |fields| < 2 || ParseUnixMillis(fields[1]).None? then Malformed else Parsed(log.(started := true))
    else if fields[0] == "ok" then
      match ParseBeat(fields)
      case Parsed(beat) =>
        if log.beats != [] && beat.sequence <= log.beats[|log.beats| - 1].sequence then NotMonotonic
        else Parsed(log.(beats := log.beats + [beat]))
      case _ => Malformed
    else if fields[0] == "fail" then
      if |fields| < 3 || ParseUnixMillis(fields[1]).None? then Malformed
      else
        var at := ParseUnixMillis(fields[1]).value;
        Parsed(log.(termination := Some(Termination(true, at, Join(fields[2..], ' ')))))
    else if fields[0] == "stopped" then
      if |fields| < 3 || ParseUnixMillis(fields[2]).None? then Malformed
      else Parsed(log.(termination := Some(Termination(false, ParseUnixMillis(fields[2]).value,
                                                       "writer stopped on request after " + fields[1] + " writes"))))
    else Malformed
  }

  /** The journal after `lines`; only the last of them may be malformed. */
  function ParseLines(log: Log, lines: seq<string>): Outcome<Log>
    decreases |lines|
  {
    if lines == [] then Parsed(log)
    else if Fields(lines[0]) == [] then ParseLines(log, lines[1..])
    else
      match AppendRecord(log, lines[0])
      case Parsed(next) => ParseLines(next, lines[1..])
      case Malformed => if |lines| == 1 then Parsed(log) else Malformed
      case NotMonotonic => NotMonotonic
  }

  /** A trailing newline does not start another line. */
  function WithoutLastEmpty(lines: seq<string>): seq<string>
    requires lines != []
  {
    if lines[|lines| - 1] == "" then lines[..|lines| - 1] else lines
  }

  function ParseText(text: string): Outcome<Log> { ParseLines(EMPTY, WithoutLastEmpty(Split(text, '\n'))) }

  method ParseJournal(text: string) returns (r: Outcome<Log>)
    ensures r == ParseText(text)
  {
    hide Split, AppendRecord, Fields;
    var lines := Split(text, '\n');
    if lines[|lines| - 1] == "" {
      lines := lines[..|lines| - 1];
    }
    var log := EMPTY;
    assert lines[0..] == lines;
    for i := 0 to |lines|
      invariant ParseLines(log, lines[i..]) == ParseLines(EMPTY, lines)
    {
      assert lines[i..][1..] == lines[i + 1..];
      if Fields(lines[i]) == [] {
        continue;
      }
      match AppendRecord(log, lines[i])
      case Parsed(next) =>
        log := next;
      case Malformed =>
        if i != |lines| - 1 {
          return Malformed;
        }
      case NotMonotonic =>
        return NotMonotonic;
    }
    return Parsed(log);
  }

  // ---------------------------------------------------------------------------
  // One whole record
  // ---------------------------------------------------------------------------

  function BeatOf(r: Record): Beat
    requires r.Ok?
  {
    Beat(r.sequence, r.slot, Millis(r.ms), r.crc)
  }

  function StopMessage(sequence: nat): string {
    "writer stopped on request after " + NatText(sequence) + " writes"
  }

  /** What a whole record adds to the journal. */
  function Absorb(log: Log, r: Record): Log {
    match r
    case Start(_, _, _, _, _) => log.(started := true)
    case Ok(_, _, _, _) => log.(beats := log.beats + [BeatOf(r)])
    case Fail(ms, message) => log.(termination := Some(Termination(true, Millis(ms), Join(Fields(message), ' '))))
    case Stopped(sequence, ms) => log.(termination := Some(Termination(false, Millis(ms), StopMessage(sequence))))
  }

  lemma TokensAreTokens(r: Record)
    requires Writable(r)
    ensures forall i :: 0 <= i < |Tokens(r)| ==> Token(Tokens(r)[i])
  {
    assert Token("start") && Token("ok") && Token("fail") && Token("stopped");
    assert forall n: nat :: Token(NatText(n));
  }

  lemma MillisParse(ms: nat)
    requires ms <= MAX_INT64
    ensures ParseUnixMillis(NatText(ms)) == Some(Millis(ms))
  {
    ParseNat(ms);
  }

  /**
   * A clock that prints milliseconds is read exactly, but for the first three years after the epoch; one that
   * prints seconds is read to the second until the year 5138.
   */
  lemma BothClocksRead(ms: nat)
    requires ms <= MAX_INT64
    ensures ParseUnixMillis(NatText(ms)) == Some(ms) <==> ms >= 100_000_000_000 || ms == 0
    ensures ParseUnixMillis(NatText(ms / 1000)) == Some(ms - ms % 1000) <==> ms < 100_000_000_000_000
  {
    ParseNat(ms);
    ParseNat(ms / 1000);
  }

  lemma FailFields(t: string, m: string)
    requires Token(t)
    ensures Fields("fail" + " " + t + " " + m) == ["fail", t] + Fields(m)
  {
    hide Fields;
    assert Token("fail");
    assert "fail" + " " + t + " " + m == "fail" + " " + (t + " " + m);
    FieldsSpace("fail", t + " " + m);
    FieldsSpace(t, m);
  }

  lemma FailHead(r: Record)
    requires r.Fail?
    ensures Join(Tokens(r), ' ') == "fail" + " " + NatText(r.ms)
  {
    assert Tokens(r)[1..] == [NatText(r.ms)];
  }

  /** Fields of a record cut after `c` characters. */
  lemma RecordFields(r: Record, c: nat)
    requires Writable(r) && c <= |RecordText(r)|
    ensures var f := Fields(RecordText(r)[..c]);
            if r.Fail? && c > |Join(Tokens(r), ' ')| then
              f == Tokens(r) + Fields(r.message[..c - |Join(Tokens(r), ' ')| - 1])
            else f == CutFields(Tokens(r), c)
  {
    hide Fields, Join, NatText;
    TokensAreTokens(r);
    var s, h := RecordText(r), Join(Tokens(r), ' ');
    if r.Fail? && c > |h| {
      FailHead(r);
      var m := r.message[..c - |h| - 1];
      assert s[..c] == h + " " + m;
      FailFields(NatText(r.ms), m);
    } else {
      assert s[..c] == h[..c];
      FieldsOfCut(Tokens(r), c);
    }
  }

  lemma WholeFields(r: Record)
    requires Writable(r)
    ensures Fields(RecordText(r)) == if r.Fail? then Tokens(r) + Fields(r.message) else Tokens(r)
  {
    hide Fields, Join, NatText;
    var s, h := RecordText(r), Join(Tokens(r), ' ');
    RecordFields(r, |s|);
    assert s[..|s|] == s;
    if r.Fail? {
      assert r.message[..|s| - |h| - 1] == r.message;
    } else {
      TokensAreTokens(r);
      CutNothing(Tokens(r));
    }
  }

  lemma WholeRecord(log: Log, r: Record)
    requires Writable(r)
    requires r.Ok? && log.beats != [] ==> log.beats[|log.beats| - 1].sequence < r.sequence
    ensures Fields(RecordText(r)) != [] && AppendRecord(log, RecordText(r)) == Parsed(Absorb(log, r))
  {
    hide Fields, Join, NatText, RecordText, ParseInt, ParseUnixMillis;
    WholeFields(r);
    MillisParse(r.ms);
    if r.Fail? {
      assert (Tokens(r) + Fields(r.message))[2..] == Fields(r.message);
    } else if r.Ok? {
      ParseNat(r.sequence);
      ParseNat(r.slot);
    }
  }

  // ---------------------------------------------------------------------------
  // A record cut short
  // ---------------------------------------------------------------------------

  /** `b` is the beat of `r`, its checksum possibly cut short. */
  ghost predicate TornBeat(b: Beat, r: Record) {
    r.Ok? && b.checksum <= r.crc && b == BeatOf(r).(checksum := b.checksum)
  }

  /** A beat cut after `c` characters is a beat already: its checksum has begun. */
  predicate ShowsBeat(r: Record, c: nat) { r.Ok? && |CutFields(Tokens(r), c)| == 5 }

  /** The line adds a beat iff its checksum has begun; it is then the written one but for the checksum. */
  lemma TornRecord(log: Log, r: Record, c: nat)
    requires Writable(r) && 0 < c <= |RecordText(r)|
    requires r.Ok? && log.beats != [] ==> log.beats[|log.beats| - 1].sequence < r.sequence
    ensures Fields(RecordText(r)[..c]) != [] && AppendRecord(log, RecordText(r)[..c]) != NotMonotonic
    ensures !ShowsBeat(r, c) && AppendRecord(log, RecordText(r)[..c]).Parsed? ==>
              AppendRecord(log, RecordText(r)[..c]).value.beats == log.beats
    ensures ShowsBeat(r, c) ==>
              exists b :: TornBeat(b, r)
                          && AppendRecord(log, RecordText(r)[..c]) == Parsed(log.(beats := log.beats + [b]))
  {
    hide Fields, Join, NatText, RecordText, ParseInt, ParseUnixMillis, CutFields;
    RecordFields(r, c);
    TokensAreTokens(r);
    CutFieldsAre(Tokens(r), c);
    var f := Fields(RecordText(r)[..c]);
    assert f != [] && f[0] <= Tokens(r)[0];
    if r.Ok? {
      MillisParse(r.ms);
      ParseNat(r.sequence);
      ParseNat(r.slot);
      if |f| == 5 {
        assert TornBeat(BeatOf(r).(checksum := f[4]), r);
      }
    }
  }

  /**
   * A cut last word is never taken for another: a failure keeps its time and loses only the end of its
   * message, a stop keeps its count, and its time is read from what there is of it.
   */
  lemma TornTermination(log: Log, r: Record, c: nat)
    requires Writable(r) && 0 < c <= |RecordText(r)| && AppendRecord(log, RecordText(r)[..c]).Parsed?
    ensures var next := AppendRecord(log, RecordText(r)[..c]).value;
            match r
            case Fail(ms, message) =>
              exists m :: m <= message && next.termination == Some(Termination(true, Millis(ms), Join(Fields(m), ' ')))
            case Stopped(sequence, ms) =>
              exists t :: t <= NatText(ms) && ParseUnixMillis(t).Some?
                          && next.termination
                             == Some(Termination(false, ParseUnixMillis(t).value, StopMessage(sequence)))
            case _ => next.termination == log.termination
  {
    hide Fields, Join, NatText, RecordText, ParseInt, ParseUnixMillis, CutFields;
    RecordFields(r, c);
    TokensAreTokens(r);
    CutFieldsAre(Tokens(r), c);
    var h := Join(Tokens(r), ' ');
    var f := Fields(RecordText(r)[..c]);
    assert f != [] && f[0] <= Tokens(r)[0];
    match r
    case Fail(ms, message) =>
      TornFailure(r, c);
      MillisParse(ms);
      var m := message[..c - |h| - 1];
      assert f[2..] == Fields(m);
    case Stopped(sequence, ms) =>
      assert f[2] <= NatText(ms);
    case _ =>
  }

  /** A cut failure that is accepted has its message begun. */
  lemma TornFailure(r: Record, c: nat)
    requires Writable(r) && r.Fail? && 0 < c <= |RecordText(r)| && |Fields(RecordText(r)[..c])| >= 3
    ensures |Join(Tokens(r), ' ')| < c <= |Join(Tokens(r), ' ')| + 1 + |r.message|
  {
    hide Fields, Join, NatText, CutFields;
    RecordFields(r, c);
    TokensAreTokens(r);
    CutFieldsAre(Tokens(r), c);
  }

  // ---------------------------------------------------------------------------
  // A window of the file
  // ---------------------------------------------------------------------------

  function LinesOf(rs: seq<Record>, i: nat, n: nat): seq<string>
    requires i <= n <= |rs|
    decreases n - i
  {
    if i == n then [] else [RecordText(rs[i])] + LinesOf(rs, i + 1, n)
  }

  /** The beats among records `i` to `n`. */
  function BeatsOf(rs: seq<Record>, i: nat, n: nat): seq<Beat>
    requires i <= n <= |rs|
    decreases n - i
  {
    if i == n then [] else (if rs[i].Ok? then [BeatOf(rs[i])] else []) + BeatsOf(rs, i + 1, n)
  }

  lemma {:induction false} JoinNoNewline(tokens: seq<string>)
    requires forall i :: 0 <= i < |tokens| ==> Token(tokens[i])
    ensures NoNewline(Join(tokens, ' '))
  {
    if |tokens| > 0 {
      assert IsSpace('\n');
      assert NoNewline(tokens[0]);
      if |tokens| > 1 {
        JoinNoNewline(tokens[1..]);
      }
    }
  }

  lemma RecordNoNewline(r: Record)
    requires Writable(r)
    ensures NoNewline(RecordText(r))
  {
    TokensAreTokens(r);
    JoinNoNewline(Tokens(r));
  }

  lemma {:induction false} FileLines(rs: seq<Record>, i: nat, n: nat, c: nat)
    requires forall k :: 0 <= k < |rs| ==> Writable(rs[k])
    requires i <= n <= |rs| && (c == 0 || (n < |rs| && c <= |RecordText(rs[n])|))
    ensures Split(FileText(rs, i, n, c), '\n') == LinesOf(rs, i, n) + [Cut(rs, n, c)]
    decreases n - i
  {
    hide RecordText;
    if i == n {
      CutNoNewline(rs, n, c);
      SplitLine(Cut(rs, n, c), "", '\n');
    } else {
      RecordNoNewline(rs[i]);
      FileLines(rs, i + 1, n, c);
      SplitLine(RecordText(rs[i]), FileText(rs, i + 1, n, c), '\n');
      Assoc([RecordText(rs[i])], LinesOf(rs, i + 1, n), [Cut(rs, n, c)]);
    }
  }

  lemma CutNoNewline(rs: seq<Record>, n: nat, c: nat)
    requires forall k :: 0 <= k < |rs| ==> Writable(rs[k])
    requires n <= |rs| && (c == 0 || (n < |rs| && c <= |RecordText(rs[n])|))
    ensures NoNewline(Cut(rs, n, c))
  {
    if c > 0 {
      RecordNoNewline(rs[n]);
    }
  }

  lemma {:induction false} LinesFrom(rs: seq<Record>, i: nat, d: nat, n: nat)
    requires i <= d <= n <= |rs|
    ensures |LinesOf(rs, i, n)| == n - i && LinesOf(rs, i, n)[d - i..] == LinesOf(rs, d, n)
    decreases n - i
  {
    hide RecordText;
    if i < d {
      LinesFrom(rs, i + 1, d, n);
    } else if i < n {
      LinesFrom(rs, i + 1, i + 1, n);
    }
  }

  /** The first whole record a window of `k` lines shows. */
  function WindowStart(n: nat, c: nat, k: nat): nat {
    var whole := if c == 0 then k else if k == 0 then 0 else k - 1;
    if whole < n then n - whole else 0
  }

  lemma WindowLines(rs: seq<Record>, n: nat, c: nat, k: nat)
    requires forall i :: 0 <= i < |rs| ==> Writable(rs[i])
    requires n <= |rs| && (c == 0 || (n < |rs| && c <= |RecordText(rs[n])|))
    ensures Tail(Split(FileText(rs, 0, n, c), '\n'), k)
            == LinesOf(rs, WindowStart(n, c, k), n) + [if k == 0 then "" else Cut(rs, n, c)]
  {
    hide RecordText;
    FileLines(rs, 0, n, c);
    var d := WindowStart(n, c, k);
    LinesFrom(rs, 0, d, n);
    var lines := LinesOf(rs, 0, n) + [Cut(rs, n, c)];
    assert lines[d..] == LinesOf(rs, d, n) + [Cut(rs, n, c)];
    assert lines[n] == Cut(rs, n, c) && (c > 0 ==> lines[n] != "");
    assert lines[n..] == [lines[n]];
  }

  lemma ParseStep(log: Log, r: Record, lines: seq<string>)
    requires Writable(r)
    requires r.Ok? && log.beats != [] ==> log.beats[|log.beats| - 1].sequence < r.sequence
    ensures ParseLines(log, [RecordText(r)] + lines) == ParseLines(Absorb(log, r), lines)
  {
    WholeRecord(log, r);
    var all := [RecordText(r)] + lines;
    assert all[0] == RecordText(r) && all[1..] == lines;
  }

  lemma {:induction false} ParseWindow(log: Log, rs: seq<Record>, slots: nat, d: nat, n: nat, line: string)
    returns (end: Log)
    requires slots > 0 && Produced(rs, slots) && d <= n <= |rs|
    requires log.beats != [] ==> log.beats[|log.beats| - 1].sequence <= d - 2
    ensures end.beats == log.beats + BeatsOf(rs, d, n)
    ensures end.beats != [] ==> end.beats[|end.beats| - 1].sequence <= n - 2
    ensures ParseLines(log, LinesOf(rs, d, n) + [line]) == ParseLines(end, [line])
    decreases n - d
  {
    hide RecordText, ParseLines, StopMessage, Fields, Join, NatText;
    if d == n {
      end := log;
      assert [] + [line] == [line] && log.beats + [] == log.beats;
    } else {
      var r, rest := rs[d], LinesOf(rs, d + 1, n);
      ParseStep(log, r, rest + [line]);
      end := ParseWindow(Absorb(log, r), rs, slots, d + 1, n, line);
      Assoc([RecordText(r)], rest, [line]);
      Assoc(log.beats, if r.Ok? then [BeatOf(r)] else [], BeatsOf(rs, d + 1, n));
      assert log.beats + [] == log.beats;
    }
  }

  /** Behind how many records the beats of a window end: a torn one that shows its beat counts. */
  function WindowEnd(rs: seq<Record>, n: nat, c: nat, k: nat): nat
    requires n <= |rs| && (c == 0 || n < |rs|)
  {
    if c > 0 && k > 0 && ShowsBeat(rs[n], c) then n + 1 else n
  }

  /** The same beats but for the checksum of the last, which may be cut. */
  ghost predicate AsWritten(beats: seq<Beat>, written: seq<Beat>) {
    && |beats| == |written|
    && forall i :: 0 <= i < |beats| ==>
         && beats[i].checksum <= written[i].checksum && beats[i] == written[i].(checksum := beats[i].checksum)
         && (i < |beats| - 1 ==> beats[i] == written[i])
  }

  /**
   * Every window of every journal the writer can have on disk, caught anywhere inside an append,
   * parses: into the beats of the whole records it shows, and of the record being appended once its
   * checksum has begun. Sequence, slot and time are the written ones; only the last checksum may be cut.
   */
  lemma WindowParses(rs: seq<Record>, slots: nat, n: nat, c: nat, k: nat)
    requires slots > 0 && Produced(rs, slots)
    requires n <= |rs| && (c == 0 || (n < |rs| && c <= |RecordText(rs[n])|))
    ensures var result := ParseLines(EMPTY, Tail(Split(FileText(rs, 0, n, c), '\n'), k));
            && result.Parsed?
            && AsWritten(result.value.beats, BeatsOf(rs, WindowStart(n, c, k), WindowEnd(rs, n, c, k)))
  {
    hide RecordText, ParseLines, Split, Tail, FileText, ShowsBeat, AppendRecord;
    WindowLines(rs, n, c, k);
    var d := WindowStart(n, c, k);
    var line := if k == 0 then "" else Cut(rs, n, c);
    var end := ParseWindow(EMPTY, rs, slots, d, n, line);
    assert [] + BeatsOf(rs, d, n) == BeatsOf(rs, d, n);
    LastLine(end, line);
    if line == "" {
      NoFields();
    } else {
      WindowLast(end, rs, slots, d, n, c);
    }
  }

  /** The record being appended, behind the whole ones. */
  lemma WindowLast(end: Log, rs: seq<Record>, slots: nat, d: nat, n: nat, c: nat)
    requires slots > 0 && Produced(rs, slots) && d <= n < |rs| && 0 < c <= |RecordText(rs[n])|
    requires end.beats == BeatsOf(rs, d, n)
    requires end.beats != [] ==> end.beats[|end.beats| - 1].sequence <= n - 2
    ensures var r, line := AppendRecord(end, RecordText(rs[n])[..c]), RecordText(rs[n])[..c];
            && Fields(line) != [] && r != NotMonotonic
            && AsWritten(if r.Parsed? then r.value.beats else end.beats,
                         BeatsOf(rs, d, if ShowsBeat(rs[n], c) then n + 1 else n))
  {
    hide RecordText, ShowsBeat, AppendRecord, Fields, AsWritten, TornBeat, BeatsOf, Writable;
    TornRecord(end, rs[n], c);
    SameIsAsWritten(end.beats);
    if ShowsBeat(rs[n], c) {
      BeatIsOk(rs[n], c);
      BeatsOfLast(rs, d, n);
      var b :| TornBeat(b, rs[n])
               && AppendRecord(end, RecordText(rs[n])[..c]) == Parsed(end.(beats := end.beats + [b]));
      TornIsAsWritten(end.beats, b, rs[n]);
    }
  }

  lemma SameIsAsWritten(beats: seq<Beat>)
    ensures AsWritten(beats, beats)
  {
  }

  lemma TornIsAsWritten(beats: seq<Beat>, b: Beat, r: Record)
    requires TornBeat(b, r)
    ensures AsWritten(beats + [b], beats + [BeatOf(r)])
  {
  }

  lemma BeatIsOk(r: Record, c: nat)
    requires ShowsBeat(r, c)
    ensures r.Ok?
  {
  }

  lemma {:induction false} BeatsOfLast(rs: seq<Record>, i: nat, n: nat)
    requires i <= n < |rs| && rs[n].Ok?
    ensures BeatsOf(rs, i, n + 1) == BeatsOf(rs, i, n) + [BeatOf(rs[n])]
    decreases n - i
  {
    if i < n {
      BeatsOfLast(rs, i + 1, n);
      Assoc(if rs[i].Ok? then [BeatOf(rs[i])] else [], BeatsOf(rs, i + 1, n), [BeatOf(rs[n])]);
    }
  }

  lemma LastLine(log: Log, line: string)
    ensures ParseLines(log, [line]) ==
            if Fields(line) == [] || AppendRecord(log, line) == Malformed then Parsed(log) else AppendRecord(log, line)
  {
    assert [line][1..] == [];
  }

  // ---------------------------------------------------------------------------
  // Any text
  // ---------------------------------------------------------------------------

  predicate Increasing(beats: seq<Beat>) {
    forall i, j :: 0 <= i < j < |beats| ==> beats[i].sequence < beats[j].sequence
  }

  /** Whatever text is accepted, its beats are in strictly increasing sequence. */
  lemma {:induction false} AcceptedBeatsIncrease(log: Log, lines: seq<string>)
    requires Increasing(log.beats)
    ensures ParseLines(log, lines).Parsed? ==> Increasing(ParseLines(log, lines).value.beats)
    decreases |lines|
  {
    if lines != [] {
      if Fields(lines[0]) == [] {
        AcceptedBeatsIncrease(log, lines[1..]);
      } else if AppendRecord(log, lines[0]).Parsed? {
        AppendIncreases(log, lines[0]);
        AcceptedBeatsIncrease(AppendRecord(log, lines[0]).value, lines[1..]);
      }
    }
  }

  lemma AppendIncreases(log: Log, line: string)
    requires Increasing(log.beats)
    ensures AppendRecord(log, line).Parsed? ==> Increasing(AppendRecord(log, line).value.beats)
  {
    hide Fields, ParseBeat, ParseUnixMillis;
  }

  // ---------------------------------------------------------------------------
  // From the probe's output to the journal text
  // ---------------------------------------------------------------------------

  /** The probe's reader gives every line behind its journal mark its newline back. */
  function Reassembled(lines: seq<string>): string {
    if lines == [] then "" else lines[0] + ['\n'] + Reassembled(lines[1..])
  }

  lemma {:induction false} SplitReassembled(lines: seq<string>)
    requires forall i :: 0 <= i < |lines| ==> NoNewline(lines[i])
    ensures Split(Reassembled(lines), '\n') == lines + [""]
  {
    if lines != [] {
      SplitReassembled(lines[1..]);
      SplitLine(lines[0], Reassembled(lines[1..]), '\n');
      assert lines == [lines[0]] + lines[1..];
      Assoc([lines[0]], lines[1..], [""]);
    }
  }

  /** So the text it hands to the journal parser has exactly the lines that were printed. */
  lemma ReassembledParses(lines: seq<string>)
    requires forall i :: 0 <= i < |lines| ==> NoNewline(lines[i])
    ensures ParseText(Reassembled(lines)) == ParseLines(EMPTY, lines)
  {
    hide Split, ParseLines;
    SplitReassembled(lines);
    assert (lines + [""])[..|lines|] == lines;
  }

  lemma {:induction false} SplitHasNoNewline(s: string)
    ensures forall i :: 0 <= i < |Split(s, '\n')| ==> NoNewline(Split(s, '\n')[i])
  {
    if s != [] {
      SplitHasNoNewline(s[1..]);
      var r := Split(s[1..], '\n');
      assert NoNewline(r[0]);
    }
  }

  /** A probe of any file is parsed as the lines that tail shows of it. */
  lemma ProbeParsesWindow(file: string, k: nat)
    ensures ParseText(Reassembled(Tail(Split(file, '\n'), k))) == ParseLines(EMPTY, Tail(Split(file, '\n'), k))
  {
    hide ParseText, Reassembled, ParseLines, Split;
    var lines := Split(file, '\n');
    SplitHasNoNewline(file);
    ReassembledParses(Tail(lines, k));
  }
}
