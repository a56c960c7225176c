// The samples of one family in a whole Prometheus text exposition
// (e2e/pkg/framework/controller_metrics.go). Reading a number is the parameter `float`.
module Exposition {
  import opened Text
  import opened Metrics
  import opened LabelGrammar

  datatype MetricSample<F> = MetricSample(name: string, labels: Labels, value: F)

  // ---------------------------------------------------------------------------
  // strings.TrimSpace
  // ---------------------------------------------------------------------------

  function TrimLeft(s: string): string {
    if s != [] && IsSpace(s[0]) then TrimLeft(s[1..]) else s
  }

  function TrimRight(s: string): string {
    if s != [] && IsSpace(s[|s| - 1]) then TrimRight(s[..|s| - 1]) else s
  }

  function Trim(s: string): string { TrimRight(TrimLeft(s)) }

  lemma {:induction false} TrimLeftOf(x: string, s: string)
    requires Spaces(x) && (s == [] || !IsSpace(s[0]))
    ensures TrimLeft(x + s) == s
  {
    if x == [] {
      assert x + s == s;
    } else {
      assert (x + s)[1..] == x[1..] + s;
      TrimLeftOf(x[1..], s);
    }
  }

  lemma {:induction false} TrimRightOf(s: string, y: string)
    requires Spaces(y) && (s == [] || !IsSpace(s[|s| - 1]))
    ensures TrimRight(s + y) == s
  {
    if y == [] {
      assert s + y == s;
    } else {
      assert (s + y)[..|s + y| - 1] == s + y[..|y| - 1];
      TrimRightOf(s, y[..|y| - 1]);
    }
  }

  lemma TrimPadded(x: string, s: string, y: string)
    requires Spaces(x) && Spaces(y)
    requires s != [] && !IsSpace(s[0]) && !IsSpace(s[|s| - 1])
    ensures Trim(x + s + y) == s
  {
    Assoc(x, s, y);
    TrimLeftOf(x, s + y);
    TrimRightOf(s, y);
  }

  lemma TrimBlank(x: string)
    requires Spaces(x)
    ensures Trim(x) == ""
  {
    TrimLeftOf(x, "");
    assert x + "" == x;
  }

  // ---------------------------------------------------------------------------
  // Parsing
  // ---------------------------------------------------------------------------

  /** The line carries a sample of the family, whether or not it can be read. */
  predicate Belongs(line: string, name: string) {
    && line != "" && line[0] != '#' && name <= line
    && (|line| > |name| ==> line[|name|] == '{' || line[|name|] == ' ' || line[|name|] == '\t')
  }

  /** Only the whole name counts: what follows it is nothing, a brace or a blank. Comments belong to no family. */
  lemma BelongsMeans(line: string, name: string)
    ensures Belongs(line, name) <==>
            && line != "" && line[0] != '#'
            && exists rest :: line == name + rest && (rest == "" || rest[0] in "{ \t")
  {
    if name <= line {
      assert line == name + line[|name|..];
    }
  }

  function NumberOf<F>(float: string -> Option<F>, rest: string): Result<F> {
    var fields := Fields(rest);
    if |fields| == 0 then Err(NoSampleValue)
    else if |fields| > 2 then Err(TooManyFields)
    else match float(fields[0])
         case None => Err(BadNumber)
         case Some(v) => Ok(v)
  }

  /** What follows the family name on a sample line. */
  function SampleOf<F>(float: string -> Option<F>, name: string, rest: string): Result<MetricSample<F>> {
    if rest != "" && rest[0] == '{' then
      match LabelsOf(rest[1..], map[])
      case Err(e) => Err(e)
      case Ok(p) =>
        match NumberOf(float, p.1)
        case Err(e) => Err(e)
        case Ok(v) => Ok(MetricSample(name, p.0, v))
    else
      match NumberOf(float, rest)
      case Err(e) => Err(e)
      case Ok(v) => Ok(MetricSample(name, map[], v))
  }

  function SamplesOf<F>(float: string -> Option<F>, name: string, lines: seq<string>): Result<seq<MetricSample<F>>> {
    if lines == [] then Ok([])
    else
      var line := Trim(lines[0]);
      if !Belongs(line, name) then SamplesOf(float, name, lines[1..])
      else match SampleOf(float, name, line[|name|..])
           case Err(e) => Err(e)
           case Ok(s) =>
             match SamplesOf(float, name, lines[1..])
             case Err(e) => Err(e)
             case Ok(out) => Ok([s] + out)
  }

  method ParseMetricSampleLine<F>(float: string -> Option<F>, name: string, rest: string)
    returns (r: Result<MetricSample<F>>)
    ensures r == SampleOf(float, name, rest)
  {
    hide LabelsOf, Fields;
    var labels: Labels, tail := map[], rest;
    if rest != "" && rest[0] == '{' {
      var parsed := ParseLabels(rest);
      if parsed.Err? {
        return Err(parsed.error);
      }
      labels, tail := parsed.value.0, rest[parsed.value.1..];
    }
    var fields := Fields(tail);
    if |fields| == 0 {
      return Err(NoSampleValue);
    }
    if |fields| > 2 {
      return Err(TooManyFields);
    }
    var value := float(fields[0]);
    if value.None? {
      return Err(BadNumber);
    }
    return Ok(MetricSample(name, labels, value.value));
  }

  ghost function After<T>(out: seq<T>, rest: Result<seq<T>>): Result<seq<T>> {
    match rest
    case Err(e) => Err(e)
    case Ok(more) => Ok(out + more)
  }

  method ParseMetricSamples<F>(float: string -> Option<F>, text: string, name: string)
    returns (r: Result<seq<MetricSample<F>>>)
    ensures r == SamplesOf(float, name, Split(text, '\n'))
  {
    hide SampleOf, Belongs, Trim, Split;
    var lines := Split(text, '\n');
    var out: seq<MetricSample<F>> := [];
    ghost var whole := SamplesOf(float, name, lines);
    assert whole.Ok? ==> [] + whole.value == whole.value;
    assert lines[0..] == lines;
    for i := 0 to |lines|
      invariant whole == After(out, SamplesOf(float, name, lines[i..]))
    {
      var line := Trim(lines[i]);
      assert lines[i..][1..] == lines[i + 1..];
      if Belongs(line, name) {
        BelongsPrefix(line, name);
        var sample := ParseMetricSampleLine(float, name, line[|name|..]);
        if sample.Err? {
          return Err(sample.error);
        }
        ghost var rest := SamplesOf(float, name, lines[i + 1..]);
        assert rest.Ok? ==> out + ([sample.value] + rest.value) == out + [sample.value] + rest.value;
        out := out + [sample.value];
      }
    }
    assert out + [] == out;
    return Ok(out);
  }

  lemma BelongsPrefix(line: string, name: string)
    requires Belongs(line, name)
    ensures |name| <= |line|
  {
  }

  /** A family line that cannot be read fails the whole parse; otherwise each one gives a sample. */
  lemma {:induction false} NothingIsDropped<F>(float: string -> Option<F>, name: string, lines: seq<string>)
    ensures SamplesOf(float, name, lines).Ok? <==> forall i :: 0 <= i < |lines| ==> Readable(float, name, lines[i])
    ensures SamplesOf(float, name, lines).Ok? ==> |SamplesOf(float, name, lines).value| == FamilyLines(name, lines)
  {
    hide SampleOf, Belongs, Trim;
    if lines != [] {
      NothingIsDropped(float, name, lines[1..]);
      assert forall i :: 0 < i < |lines| ==> lines[i] == lines[1..][i - 1];
      ReadableStep(float, name, lines);
      if Belongs(Trim(lines[0]), name) {
        BelongsPrefix(Trim(lines[0]), name);
      }
    }
  }

  lemma ReadableStep<F>(float: string -> Option<F>, name: string, lines: seq<string>)
    requires lines != []
    ensures (forall i :: 0 <= i < |lines| ==> Readable(float, name, lines[i]))
       <==> Readable(float, name, lines[0])
            && forall i :: 0 <= i < |lines[1..]| ==> Readable(float, name, lines[1..][i])
  {
    hide Readable;
    if forall i :: 0 <= i < |lines| ==> Readable(float, name, lines[i]) {
      assert forall i :: 0 <= i < |lines[1..]| ==> lines[1..][i] == lines[i + 1];
    }
    if Readable(float, name, lines[0]) && forall i :: 0 <= i < |lines[1..]| ==> Readable(float, name, lines[1..][i]) {
      assert forall i :: 0 < i < |lines| ==> lines[i] == lines[1..][i - 1];
    }
  }

  ghost predicate Readable<F>(float: string -> Option<F>, name: string, line: string) {
    Belongs(Trim(line), name) ==> SampleOf(float, name, Trim(line)[|name|..]).Ok?
  }

  ghost function FamilyLines(name: string, lines: seq<string>): nat {
    if lines == [] then 0 else (if Belongs(Trim(lines[0]), name) then 1 else 0) + FamilyLines(name, lines[1..])
  }

  // ---------------------------------------------------------------------------
  // Expositions
  // ---------------------------------------------------------------------------

  datatype Stamp = NoStamp | Stamp(gap: string, text: string)

  datatype LabelSet = NoLabels | Labelled(space: string, body: Body)

  datatype Line =
    | Blank(spaces: string)
    | Comment(lead: string, text: string)
    | Sample(lead: string, name: string, labels: LabelSet, gap: string, value: string, stamp: Stamp, trail: string)

  predicate NameChar(c: char) { IsDigit(c) || 'a' <= c <= 'z' || 'A' <= c <= 'Z' || c == '_' || c == ':' }

  predicate MetricName(s: string) { s != "" && forall i :: 0 <= i < |s| ==> NameChar(s[i]) }

  predicate StampOk(s: Stamp) { s.Stamp? ==> s.gap != "" && Blanks(s.gap) && Token(s.text) }

  predicate PieceOneLine(p: Piece) { MetricName(p.name) && forall i :: 0 <= i < |p.units| ==> p.units[i].c != '\n' }

  /** Label names of the format, and no raw line break in a value. */
  predicate BodyOneLine(b: Body) {
    match b
    case Closed(_) => true
    case Last(piece) => PieceOneLine(piece)
    case Comma(piece, rest) => PieceOneLine(piece) && BodyOneLine(rest)
  }

  predicate LabelsOk(ls: LabelSet) { ls.Labelled? ==> Blanks(ls.space) && BodyOk(ls.body) && BodyOneLine(ls.body) }

  /** The lines of the text format: blanks and tabs in any number between all tokens; `#` starts a comment. */
  predicate LineOk<F>(float: string -> Option<F>, l: Line) {
    match l
    case Blank(spaces) => Blanks(spaces)
    case Comment(lead, text) => Blanks(lead) && '\n' !in text
    case Sample(lead, name, labels, gap, value, stamp, trail) =>
      && Blanks(lead) && MetricName(name) && LabelsOk(labels) && (labels.NoLabels? ==> gap != "")
      && Blanks(gap) && Token(value) && float(value).Some? && StampOk(stamp) && Blanks(trail)
  }

  /** No blank between the name and its labels, or at an equals sign. */
  predicate Tight(l: Line) {
    l.Sample? && l.labels.Labelled? ==> l.labels.space == "" && BodyTight(l.labels.body)
  }

  /** Numbers do not start with a brace. */
  ghost predicate NoBraces<F>(float: string -> Option<F>) {
    forall t :: t != "" && t[0] == '{' ==> float(t).None?
  }

  function StampText(s: Stamp): string { if s.NoStamp? then "" else s.gap + s.text }

  function NumberText(l: Line): string
    requires l.Sample?
  {
    l.gap + (l.value + StampText(l.stamp))
  }

  function BracedText(l: Line): string
    requires l.Sample? && l.labels.Labelled?
  {
    "{" + (BodyText(l.labels.body) + NumberText(l))
  }

  /** What follows the name, without the trailing blanks. */
  function RestText(l: Line): string
    requires l.Sample?
  {
    if l.labels.Labelled? then l.labels.space + BracedText(l) else NumberText(l)
  }

  function LineText(l: Line): string {
    match l
    case Blank(spaces) => spaces
    case Comment(lead, text) => lead + ("#" + text)
    case Sample(lead, name, _, _, _, _, trail) => lead + (name + RestText(l)) + trail
  }

  function Texts(ls: seq<Line>): seq<string> {
    if ls == [] then [] else [LineText(ls[0])] + Texts(ls[1..])
  }

  function LabelsIn(l: Line): Labels
    requires l.Sample?
  {
    if l.labels.NoLabels? then map[] else BodyLabels(map[], l.labels.body)
  }

  /** The samples of the family, in order. */
  function Family<F>(float: string -> Option<F>, name: string, ls: seq<Line>): seq<MetricSample<F>>
    requires forall i :: 0 <= i < |ls| ==> LineOk(float, ls[i])
  {
    if ls == [] then []
    else
      var rest := Family(float, name, ls[1..]);
      assert LineOk(float, ls[0]);
      if ls[0].Sample? && ls[0].name == name
      then [MetricSample(name, LabelsIn(ls[0]), float(ls[0].value).value)] + rest
      else rest
  }

  /** Every sample of the family is written tightly. */
  predicate FamilyTight(name: string, ls: seq<Line>) {
    ls == [] || ((ls[0].Sample? && ls[0].name == name ==> Tight(ls[0])) && FamilyTight(name, ls[1..]))
  }

  lemma BlanksAreSpaces(s: string)
    requires Blanks(s)
    ensures Spaces(s)
  {
  }

  lemma FieldsOne(t: string)
    requires Token(t)
    ensures Fields(t) == [t]
  {
    assert t + "" == t;
    FieldsToken(t, "");
  }

  /** The number and an optional timestamp are read whatever blanks stand between them. */
  lemma NumberReads<F>(float: string -> Option<F>, l: Line)
    requires l.Sample? && LineOk(float, l)
    ensures NumberOf(float, NumberText(l)) == Ok(float(l.value).value)
  {
    hide Fields, Token, Blanks, Spaces;
    var st := StampText(l.stamp);
    BlanksAreSpaces(l.gap);
    FieldsSkip(l.gap, l.value + st);
    match l.stamp
    case NoStamp =>
      assert l.value + st == l.value;
      FieldsOne(l.value);
    case Stamp(gap, text) =>
      BlankFirst(gap, text);
      FieldsToken(l.value, st);
      BlanksAreSpaces(gap);
      FieldsSkip(gap, text);
      FieldsOne(text);
  }

  lemma BlankFirst(gap: string, text: string)
    requires gap != "" && Blanks(gap)
    ensures gap + text != "" && IsSpace((gap + text)[0]) && (gap + text)[0] == gap[0]
    ensures gap[0] == ' ' || gap[0] == '\t'
  {
  }

  /** A sample of the format is read, with its labels and value, iff it is written tightly. */
  lemma RestReads<F>(float: string -> Option<F>, l: Line)
    requires l.Sample? && LineOk(float, l) && NoBraces(float)
    ensures Tight(l) ==>
              SampleOf(float, l.name, RestText(l)) == Ok(MetricSample(l.name, LabelsIn(l), float(l.value).value))
    ensures !Tight(l) ==> SampleOf(float, l.name, RestText(l)).Err?
  {
    hide LabelsOf, NumberOf, NumberText, BodyText, BodyOk, BodyTight, BodyLabels, BodyOneLine;
    NumberReads(float, l);
    if l.labels.NoLabels? {
      RestStarts(float, l);
    } else if l.labels.space == "" {
      var b := l.labels.body;
      assert RestText(l) == BracedText(l) && BracedText(l)[1..] == BodyText(b) + NumberText(l);
      if BodyTight(b) {
        GrammarAccepted(b, NumberText(l), map[]);
      } else {
        LooseRejected(b, NumberText(l), map[]);
      }
    } else {
      SpacedBraceFails(float, l.name, l.labels.space, BodyText(l.labels.body) + NumberText(l));
    }
  }

  /**
   * Nothing else is read: what is accepted behind a name is a tight label set or none, then a number that
   * parses and at most one more field, and the sample is what they say.
   */
  lemma ReadIsSample<F>(float: string -> Option<F>, name: string, rest: string, s: MetricSample<F>)
    returns (tail: string)
    requires SampleOf(float, name, rest) == Ok(s)
    ensures s.name == name
    ensures 1 <= |Fields(tail)| <= 2 && float(Fields(tail)[0]) == Some(s.value)
    ensures || (rest == tail && s.labels == map[] && !("{" <= rest))
            || exists b :: BodyOk(b) && BodyTight(b) && rest == "{" + BodyText(b) + tail
                           && s.labels == BodyLabels(map[], b)
  {
    hide LabelsOf, Fields, BodyOk, BodyTight, BodyLabels, BodyText;
    tail := rest;
    if rest != "" && rest[0] == '{' {
      tail := LabelsOf(rest[1..], map[]).value.1;
      var b := AcceptedIsGrammar(rest[1..], map[]);
      assert rest == "{" + BodyText(b) + tail;
    }
  }

  /** Behind blanks an opening brace is taken for the number. */
  lemma SpacedBraceFails<F>(float: string -> Option<F>, name: string, space: string, r: string)
    requires space != "" && Blanks(space) && NoBraces(float)
    ensures SampleOf(float, name, space + ("{" + r)).Err?
  {
    hide LabelsOf, Fields;
    var t := "{" + r;
    BlankFirst(space, t);
    BlanksAreSpaces(space);
    FieldsSkip(space, t);
    FirstField(t);
  }

  lemma FirstField(t: string)
    requires t != "" && !IsSpace(t[0])
    ensures Fields(t) != [] && Fields(t)[0] != "" && Fields(t)[0][0] == t[0]
  {
  }

  lemma RestStarts<F>(float: string -> Option<F>, l: Line)
    requires l.Sample? && LineOk(float, l)
    ensures RestText(l) != ""
    ensures RestText(l)[0] == '{' || RestText(l)[0] == ' ' || RestText(l)[0] == '\t'
    ensures l.labels.NoLabels? ==> RestText(l)[0] != '{'
  {
    hide BodyText, BodyOk, BodyOneLine;
    match l.labels
    case NoLabels =>
      BlankFirst(l.gap, l.value + StampText(l.stamp));
    case Labelled(space, _) =>
      if space == "" {
        assert RestText(l) == BracedText(l);
      } else {
        BlankFirst(space, BracedText(l));
      }
  }

  lemma RestEnds<F>(float: string -> Option<F>, l: Line)
    requires l.Sample? && LineOk(float, l)
    ensures RestText(l) != "" && !IsSpace(RestText(l)[|RestText(l)| - 1])
  {
    hide BodyText, BodyOk, BodyOneLine;
    var st := StampText(l.stamp);
    var vs := l.value + st;
    assert vs != "" && !IsSpace(vs[|vs| - 1]) by {
      match l.stamp
      case NoStamp => assert vs == l.value;
      case Stamp(gap, text) => assert vs[|vs| - 1] == text[|text| - 1];
    }
    var nt := NumberText(l);
    assert nt[|nt| - 1] == vs[|vs| - 1];
    if l.labels.Labelled? {
      var bt, rt := BracedText(l), RestText(l);
      assert bt[|bt| - 1] == nt[|nt| - 1];
      assert rt[|rt| - 1] == bt[|bt| - 1];
    }
  }

  lemma TrimSample<F>(float: string -> Option<F>, l: Line)
    requires l.Sample? && LineOk(float, l)
    ensures Trim(LineText(l)) == l.name + RestText(l)
  {
    hide RestText, Trim;
    RestEnds(float, l);
    var body := l.name + RestText(l);
    assert body[0] == l.name[0] && NameChar(l.name[0]);
    assert body[|body| - 1] == RestText(l)[|RestText(l)| - 1];
    TrimPadded(l.lead, body, l.trail);
  }

  /** A line belongs to a family only when that is the whole of its name, never a part of it. */
  lemma BelongsIff<F>(float: string -> Option<F>, l: Line, name: string)
    requires l.Sample? && LineOk(float, l) && MetricName(name)
    ensures Belongs(l.name + RestText(l), name) <==> l.name == name
  {
    hide RestText;
    RestStarts(float, l);
    var rest := RestText(l);
    var body := l.name + rest;
    assert body[|l.name|] == rest[0];
    assert body[0] == l.name[0] && NameChar(l.name[0]);
    assert body[..|l.name|] == l.name;
    if |name| > |l.name| {
      assert NameChar(name[|l.name|]);
    } else if |name| < |l.name| {
      assert body[|name|] == l.name[|name|] && NameChar(l.name[|name|]);
    }
  }

  lemma SkippedLine<F>(float: string -> Option<F>, l: Line, name: string)
    requires !l.Sample? && LineOk(float, l)
    ensures !Belongs(Trim(LineText(l)), name)
  {
    hide Trim;
    match l
    case Blank(spaces) =>
      TrimBlank(spaces);
    case Comment(lead, text) =>
      CommentTrims(lead, text);
  }

  lemma CommentTrims(lead: string, text: string)
    requires Spaces(lead)
    ensures Trim(lead + ("#" + text)) != "" && Trim(lead + ("#" + text))[0] == '#'
  {
    TrimLeftOf(lead, "#" + text);
    TrimRightKeeps("#" + text);
  }

  lemma {:induction false} TrimRightKeeps(s: string)
    requires s != "" && !IsSpace(s[0])
    ensures TrimRight(s) != "" && TrimRight(s)[0] == s[0]
  {
    if IsSpace(s[|s| - 1]) {
      TrimRightKeeps(s[..|s| - 1]);
    }
  }

  lemma {:induction false} LinesRead<F>(float: string -> Option<F>, name: string, ls: seq<Line>)
    requires MetricName(name) && NoBraces(float) && forall i :: 0 <= i < |ls| ==> LineOk(float, ls[i])
    ensures FamilyTight(name, ls) ==> SamplesOf(float, name, Texts(ls)) == Ok(Family(float, name, ls))
    ensures !FamilyTight(name, ls) ==> SamplesOf(float, name, Texts(ls)).Err?
  {
    hide SampleOf, Belongs, Trim, LineText, RestText, LineOk, Tight, LabelsIn, NoBraces;
    if ls != [] {
      var l := ls[0];
      assert Texts(ls)[1..] == Texts(ls[1..]);
      LinesRead(float, name, ls[1..]);
      if l.Sample? {
        TrimSample(float, l);
        BelongsIff(float, l, name);
        if l.name == name {
          RestReads(float, l);
          assert (l.name + RestText(l))[|name|..] == RestText(l);
          SampleFirst(float, name, ls);
        }
      } else {
        SkippedLine(float, l, name);
      }
    }
  }

  lemma SampleFirst<F>(float: string -> Option<F>, name: string, ls: seq<Line>)
    requires forall i :: 0 <= i < |ls| ==> LineOk(float, ls[i])
    requires ls != [] && ls[0].Sample? && ls[0].name == name
    ensures float(ls[0].value).Some?
    ensures Family(float, name, ls)
         == [MetricSample(name, LabelsIn(ls[0]), float(ls[0].value).value)] + Family(float, name, ls[1..])
  {
    assert LineOk(float, ls[0]);
  }

  // No rendered line contains a line break.

  lemma {:induction false} UnitsHaveNoBreak(us: seq<Unit>)
    requires forall i :: 0 <= i < |us| ==> us[i].c != '\n'
    ensures '\n' !in UnitsText(us)
  {
    if us != [] {
      UnitsHaveNoBreak(us[1..]);
    }
  }

  lemma PieceHasNoBreak(p: Piece)
    requires PieceOk(p) && PieceOneLine(p)
    ensures '\n' !in PieceText(p)
  {
    hide UnitsText, MetricName, LabelName;
    NameHasNoBreak(p.name);
    UnitsHaveNoBreak(p.units);
  }

  lemma {:induction false} BodyHasNoBreak(b: Body)
    requires BodyOk(b) && BodyOneLine(b)
    ensures '\n' !in BodyText(b)
  {
    hide PieceText, PieceOk, PieceOneLine;
    match b
    case Closed(blanks) =>
    case Last(piece) =>
      PieceHasNoBreak(piece);
    case Comma(piece, rest) =>
      PieceHasNoBreak(piece);
      BodyHasNoBreak(rest);
  }

  lemma NameHasNoBreak(s: string)
    requires MetricName(s)
    ensures '\n' !in s
  {
  }

  lemma TokenHasNoBreak(s: string)
    requires Token(s)
    ensures '\n' !in s
  {
  }

  lemma BlanksHaveNoBreak(s: string)
    requires Blanks(s)
    ensures '\n' !in s
  {
  }

  lemma LineHasNoBreak<F>(float: string -> Option<F>, l: Line)
    requires LineOk(float, l)
    ensures '\n' !in LineText(l)
  {
    hide BodyText, BodyOk, BodyOneLine, NumberText, MetricName, Blanks, Token;
    match l
    case Blank(spaces) =>
      BlanksHaveNoBreak(spaces);
    case Comment(lead, text) =>
      BlanksHaveNoBreak(lead);
    case Sample(lead, name, labels, gap, value, stamp, trail) =>
      BlanksHaveNoBreak(lead);
      BlanksHaveNoBreak(trail);
      NameHasNoBreak(name);
      NumberHasNoBreak(float, l);
      if labels.Labelled? {
        BlanksHaveNoBreak(labels.space);
        BodyHasNoBreak(labels.body);
      }
  }

  lemma NumberHasNoBreak<F>(float: string -> Option<F>, l: Line)
    requires l.Sample? && LineOk(float, l)
    ensures '\n' !in NumberText(l)
  {
    hide MetricName, Blanks, Token, LabelsOk;
    BlanksHaveNoBreak(l.gap);
    TokenHasNoBreak(l.value);
    if l.stamp.Stamp? {
      BlanksHaveNoBreak(l.stamp.gap);
      TokenHasNoBreak(l.stamp.text);
    }
  }

  lemma {:induction false} SplitTexts<F>(float: string -> Option<F>, ls: seq<Line>)
    requires ls != [] && forall i :: 0 <= i < |ls| ==> LineOk(float, ls[i])
    ensures Split(Join(Texts(ls), '\n'), '\n') == Texts(ls)
  {
    hide LineText, LineOk, Split;
    LineHasNoBreak(float, ls[0]);
    assert Texts(ls)[1..] == Texts(ls[1..]);
    if |ls| == 1 {
      SplitLine(LineText(ls[0]), "", '\n');
    } else {
      SplitTexts(float, ls[1..]);
      SplitLine(LineText(ls[0]), Join(Texts(ls[1..]), '\n'), '\n');
    }
  }

  /**
   * An exposition of the text format is read iff every sample of the named family is written tightly, and
   * then exactly the family's samples are returned, in order and with their labels. Other families, also
   * those whose name extends it, are skipped whatever their blanks.
   */
  lemma ExpositionReads<F>(float: string -> Option<F>, name: string, ls: seq<Line>)
    requires ls != [] && MetricName(name) && NoBraces(float) && forall i :: 0 <= i < |ls| ==> LineOk(float, ls[i])
    ensures var r := SamplesOf(float, name, Split(Join(Texts(ls), '\n'), '\n'));
            if FamilyTight(name, ls) then r == Ok(Family(float, name, ls)) else r.Err?
  {
    hide SamplesOf, Split, Join, Family, Texts, LineOk, NoBraces, FamilyTight;
    SplitTexts(float, ls);
    LinesRead(float, name, ls);
  }

  /** A legal line that fails a scrape of its family: one blank between the name and the labels. */
  lemma SpacedLabelsFail<F>(float: string -> Option<F>)
    requires NoBraces(float)
    ensures SamplesOf(float, "m", ["m {a=\"b\"} 1"]).Err?
  {
    hide SampleOf, NoBraces;
    var line := "m {a=\"b\"} 1";
    assert line == "" + line + "" && !IsSpace(line[0]) && !IsSpace(line[|line| - 1]);
    TrimPadded("", line, "");
    assert line[1..] == " " + ("{" + "a=\"b\"} 1") && line[..1] == "m";
    SpacedBraceFails(float, "m", " ", "a=\"b\"} 1");
  }

  /** So does one at an equals sign. */
  lemma SpacedEqualsFails<F>(float: string -> Option<F>)
    ensures SamplesOf(float, "m", ["m{a =\"b\"} 1"]).Err?
  {
    hide SampleOf;
    var line := "m{a =\"b\"} 1";
    assert line == "" + line + "" && !IsSpace(line[0]) && !IsSpace(line[|line| - 1]);
    TrimPadded("", line, "");
    assert line[1..] == "{a =\"b\"} 1" && line[..1] == "m";
    SpacedEqualsRest(float);
  }

  lemma SpacedEqualsRest<F>(float: string -> Option<F>)
    ensures SampleOf(float, "m", "{a =\"b\"} 1").Err?
  {
    hide LabelsOf, NumberOf;
    var p := Piece("", "a", " ", "", [Plain('b')], "");
    SpacedEqualsText(p);
    assert "{a =\"b\"} 1"[1..] == "a =\"b\"} 1";
    LoosePieceFails(p, "} 1", map[]);
  }

  lemma SpacedEqualsText(p: Piece)
    requires p == Piece("", "a", " ", "", [Plain('b')], "")
    ensures PieceText(p) + "} 1" == "a =\"b\"} 1"
  {
    assert p.units[1..] == [];
  }
}
