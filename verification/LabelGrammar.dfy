// Label sets as "Text format details" of the Prometheus Exposition formats document writes them, and
// which of them the parser of e2e/pkg/framework/controller_metrics.go accepts.
module LabelGrammar {
  import opened Text
  import opened Metrics

  /** A character of a quoted value as written: itself, or behind a backslash. */
  datatype Unit = Plain(c: char) | Escaped(c: char)

  predicate UnitOk(u: Unit) { u.Plain? ==> u.c != '"' && u.c != '\\' }

  predicate UnitsOk(us: seq<Unit>) { forall i :: 0 <= i < |us| ==> UnitOk(us[i]) }

  function UnitText(u: Unit): string { if u.Plain? then [u.c] else ['\\', u.c] }

  /** Behind a backslash `n` is a line break and any other character is itself. */
  function UnitChar(u: Unit): char { if u == Escaped('n') then '\n' else u.c }

  function UnitsText(us: seq<Unit>): string { if us == [] then "" else UnitText(us[0]) + UnitsText(us[1..]) }

  function UnitsValue(us: seq<Unit>): string { if us == [] then "" else [UnitChar(us[0])] + UnitsValue(us[1..]) }

  /** One label with the blanks around it, and before and after its equals sign. */
  datatype Piece = Piece(lead: string, name: string, before: string, after: string, units: seq<Unit>, trail: string)

  predicate PieceOk(p: Piece) {
    && Blanks(p.lead) && LabelName(p.name) && Blanks(p.before) && Blanks(p.after) && UnitsOk(p.units)
    && Blanks(p.trail)
  }

  /** No blanks at the equals sign. */
  predicate PieceTight(p: Piece) { p.before == "" && p.after == "" }

  function PairText(p: Piece): string {
    p.name + (p.before + ("=" + (p.after + ("\"" + (UnitsText(p.units) + "\"")))))
  }

  function PieceText(p: Piece): string { p.lead + (PairText(p) + p.trail) }

  /** The inside of the braces through the closing one; a comma may stand before it. */
  datatype Body = Closed(blanks: string) | Last(piece: Piece) | Comma(piece: Piece, rest: Body)

  predicate BodyOk(b: Body) {
    match b
    case Closed(blanks) => Blanks(blanks)
    case Last(piece) => PieceOk(piece)
    case Comma(piece, rest) => PieceOk(piece) && BodyOk(rest)
  }

  predicate BodyTight(b: Body) {
    match b
    case Closed(_) => true
    case Last(piece) => PieceTight(piece)
    case Comma(piece, rest) => PieceTight(piece) && BodyTight(rest)
  }

  function BodyText(b: Body): string {
    match b
    case Closed(blanks) => blanks + "}"
    case Last(piece) => PieceText(piece) + "}"
    case Comma(piece, rest) => PieceText(piece) + ("," + BodyText(rest))
  }

  /** A name that occurs twice keeps its last value. */
  function BodyLabels(labels: Labels, b: Body): Labels
    decreases b
  {
    match b
    case Closed(_) => labels
    case Last(piece) => labels[piece.name := UnitsValue(piece.units)]
    case Comma(piece, rest) => BodyLabels(labels[piece.name := UnitsValue(piece.units)], rest)
  }

  // ---------------------------------------------------------------------------
  // Blanks and values
  // ---------------------------------------------------------------------------

  lemma {:induction false} SkipSplits(r: string) returns (b: string)
    ensures Blanks(b) && r == b + SkipSpaces(r)
  {
    if r != [] && (r[0] == ' ' || r[0] == '\t') {
      var b' := SkipSplits(r[1..]);
      b := [r[0]] + b';
      Assoc([r[0]], b', SkipSpaces(r[1..]));
      assert r == [r[0]] + r[1..];
    } else {
      b := "";
      assert "" + r == r;
    }
  }

  lemma {:induction false} SkipsBlanks(b: string, t: string)
    requires Blanks(b) && (t != [] ==> t[0] != ' ' && t[0] != '\t')
    ensures SkipSpaces(b + t) == t
  {
    if b == [] {
      assert b + t == t;
    } else {
      assert (b + t)[1..] == b[1..] + t;
      SkipsBlanks(b[1..], t);
    }
  }

  lemma {:induction false} ValueSplits(r: string) returns (us: seq<Unit>)
    requires Value(r).Some?
    ensures UnitsOk(us) && r == UnitsText(us) + "\"" + Value(r).value.1 && Value(r).value.0 == UnitsValue(us)
  {
    if r[0] == '"' {
      us := [];
      assert r == "" + "\"" + r[1..];
    } else {
      var n := if r[0] == '\\' then 2 else 1;
      var u := if n == 2 then Escaped(r[1]) else Plain(r[0]);
      ValueStep(r);
      var us' := ValueSplits(r[n..]);
      us := [u] + us';
      assert us[1..] == us';
      assert r == UnitText(u) + r[n..];
      Assoc(UnitText(u), UnitsText(us') + "\"", Value(r).value.1);
      Assoc(UnitText(u), UnitsText(us'), "\"");
    }
  }

  lemma {:induction false} ValueJoins(us: seq<Unit>, rest: string)
    requires UnitsOk(us)
    ensures Value(UnitsText(us) + "\"" + rest) == Some((UnitsValue(us), rest))
  {
    hide Value;
    if us == [] {
      assert "" + "\"" + rest == "\"" + rest;
      ValueEnds("\"" + rest);
      assert ("\"" + rest)[1..] == rest;
    } else {
      var e, tail := UnitText(us[0]), UnitsText(us[1..]) + "\"" + rest;
      ValueJoins(us[1..], rest);
      assert (e + tail)[|e|..] == tail;
      ValueStep(e + tail);
      Assoc(e, UnitsText(us[1..]) + "\"", rest);
      Assoc(e, UnitsText(us[1..]), "\"");
    }
  }

  // ---------------------------------------------------------------------------
  // Labels
  // ---------------------------------------------------------------------------

  lemma TightText(p: Piece, rest: string)
    requires PieceTight(p)
    ensures PairText(p) + rest == p.name + "=\"" + (UnitsText(p.units) + "\"" + rest)
    ensures PairText(p) + rest == p.name + "=" + ("\"" + (UnitsText(p.units) + "\"" + rest))
  {
  }

  lemma PairSplits(t: string) returns (p: Piece)
    requires Pair(t).Ok?
    ensures PieceOk(p) && PieceTight(p) && p.lead == "" && p.trail == ""
    ensures t == PairText(p) + Pair(t).value.2
    ensures p.name == Pair(t).value.0 && UnitsValue(p.units) == Pair(t).value.1
  {
    hide Value, PairText;
    var n := NameLen(t);
    var us := ValueSplits(t[n + 2..]);
    p := Piece("", t[..n], "", "", us, "");
    PairName(t);
    assert t == t[..n] + "=\"" + t[n + 2..];
    TightText(p, Pair(t).value.2);
  }

  lemma PairJoins(p: Piece, rest: string)
    requires PieceOk(p) && PieceTight(p)
    ensures Pair(PairText(p) + rest) == Ok((p.name, UnitsValue(p.units), rest))
  {
    hide Value, NameLen, UnitsText, PairText;
    var t, inner := PairText(p) + rest, UnitsText(p.units) + "\"" + rest;
    TightText(p, rest);
    NameRoundTrip(p.name, "\"" + inner);
    assert t[|p.name| + 1] == '"' && t[|p.name| + 2..] == inner;
    ValueJoins(p.units, rest);
  }

  /** A blank at the equals sign is an error. */
  lemma LoosePairFails(p: Piece, rest: string)
    requires PieceOk(p) && !PieceTight(p)
    ensures Pair(PairText(p) + rest).Err?
  {
    hide Value;
    var t, n := PairText(p) + rest, |p.name|;
    assert forall i :: 0 <= i < n ==> t[i] == p.name[i] && !EndsName(p.name[i]);
    if p.before != "" {
      assert t[n] == p.before[0];
    } else {
      assert t[n] == '=' && t[n + 1] == p.after[0];
    }
    assert NameLen(t) == n;
  }

  lemma PairStarts(p: Piece, rest: string)
    requires PieceOk(p)
    ensures var t := PairText(p) + rest; t != [] && t[0] != '}' && t[0] != ' ' && t[0] != '\t'
  {
    assert (PairText(p) + rest)[0] == p.name[0] && !EndsName(p.name[0]);
  }

  /** What the parser sees of a label: its blanks skipped, itself, and what follows. */
  lemma PieceStarts(p: Piece, u: string)
    requires PieceOk(p)
    ensures var t := PairText(p) + (p.trail + u);
            SkipSpaces(PieceText(p) + u) == t && t != [] && t[0] != '}'
  {
    hide Pair, PairText, SkipSpaces;
    Assoc(p.lead, PairText(p) + p.trail, u);
    Assoc(PairText(p), p.trail, u);
    PairStarts(p, p.trail + u);
    SkipsBlanks(p.lead, PairText(p) + (p.trail + u));
  }

  lemma LoosePieceFails(p: Piece, u: string, labels: Labels)
    requires PieceOk(p) && !PieceTight(p)
    ensures LabelsOf(PieceText(p) + u, labels).Err?
  {
    hide Pair, PairText, PieceText, SkipSpaces, PieceOk;
    PieceStarts(p, u);
    LoosePairFails(p, p.trail + u);
  }

  /** The parser behind one label. */
  lemma PieceReads(p: Piece, c: char, rest: string, labels: Labels)
    requires PieceOk(p) && PieceTight(p) && (c == ',' || c == '}')
    ensures c == ',' ==>
              LabelsOf(PieceText(p) + ([c] + rest), labels) == LabelsOf(rest, labels[p.name := UnitsValue(p.units)])
    ensures c == '}' ==>
              LabelsOf(PieceText(p) + ([c] + rest), labels) == Ok((labels[p.name := UnitsValue(p.units)], rest))
  {
    hide Pair, PairText, PieceText, SkipSpaces, UnitsValue;
    var u := [c] + rest;
    PieceStarts(p, u);
    PairJoins(p, p.trail + u);
    SkipsBlanks(p.trail, u);
    assert u[1..] == rest;
  }

  /** Every text of the grammar without blanks at an equals sign is accepted, with its labels, through its brace. */
  lemma {:induction false} GrammarAccepted(b: Body, rest: string, labels: Labels)
    requires BodyOk(b) && BodyTight(b)
    ensures LabelsOf(BodyText(b) + rest, labels) == Ok((BodyLabels(labels, b), rest))
    decreases b
  {
    hide PieceText, PieceOk, PieceTight, UnitsValue;
    match b
    case Closed(blanks) =>
      Assoc(blanks, "}", rest);
      SkipsBlanks(blanks, "}" + rest);
      assert ("}" + rest)[1..] == rest;
    case Last(piece) =>
      Assoc(PieceText(piece), "}", rest);
      PieceReads(piece, '}', rest, labels);
    case Comma(piece, more) =>
      Assoc(PieceText(piece), "," + BodyText(more), rest);
      Assoc(",", BodyText(more), rest);
      PieceReads(piece, ',', BodyText(more) + rest, labels);
      GrammarAccepted(more, rest, labels[piece.name := UnitsValue(piece.units)]);
  }

  /** Every other text of the format is rejected. */
  lemma {:induction false} LooseRejected(b: Body, rest: string, labels: Labels)
    requires BodyOk(b) && !BodyTight(b)
    ensures LabelsOf(BodyText(b) + rest, labels).Err?
    decreases b
  {
    hide PieceText, PieceOk, PieceTight, UnitsValue, LabelsOf;
    match b
    case Closed(_) =>
    case Last(piece) =>
      Assoc(PieceText(piece), "}", rest);
      LoosePieceFails(piece, "}" + rest, labels);
    case Comma(piece, more) =>
      Assoc(PieceText(piece), "," + BodyText(more), rest);
      Assoc(",", BodyText(more), rest);
      if PieceTight(piece) {
        PieceReads(piece, ',', BodyText(more) + rest, labels);
        LooseRejected(more, rest, labels[piece.name := UnitsValue(piece.units)]);
      } else {
        LoosePieceFails(piece, "," + (BodyText(more) + rest), labels);
      }
  }

  /** The parser takes a label only as the grammar writes one. */
  lemma PieceSplits(r: string) returns (p: Piece, u: string)
    requires var t := SkipSpaces(r); t != [] && Pair(t).Ok?
    ensures var q := Pair(SkipSpaces(r)).value;
            && PieceOk(p) && PieceTight(p) && r == PieceText(p) + u && u == SkipSpaces(q.2)
            && p.name == q.0 && UnitsValue(p.units) == q.1
  {
    hide Pair, PairText, SkipSpaces, UnitsValue;
    var t := SkipSpaces(r);
    var q := PairSplits(t);
    var lead := SkipSplits(r);
    var after := Pair(t).value.2;
    var trail := SkipSplits(after);
    u := SkipSpaces(after);
    p := Piece(lead, q.name, "", "", q.units, trail);
    SamePair(p, q);
    Assoc(PairText(p), trail, u);
    Assoc(lead, PairText(p) + trail, u);
  }

  lemma SamePair(p: Piece, q: Piece)
    requires p.name == q.name && p.units == q.units && PieceTight(p) && PieceTight(q)
    ensures PairText(p) == PairText(q)
  {
  }

  /** Whatever is accepted is a text of the grammar, and the labels are those it spells. */
  lemma {:induction false} AcceptedIsGrammar(r: string, labels: Labels) returns (b: Body)
    requires LabelsOf(r, labels).Ok?
    ensures BodyOk(b) && BodyTight(b)
    ensures r == BodyText(b) + LabelsOf(r, labels).value.1
    ensures LabelsOf(r, labels).value.0 == BodyLabels(labels, b)
    decreases |r|
  {
    hide Pair, PieceText, PieceOk, PieceTight, UnitsValue, SkipSpaces;
    var t := SkipSpaces(r);
    var rest := LabelsOf(r, labels).value.1;
    if t[0] == '}' {
      var blanks := SkipSplits(r);
      b := Closed(blanks);
      assert t == "}" + rest;
      Assoc(blanks, "}", rest);
    } else {
      var p, u := PieceSplits(r);
      assert u == [u[0]] + u[1..];
      if u[0] == ',' {
        var more := AcceptedIsGrammar(u[1..], labels[p.name := UnitsValue(p.units)]);
        b := Comma(p, more);
        Assoc(",", BodyText(more), rest);
        Assoc(PieceText(p), "," + BodyText(more), rest);
      } else {
        b := Last(p);
        Assoc(PieceText(p), "}", rest);
      }
    }
  }
}
