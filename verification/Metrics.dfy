// Reading one metric family from a Prometheus text exposition
// (e2e/pkg/framework/controller_metrics.go). The specification functions return what is left of
// the input; the methods are the index loops of the source.
module Metrics {
  import opened Text

  datatype Error =
    | NotTerminated | EmptyName | NoEquals | NotQuoted | BadValue | Unexpected   // label set
    | NoSampleValue | TooManyFields | BadNumber                                  // rest of the line

  datatype Result<T> = Ok(value: T) | Err(error: Error)

  type Labels = map<string, string>

  // ---------------------------------------------------------------------------
  // Parsing
  // ---------------------------------------------------------------------------

  function SkipSpaces(r: string): (t: string)
    ensures |t| <= |r| && (t != [] ==> t[0] != ' ' && t[0] != '\t')
  {
    if r != [] && (r[0] == ' ' || r[0] == '\t') then SkipSpaces(r[1..]) else r
  }

  predicate Blanks(s: string) { forall i :: 0 <= i < |s| ==> s[i] == ' ' || s[i] == '\t' }

  function Unescaped(c: char): char { if c == 'n' then '\n' else c }

  /** A quoted value behind its opening quote, and what follows its closing quote. */
  function Value(r: string): (p: Option<(string, string)>)
    ensures p.Some? ==> |p.value.1| < |r|
  {
    if r == [] then None
    else if r[0] == '"' then Some(("", r[1..]))
    else if r[0] == '\\' then
      if |r| == 1 then None
      else match Value(r[2..])
           case None => None
           case Some(p) => Some(([Unescaped(r[1])] + p.0, p.1))
    else match Value(r[1..])
         case None => None
         case Some(p) => Some(([r[0]] + p.0, p.1))
  }

  predicate EndsName(c: char) { c == '=' || c == ',' || c == '}' || c == ' ' || c == '\t' }

  function NameLen(r: string): (n: nat)
    ensures n <= |r| && (forall i :: 0 <= i < n ==> !EndsName(r[i])) && (n < |r| ==> EndsName(r[n]))
  {
    if r == [] || EndsName(r[0]) then 0 else 1 + NameLen(r[1..])
  }

  /** One `name="value"`, and what follows it. */
  function Pair(r: string): (p: Result<(string, string, string)>)
    ensures p.Ok? ==> |p.value.2| < |r|
  {
    var n := NameLen(r);
    if n == 0 then Err(EmptyName)
    else if n == |r| || r[n] != '=' then Err(NoEquals)
    else if n + 1 == |r| || r[n + 1] != '"' then Err(NotQuoted)
    else match Value(r[n + 2..])
         case None => Err(BadValue)
         case Some(v) => Ok((r[..n], v.0, v.1))
  }

  /** The labels up to the closing brace, and what follows it. */
  function LabelsOf(r: string, labels: Labels): (p: Result<(Labels, string)>)
    ensures p.Ok? ==> |p.value.1| < |r|
    decreases |r|
  {
    var t := SkipSpaces(r);
    if t == [] then Err(NotTerminated)
    else if t[0] == '}' then Ok((labels, t[1..]))
    else match Pair(t)
         case Err(e) => Err(e)
         case Ok(p) =>
           var labels', u := labels[p.0 := p.1], SkipSpaces(p.2);
           if u == [] then Err(NotTerminated)
           else if u[0] == ',' then LabelsOf(u[1..], labels')
           else if u[0] == '}' then Ok((labels', u[1..]))
           else Err(Unexpected)
  }

  lemma ValueStep(r: string)
    requires r != [] && r[0] != '"' && (r[0] == '\\' ==> |r| > 1)
    ensures var n, c := if r[0] == '\\' then 2 else 1, if r[0] == '\\' then Unescaped(r[1]) else r[0];
            Value(r) == match Value(r[n..]) case None => None case Some(p) => Some(([c] + p.0, p.1))
  {
  }

  ghost predicate ValueIs(b: string, rest: Option<(string, string)>, whole: Option<(string, string)>) {
    if rest.None? then whole.None? else whole == Some((b + rest.value.0, rest.value.1))
  }

  lemma ValueIsStep(b: string, c: char, rest: Option<(string, string)>, whole: Option<(string, string)>)
    requires ValueIs(b, match rest case None => None case Some(p) => Some(([c] + p.0, p.1)), whole)
    ensures ValueIs(b + [c], rest, whole)
  {
    if rest.Some? {
      Assoc(b, [c], rest.value.0);
    }
  }

  lemma ValueEnds(r: string)
    ensures r == [] || r == "\\" ==> Value(r) == None
    ensures r != [] && r[0] == '"' ==> Value(r) == Some(("", r[1..]))
  {
  }

  method ParseLabelValue(s: string, start: nat) returns (r: Option<(string, nat)>)
    requires start < |s| && s[start] == '"'
    ensures match Value(s[start + 1..])
            case None => r == None
            case Some(v) => r.Some? && r.value.0 == v.0 && start < r.value.1 <= |s| && s[r.value.1..] == v.1
  {
    hide Value;
    var b, i := "", start + 1;
    ghost var whole := Value(s[start + 1..]);
    assert whole.Some? ==> "" + whole.value.0 == whole.value.0;
    while i < |s|
      invariant start < i <= |s|
      invariant ValueIs(b, Value(s[i..]), whole)
    {
      var c := s[i];
      ValueEnds(s[i..]);
      assert s[i..][1..] == s[i + 1..];
      if c == '\\' {
        i := i + 1;
        if i >= |s| {
          assert s[i - 1..] == "\\";
          return None;
        }
        assert s[i - 1..][2..] == s[i + 1..];
        ValueStep(s[i - 1..]);
        ValueIsStep(b, Unescaped(s[i]), Value(s[i + 1..]), whole);
        b := b + [Unescaped(s[i])];
        i := i + 1;
      } else if c == '"' {
        assert b + "" == b;
        return Some((b, i + 1));
      } else {
        ValueStep(s[i..]);
        ValueIsStep(b, c, Value(s[i + 1..]), whole);
        b := b + [c];
        i := i + 1;
      }
    }
    ValueEnds(s[i..]);
    return None;
  }

  method SkipMetricSpaces(s: string, start: nat) returns (i: nat)
    requires start <= |s|
    ensures start <= i <= |s| && s[i..] == SkipSpaces(s[start..])
  {
    i := start;
    while i < |s| && (s[i] == ' ' || s[i] == '\t')
      invariant start <= i <= |s| && SkipSpaces(s[i..]) == SkipSpaces(s[start..])
    {
      assert s[i..][1..] == s[i + 1..];
      i := i + 1;
    }
  }

  method ScanName(s: string, start: nat) returns (i: nat)
    requires start <= |s|
    ensures i == start + NameLen(s[start..]) <= |s|
  {
    i := start;
    while i < |s| && !EndsName(s[i])
      invariant start <= i <= |s| && NameLen(s[start..]) == i - start + NameLen(s[i..])
    {
      assert s[i..][1..] == s[i + 1..];
      i := i + 1;
    }
  }

  /** One label of the loop below: its name, its value and the index behind it. */
  method ParsePair(s: string, start: nat) returns (r: Result<(string, string, nat)>)
    requires start <= |s|
    ensures match Pair(s[start..])
            case Err(e) => r == Err(e)
            case Ok(p) => r.Ok? && r.value.0 == p.0 && r.value.1 == p.1
                          && start < r.value.2 <= |s| && s[r.value.2..] == p.2
  {
    hide NameLen, Value;
    var i := ScanName(s, start);
    var key := s[start..i];
    assert key == s[start..][..i - start];
    if key == "" {
      return Err(EmptyName);
    }
    if i >= |s| || s[i] != '=' {
      return Err(NoEquals);
    }
    i := i + 1;
    if i >= |s| || s[i] != '"' {
      return Err(NotQuoted);
    }
    assert s[start..][i + 1 - start..] == s[i + 1..];
    var value := ParseLabelValue(s, i);
    if value.None? {
      return Err(BadValue);
    }
    return Ok((key, value.value.0, value.value.1));
  }

  /** On success, the labels and the number of characters consumed through the closing brace. */
  method ParseLabels(s: string) returns (r: Result<(Labels, nat)>)
    requires s != "" && s[0] == '{'
    ensures match LabelsOf(s[1..], map[])
            case Err(e) => r == Err(e)
            case Ok(p) => r.Ok? && r.value.0 == p.0 && r.value.1 <= |s| && s[r.value.1..] == p.1
  {
    hide SkipSpaces, Pair;
    var labels: Labels, i := map[], 1;
    while true
      invariant 1 <= i <= |s|
      invariant LabelsOf(s[i..], labels) == LabelsOf(s[1..], map[])
      decreases |s| - i
    {
      i := SkipMetricSpaces(s, i);
      if i >= |s| {
        return Err(NotTerminated);
      }
      if s[i] == '}' {
        return Ok((labels, i + 1));
      }
      var pair := ParsePair(s, i);
      if pair.Err? {
        return Err(pair.error);
      }
      labels := labels[pair.value.0 := pair.value.1];
      i := SkipMetricSpaces(s, pair.value.2);
      if i >= |s| {
        return Err(NotTerminated);
      }
      if s[i] == ',' {
        assert s[i..][1..] == s[i + 1..];
        i := i + 1;
      } else if s[i] == '}' {
        return Ok((labels, i + 1));
      } else {
        return Err(Unexpected);
      }
    }
  }

  // ---------------------------------------------------------------------------
  // Rendering
  // ---------------------------------------------------------------------------

  /** A label value as the text format escapes it. */
  function EscapedChar(c: char): string {
    match c
    case '\\' => "\\\\"
    case '"' => "\\\""
    case '\n' => "\\n"
    case _ => [c]
  }

  function EscapedValue(v: string): string {
    if v == [] then [] else EscapedChar(v[0]) + EscapedValue(v[1..])
  }

  datatype Label = Label(name: string, value: string)

  predicate LabelName(k: string) { k != "" && forall i :: 0 <= i < |k| ==> !EndsName(k[i]) }

  function RenderPair(l: Label): string { l.name + "=\"" + EscapedValue(l.value) + "\"" }

  /** The inside of the braces. */
  function RenderPairs(ls: seq<Label>): string {
    if ls == [] then "" else if |ls| == 1 then RenderPair(ls[0]) else RenderPair(ls[0]) + "," + RenderPairs(ls[1..])
  }

  function LabelMap(labels: Labels, ls: seq<Label>): Labels
    decreases |ls|
  {
    if ls == [] then labels else LabelMap(labels[ls[0].name := ls[0].value], ls[1..])
  }

  lemma EscapedCharReads(c: char, r: string)
    ensures Value(EscapedChar(c) + r) == match Value(r) case None => None case Some(p) => Some(([c] + p.0, p.1))
  {
    var e := EscapedChar(c);
    assert (e + r)[|e|..] == r;
    ValueStep(e + r);
  }

  lemma {:induction false} ValueRoundTrip(v: string, r: string)
    ensures Value(EscapedValue(v) + "\"" + r) == Some((v, r))
  {
    hide Value;
    if v == [] {
      assert [] + "\"" + r == "\"" + r;
      ValueEnds("\"" + r);
      assert ("\"" + r)[1..] == r;
    } else {
      ValueRoundTrip(v[1..], r);
      EscapedCharReads(v[0], EscapedValue(v[1..]) + "\"" + r);
      Assoc(EscapedChar(v[0]), EscapedValue(v[1..]), "\"");
      Assoc(EscapedChar(v[0]), EscapedValue(v[1..]) + "\"", r);
      assert v == [v[0]] + v[1..];
    }
  }

  lemma NameRoundTrip(k: string, r: string)
    requires LabelName(k)
    ensures NameLen(k + "=" + r) == |k| && (k + "=" + r)[..|k|] == k
  {
    var t := k + "=" + r;
    assert t[|k|] == '=' && forall i :: 0 <= i < |k| ==> t[i] == k[i];
  }

  lemma PairRoundTrip(l: Label, r: string)
    requires LabelName(l.name)
    ensures Pair(RenderPair(l) + r) == Ok((l.name, l.value, r))
  {
    hide Value, NameLen, EscapedValue;
    var t := RenderPair(l) + r;
    var inner := EscapedValue(l.value) + "\"" + r;
    assert t == l.name + "=" + ("\"" + inner);
    NameRoundTrip(l.name, "\"" + inner);
    assert t[|l.name| + 1] == '"' && t[|l.name| + 2..] == inner;
    ValueRoundTrip(l.value, r);
  }

  lemma LabelsStep(l: Label, u: string, labels: Labels)
    requires LabelName(l.name) && u != []
    ensures u[0] == ',' ==> LabelsOf(RenderPair(l) + u, labels) == LabelsOf(u[1..], labels[l.name := l.value])
    ensures u[0] == '}' ==> LabelsOf(RenderPair(l) + u, labels) == Ok((labels[l.name := l.value], u[1..]))
  {
    hide Pair, RenderPair;
    PairRoundTrip(l, u);
    StartsWithName(l, u);
  }

  lemma {:induction false} PairsRoundTrip(ls: seq<Label>, labels: Labels, r: string)
    requires forall i :: 0 <= i < |ls| ==> LabelName(ls[i].name)
    ensures LabelsOf(RenderPairs(ls) + "}" + r, labels) == Ok((LabelMap(labels, ls), r))
    decreases |ls|
  {
    if ls == [] {
      var t := RenderPairs(ls) + "}" + r;
      assert t == "}" + r && t[1..] == r;
    } else {
      hide LabelsOf, RenderPair;
      var l, tail := ls[0], RenderPairs(ls[1..]) + "}" + r;
      if |ls| == 1 {
        LabelsStep(l, "}" + r, labels);
        Assoc(RenderPair(l), "}", r);
        assert ("}" + r)[1..] == r && ls[1..] == [];
      } else {
        LabelsStep(l, "," + tail, labels);
        assert ("," + tail)[1..] == tail;
        PairsRoundTrip(ls[1..], labels[l.name := l.value], r);
        CommaRegroup(RenderPair(l), RenderPairs(ls[1..]), r);
      }
    }
  }

  lemma CommaRegroup(p: string, q: string, r: string)
    ensures p + "," + q + "}" + r == p + ("," + (q + "}" + r))
  {
  }

  lemma StartsWithName(l: Label, u: string)
    requires LabelName(l.name)
    ensures var t := RenderPair(l) + u; t != [] && t[0] != '}' && SkipSpaces(t) == t
  {
    assert (RenderPair(l) + u)[0] == l.name[0];
    assert !EndsName(l.name[0]);
  }

  // ---------------------------------------------------------------------------
  // Label maps
  // ---------------------------------------------------------------------------

  /** `ls` lists the labels of `m`, each once, in some order. */
  ghost predicate Enumerates(ls: seq<Label>, m: Labels) {
    && (forall i :: 0 <= i < |ls| ==> ls[i].name in m && m[ls[i].name] == ls[i].value)
    && (forall k :: k in m ==> exists i :: 0 <= i < |ls| && ls[i].name == k)
  }

  ghost predicate NamesOk(m: Labels) { forall k :: k in m ==> LabelName(k) }

  lemma {:induction false} EnumerationExists(m: Labels) returns (ls: seq<Label>)
    ensures Enumerates(ls, m)
    decreases |m|
  {
    if m == map[] {
      ls := [];
    } else {
      var k :| k in m;
      var rest := EnumerationExists(m - {k});
      ls := [Label(k, m[k])] + rest;
      assert forall i :: 0 < i < |ls| ==> ls[i] == rest[i - 1];
      forall k' | k' in m
        ensures exists i :: 0 <= i < |ls| && ls[i].name == k'
      {
        if k' == k {
          assert ls[0].name == k';
        } else {
          assert k' in m - {k};
          var i :| 0 <= i < |rest| && rest[i].name == k';
          assert ls[i + 1].name == k';
        }
      }
    }
  }

  /** Labels of `m` overwrite others, and nothing else remains once all are listed. */
  lemma {:induction false} LabelMapIs(labels: Labels, ls: seq<Label>, m: Labels)
    requires forall i :: 0 <= i < |ls| ==> ls[i].name in m && m[ls[i].name] == ls[i].value
    requires forall k :: k in labels ==> k in m && m[k] == labels[k]
    requires forall k :: k in m ==> k in labels || exists i :: 0 <= i < |ls| && ls[i].name == k
    ensures LabelMap(labels, ls) == m
    decreases |ls|
  {
    if ls == [] {
      assert labels.Keys == m.Keys;
    } else {
      var labels' := labels[ls[0].name := ls[0].value];
      forall k | k in m
        ensures k in labels' || exists i :: 0 <= i < |ls[1..]| && ls[1..][i].name == k
      {
        if k !in labels' {
          var i :| 0 <= i < |ls| && ls[i].name == k;
          assert ls[1..][i - 1].name == k;
        }
      }
      LabelMapIs(labels', ls[1..], m);
    }
  }

  /** Rendering a label map in any order and parsing it gives the map and stops behind the brace. */
  lemma LabelsRoundTrip(m: Labels, ls: seq<Label>, r: string)
    requires NamesOk(m) && Enumerates(ls, m)
    ensures LabelsOf(RenderPairs(ls) + "}" + r, map[]) == Ok((m, r))
  {
    hide LabelsOf, RenderPairs;
    PairsRoundTrip(ls, map[], r);
    LabelMapIs(map[], ls, m);
  }

  lemma {:induction false} ParsedNamesOk(s: string, labels: Labels)
    requires NamesOk(labels)
    ensures LabelsOf(s, labels).Ok? ==> NamesOk(LabelsOf(s, labels).value.0)
    decreases |s|
  {
    var t := SkipSpaces(s);
    if t != [] && t[0] != '}' && Pair(t).Ok? {
      var p := Pair(t).value;
      PairName(t);
      var u := SkipSpaces(p.2);
      if u != [] && u[0] == ',' {
        ParsedNamesOk(u[1..], labels[p.0 := p.1]);
      }
    }
  }

  lemma PairName(t: string)
    ensures Pair(t).Ok? ==> LabelName(Pair(t).value.0)
  {
  }

  /** Whatever the parser accepts, rendering its result and parsing again changes nothing. */
  lemma ParseRenderParse(s: string, ls: seq<Label>, r: string)
    requires LabelsOf(s, map[]).Ok? && Enumerates(ls, LabelsOf(s, map[]).value.0)
    ensures LabelsOf(RenderPairs(ls) + "}" + r, map[]) == Ok((LabelsOf(s, map[]).value.0, r))
  {
    ParsedNamesOk(s, map[]);
    LabelsRoundTrip(LabelsOf(s, map[]).value.0, ls, r);
  }
}
