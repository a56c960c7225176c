// A reader of the text that the printer of e2e/pkg/debug/yaml.go writes. It is written against the
// notation alone: words, decimals, quotes, indentation, dashes. That it gives back every printed object is
// what makes comparing printed lines the same as comparing objects.
module YamlReader {
  import opened Text
  import opened YamlText
  import opened Yaml

  // ---------------------------------------------------------------------------
  // Scalars and keys
  // ---------------------------------------------------------------------------

  function UnescapeChar(c: char): char {
    match c
    case 'n' => '\n'
    case 'r' => '\r'
    case 't' => '\t'
    case _ => c
  }

  function Unescape(x: string): string {
    if x == [] then []
    else if x[0] == '\\' && |x| > 1 then [UnescapeChar(x[1])] + Unescape(x[2..])
    else [x[0]] + Unescape(x[1..])
  }

  /** A decimal without superfluous zeros or signs. */
  predicate Canonical(t: string) {
    var d := if t != "" && t[0] == '-' then t[1..] else t;
    d != "" && AllDigits(d) && (d[0] != '0' || t == "0")
  }

  function ReadScalar(t: string): Option<Value> {
    if t == "null" then Some(Null)
    else if t == "true" then Some(Bool(true))
    else if t == "false" then Some(Bool(false))
    else if t == "" then None
    else if t[0] == '"' then
      if |t| > 1 && t[|t| - 1] == '"' then Some(Str(Unescape(t[1..|t| - 1]))) else None
    else if Canonical(t) && ParseInt(t).Some? then Some(Int(ParseInt(t).value))
    else Some(Str(t))
  }

  /** In keys only quotes are escaped. */
  function UnescapeKey(x: string): string {
    if x == [] then []
    else if x[0] == '\\' && |x| > 1 && x[1] == '"' then ['"'] + UnescapeKey(x[2..])
    else [x[0]] + UnescapeKey(x[1..])
  }

  /** The last quote before `i`; 0 when there is none behind the first character. */
  function LastQuote(t: string, i: nat): (q: nat)
    requires i <= |t|
  {
    if i <= 1 then 0 else if t[i - 1] == '"' then i - 1 else LastQuote(t, i - 1)
  }

  /** The last quote before `i` that no backslash precedes. */
  function LastOpen(t: string, i: nat): (q: nat)
    requires i <= |t|
  {
    if i <= 1 then 0 else if t[i - 1] == '"' && t[i - 2] != '\\' then i - 1 else LastOpen(t, i - 1)
  }

  function FirstColon(t: string): (i: nat)
    ensures i <= |t| && (forall j :: 0 <= j < i ==> t[j] != ':') && (i < |t| ==> t[i] == ':')
  {
    if t == [] || t[0] == ':' then 0 else 1 + FirstColon(t[1..])
  }

  /**
   * The key of a line and what follows its colon. A quoted key ends at the last quote of the line, or
   * three characters before the quote that opens a quoted value.
   */
  function SplitKey(t: string): Option<(string, string)> {
    if t != "" && t[0] == '"' then
      var e: int := if t[|t| - 1] == '"' then LastOpen(t, |t| - 1) - 3 else LastQuote(t, |t|);
      if 1 <= e < |t| - 1 && t[e] == '"' && t[e + 1] == ':' then Some((UnescapeKey(t[1..e]), t[e + 2..])) else None
    else
      var i := FirstColon(t);
      if i < |t| then Some((t[..i], t[i + 1..])) else None
  }

  /** One quoted text, with nothing behind it. */
  predicate OneQuoted(t: string) {
    && |t| > 1 && t[0] == '"' && t[|t| - 1] == '"'
    && forall q :: 0 < q < |t| - 1 && t[q] == '"' ==> t[q - 1] == '\\'
  }

  predicate IsKeyLine(t: string) {
    if t != "" && t[0] == '"' then !OneQuoted(t) else ':' in t
  }

  // ---------------------------------------------------------------------------
  // Blocks
  // ---------------------------------------------------------------------------

  function Indent(n: nat): (s: string)
    ensures |s| == 2 * n && forall i :: 0 <= i < |s| ==> s[i] == ' '
  {
    seq(2 * n, _ => ' ')
  }

  /** The first line and what follows its line break. */
  function CutLine(t: string): (r: Option<(string, string)>)
    ensures r.Some? ==> |r.value.1| < |t|
  {
    if t == [] then None
    else if t[0] == '\n' then Some(("", t[1..]))
    else match CutLine(t[1..])
         case None => None
         case Some(p) => Some(([t[0]] + p.0, p.1))
  }

  /** The value of a key: what follows the colon, and the lines below at level `n`. */
  function ReadTail(tail: string, rest: string, n: nat): (r: Option<(Value, string)>)
    ensures r.Some? ==> |r.value.1| <= |rest|
    decreases |rest|, 4
  {
    if tail == "" then ReadBlock(rest, n)
    else if tail == " {}" then Some((Map(map[]), rest))
    else if tail == " []" then Some((List([]), rest))
    else if tail[0] != ' ' then None
    else match ReadScalar(tail[1..])
         case None => None
         case Some(v) => Some((v, rest))
  }

  function ReadBlock(t: string, n: nat): (r: Option<(Value, string)>)
    ensures r.Some? ==> |r.value.1| <= |t|
    decreases |t|, 3
  {
    if Indent(n) + "- " <= t then
      match ReadItems(t, n)
      case None => None
      case Some(p) => Some((List(p.0), p.1))
    else
      match ReadEntries(t, n)
      case None => None
      case Some(p) => Some((Map(p.0), p.1))
  }

  /** The entries at level `n`, and the first text that is not indented that far. */
  function ReadEntries(t: string, n: nat): (r: Option<(map<string, Value>, string)>)
    ensures r.Some? ==> |r.value.1| <= |t|
    decreases |t|, 2
  {
    if t == "" || !(Indent(n) <= t) then Some((map[], t)) else ReadBody(t[2 * n..], n)
  }

  /** The same behind the first indentation. */
  function ReadBody(t: string, n: nat): (r: Option<(map<string, Value>, string)>)
    ensures r.Some? ==> |r.value.1| < |t|
    decreases |t|, 1
  {
    match CutLine(t)
    case None => None
    case Some(l) =>
      match SplitKey(l.0)
      case None => None
      case Some(k) =>
        match ReadTail(k.1, l.1, n + 1)
        case None => None
        case Some(v) =>
          match ReadEntries(v.1, n)
          case None => None
          case Some(m) => Some((map[k.0 := v.0] + m.0, m.1))
  }

  function ReadItems(t: string, n: nat): (r: Option<(seq<Value>, string)>)
    ensures r.Some? ==> |r.value.1| <= |t|
    decreases |t|, 2
  {
    if !(Indent(n) + "- " <= t) then Some(([], t))
    else
      match ReadItem(t[2 * n + 2..], n)
      case None => None
      case Some(x) =>
        match ReadItems(x.1, n)
        case None => None
        case Some(xs) => Some(([x.0] + xs.0, xs.1))
  }

  /** An item behind its dash: a map with its first key there, a list below, or a scalar. */
  function ReadItem(t: string, n: nat): (r: Option<(Value, string)>)
    ensures r.Some? ==> |r.value.1| <= |t|
    decreases |t|, 2
  {
    match CutLine(t)
    case None => None
    case Some(l) =>
      if l.0 == "" then
        match ReadItems(l.1, n + 1)
        case None => None
        case Some(p) => Some((List(p.0), p.1))
      else if l.0 == "{}" then Some((Map(map[]), l.1))
      else if IsKeyLine(l.0) then
        match ReadBody(t, n + 1)
        case None => None
        case Some(p) => Some((Map(p.0), p.1))
      else
        match ReadScalar(l.0)
        case None => None
        case Some(v) => Some((v, l.1))
  }

  /** A whole object. */
  function Read(t: string): Option<map<string, Value>> {
    match ReadEntries(t, 0)
    case None => None
    case Some(p) => if p.1 == "" then Some(p.0) else None
  }

  // ---------------------------------------------------------------------------
  // Scalars and keys read back
  // ---------------------------------------------------------------------------

  lemma {:induction false} UnescapeReads(s: string)
    ensures Unescape(EscapedChars(s)) == s
  {
    if s != [] {
      var e, r := EscapedChar(s[0]), EscapedChars(s[1..]);
      UnescapeReads(s[1..]);
      assert (e + r)[|e|..] == r;
      UnescapeFirst(s[0], r);
      assert s == [s[0]] + s[1..];
    }
  }

  lemma UnescapeFirst(c: char, r: string)
    ensures Unescape(EscapedChar(c) + r) == [c] + Unescape(r)
  {
    var e := EscapedChar(c);
    var t := e + r;
    assert t[0] == e[0] && t[|e|..] == r;
    if |e| == 2 {
      assert t[1] == e[1];
    }
  }

  lemma {:induction false} UnescapeKeyReads(k: string)
    ensures UnescapeKey(KeyEscaped(k)) == k
  {
    if k != [] {
      var e := if k[0] == '"' then "\\\"" else [k[0]];
      var r := KeyEscaped(k[1..]);
      UnescapeKeyReads(k[1..]);
      KeyEscapedGuarded(k[1..]);
      assert (e + r)[|e|..] == r && (e + r)[0] == e[0];
      assert r != [] ==> r[0] != '"';
      assert k == [k[0]] + k[1..];
      if |e| == 2 {
        assert (e + r)[1] == e[1];
      } else if r != [] {
        assert (e + r)[1] == r[0];
      }
    }
  }

  lemma {:induction false} DecimalIsText(s: string)
    requires s != "" && AllDigits(s) && (s[0] != '0' || s == "0")
    ensures NatText(NatValue(s)) == s && (s[0] != '0' ==> NatValue(s) > 0)
  {
    var h, d := s[..|s| - 1], s[|s| - 1];
    assert s == h + [d];
    if h == "" {
      assert s == [d];
    } else {
      assert h[0] == s[0];
      DecimalIsText(h);
    }
  }

  /** A canonical decimal in range is the text of its value. */
  lemma CanonicalIsText(t: string)
    requires Canonical(t) && ParseInt(t).Some?
    ensures IntText(ParseInt(t).value) == t
  {
    hide NatText, NatValue;
    if t[0] == '-' {
      DecimalIsText(t[1..]);
      assert t == "-" + t[1..];
    } else {
      assert IsDigit(t[0]);
      DecimalIsText(t);
    }
  }

  lemma {:induction false} NatTextFirst(n: nat)
    ensures NatText(n)[0] == '0' ==> n == 0 && NatText(n) == "0"
  {
    if n >= 10 {
      NatTextFirst(n / 10);
      assert NatText(n)[0] == NatText(n / 10)[0];
    }
  }

  lemma IntReads(n: Int64)
    ensures Canonical(IntText(n)) && ParseInt(IntText(n)) == Some(n)
    ensures IntText(n) != "" && (IsDigit(IntText(n)[0]) || IntText(n)[0] == '-')
  {
    hide NatText, NatValue;
    var k: int := n;
    var m: nat := if k < 0 then -k else k;
    NatRoundTrip(m);
    NatTextFirst(m);
    var t := IntText(n);
    if n < 0 {
      assert t[1..] == NatText(m);
    } else {
      assert IsDigit(t[0]);
    }
  }

  /** Every scalar is read back from its text. */
  lemma ScalarReads(isFloat: string -> bool, v: Value)
    requires FloatSyntax(isFloat) && v.Scalar?()
    ensures ReadScalar(ScalarText(isFloat, v)) == Some(v)
  {
    hide IntText, ParseInt, Unescape, Canonical, EscapedChars;
    match v
    case Int(n) =>
      IntReads(n);
    case Str(s) =>
      StringReads(isFloat, s);
    case _ =>
  }

  lemma StringReads(isFloat: string -> bool, s: string)
    requires FloatSyntax(isFloat)
    ensures ReadScalar(StringText(isFloat, s)) == Some(Str(s))
  {
    hide IntText, ParseInt, Unescape, Canonical, EscapedChars, StringText, NeedsQuote;
    StringTextForms(isFloat, s);
    if Bare(isFloat, s) {
      BareForm(isFloat, s);
      assert ToLower("null") == "null" && ToLower("true") == "true" && ToLower("false") == "false";
      if Canonical(s) && ParseInt(s).Some? {
        CanonicalIsFloat(isFloat, s);
      }
    } else {
      var x := EscapedChars(s);
      UnescapeReads(s);
      assert Quoted(x)[0] == '"' && Quoted(x)[|x| + 1] == '"' && Quoted(x)[1..|x| + 1] == x;
    }
  }

  lemma CanonicalIsFloat(isFloat: string -> bool, s: string)
    requires FloatSyntax(isFloat) && Canonical(s) && ParseInt(s).Some?
    ensures isFloat(s)
  {
    hide IntText, ParseInt, Canonical;
    CanonicalIsText(s);
    ParseIntInRange(s);
    var n: Int64 := ParseInt(s).value;
    assert isFloat(IntText(n));
  }

  lemma ParseIntInRange(s: string)
    requires ParseInt(s).Some?
    ensures -0x8000_0000_0000_0000 <= ParseInt(s).value < 0x8000_0000_0000_0000
  {
  }

  lemma {:induction false} LastQuoteIs(t: string, i: nat, q: nat)
    requires 0 < q < i <= |t| && t[q] == '"' && forall p :: q < p < i ==> t[p] != '"'
    ensures LastQuote(t, i) == q
  {
    if i - 1 > q {
      LastQuoteIs(t, i - 1, q);
    }
  }

  lemma {:induction false} LastOpenIs(t: string, i: nat, q: nat)
    requires 0 < q < i <= |t| && t[q] == '"' && t[q - 1] != '\\'
    requires forall p :: q < p < i && t[p] == '"' ==> t[p - 1] == '\\'
    ensures LastOpen(t, i) == q
  {
    if i - 1 > q {
      LastOpenIs(t, i - 1, q);
    }
  }

  lemma QuotedKeyReads(a: string, l: string)
    requires TailShape(l)
    ensures SplitKey(Quoted(a) + ":" + l) == Some((UnescapeKey(a), l))
  {
    hide UnescapeKey, TailShape;
    var t, n := Quoted(a) + ":" + l, |a|;
    QuotedKeyQuotes(a, l);
    if t[|t| - 1] == '"' {
      LastOpenIs(t, |t| - 1, n + 4);
    } else {
      LastQuoteIs(t, |t|, n + 1);
    }
    assert t[0] == '"' && t[n + 2] == ':' && t[1..n + 1] == a && t[n + 3..] == l;
  }

  /** Every key is read back from its line. */
  lemma KeyReads(k: string, l: string)
    requires TailShape(l)
    ensures SplitKey(KeyText(k) + ":" + l) == Some((k, l))
  {
    hide UnescapeKey, LastQuote, LastOpen, TailShape, KeyText, KeyEscaped;
    KeyTextForms(k);
    if KeyText(k) == k {
      BareKeyReads(k, l);
    } else {
      QuotedKeyReads(KeyEscaped(k), l);
      UnescapeKeyReads(k);
    }
  }

  lemma BareKeyReads(k: string, l: string)
    requires k != "" && ':' !in k && '"' !in k
    ensures SplitKey(k + ":" + l) == Some((k, l))
  {
    var t := k + ":" + l;
    assert t[0] == k[0] && k[0] in k;
    assert t[|k|] == ':' && forall i :: 0 <= i < |k| ==> t[i] == k[i] && k[i] in k;
    assert FirstColon(t) == |k|;
    assert t[..|k|] == k && t[|k| + 1..] == l;
  }

  // ---------------------------------------------------------------------------
  // Blocks read back
  // ---------------------------------------------------------------------------

  lemma IndentIs(n: nat)
    ensures Indent(n) == Yaml.Spaces(2 * n)
  {
  }

  lemma {:induction false} CutsLine(l: string, r: string)
    requires '\n' !in l
    ensures CutLine(l + ['\n'] + r) == Some((l, r))
  {
    var t := l + ['\n'] + r;
    if l == [] {
      assert t[1..] == r;
    } else {
      assert t[1..] == l[1..] + ['\n'] + r;
      CutsLine(l[1..], r);
      assert l == [l[0]] + l[1..];
    }
  }

  /** What is not indented as far as level `n` ends a block of that level. */
  lemma ShallowEnds(r: string, n: nat)
    requires Shallow(r, 2 * n)
    ensures ReadEntries(r, n) == Some((map[], r))
    ensures ReadItems(r, n) == Some(([], r))
  {
    if r != "" {
      var i :| 0 <= i < 2 * n && i < |r| && r[i] != ' ';
      assert Indent(n)[i] == ' ' && (Indent(n) + "- ")[i] == ' ';
    }
  }

  function Restrict(fields: map<string, Value>, ks: seq<string>): map<string, Value> {
    map k | k in fields && k in ks :: fields[k]
  }

  lemma RestrictCons(fields: map<string, Value>, ks: seq<string>)
    requires ks != [] && ks[0] in fields
    ensures map[ks[0] := fields[ks[0]]] + Restrict(fields, ks[1..]) == Restrict(fields, ks)
  {
    assert ks == [ks[0]] + ks[1..];
  }

  /** The value of a key is read back from its tail and the lines below it. */
  lemma {:induction false} TailReads(isFloat: string -> bool, v: Value, n: nat, r: string)
    requires FloatSyntax(isFloat) && CleanKeys(v) && Shallow(r, 2 * n)
    ensures ReadTail(FirstLine(isFloat, v), Nested(isFloat, v, n) + r, n) == Some((v, r))
    decreases v
  {
    hide FloatSyntax, ReadScalar, ScalarText, ReadEntries, ReadItems, EntriesText, ItemsText, Shallow;
    var l := FirstLine(isFloat, v);
    assert "" + r == r;
    if v.Scalar?() {
      ScalarReads(isFloat, v);
      ScalarFacts(isFloat, v);
      assert l[1..] == ScalarText(isFloat, v) && l[1] == ScalarText(isFloat, v)[0];
      ScalarIsNoBracket(isFloat, v);
    } else if v.List? {
      if v.items == [] {
        NoItems(isFloat, v, n);
      } else {
        ItemsRead(isFloat, v, 0, n, r);
        ItemsStart(isFloat, v, n, r);
        assert v.items[0..] == v.items;
      }
    } else if v.fields == map[] {
      NoEntries(isFloat, v, n);
    } else {
      MapKeys(v);
      var ks := SortedKeys(v.fields.Keys, false);
      SortedLength(v.fields.Keys, false);
      EntriesRead(isFloat, v, ks, n, r);
      EntriesStart(isFloat, v, ks, n, r);
      AllOfIt(v, ks);
    }
  }

  lemma ScalarIsNoBracket(isFloat: string -> bool, v: Value)
    requires FloatSyntax(isFloat) && v.Scalar?()
    ensures ScalarText(isFloat, v) != "{}" && ScalarText(isFloat, v) != "[]" && ScalarText(isFloat, v) != ""
  {
    ScalarFacts(isFloat, v);
    assert "{}"[0] == '{' && "[]"[0] == '[';
  }

  lemma NoItems(isFloat: string -> bool, v: Value, n: nat)
    requires v.List? && v.items == []
    ensures Nested(isFloat, v, n) == ""
  {
  }

  lemma NoEntries(isFloat: string -> bool, v: Value, n: nat)
    requires v.Map? && v.fields == map[]
    ensures Nested(isFloat, v, n) == ""
  {
    SortedLength(v.fields.Keys, false);
  }

  lemma AllOfIt(v: Value, ks: seq<string>)
    requires v.Map? && Elems(ks) == v.fields.Keys
    ensures Restrict(v.fields, ks) == v.fields
  {
    assert forall k :: k in v.fields ==> k in Elems(ks) && k in ks;
  }

  /** A list starts with a dash, a map does not. */
  lemma ItemsStart(isFloat: string -> bool, v: Value, n: nat, r: string)
    requires v.List? && v.items != []
    ensures Indent(n) + "- " <= ItemsText(isFloat, v, 0, n) + r
  {
    hide ItemText;
    IndentIs(n);
    ItemsIndent(isFloat, v, 0, n, r);
  }

  lemma EntriesStart(isFloat: string -> bool, v: Value, ks: seq<string>, n: nat, r: string)
    requires v.Map? && ks != [] && Elems(ks) <= v.fields.Keys
    ensures !(Indent(n) + "- " <= EntriesText(isFloat, v, ks, n) + r)
  {
    hide BodyText;
    BodyStart(isFloat, v, ks, n);
    EntriesIndent(isFloat, v, ks, n, r);
    var t, b := EntriesText(isFloat, v, ks, n) + r, BodyText(isFloat, v, ks, n);
    assert t[2 * n] == b[0] && t[2 * n + 1] == b[1];
    assert (Indent(n) + "- ")[2 * n] == '-' && (Indent(n) + "- ")[2 * n + 1] == ' ';
  }

  lemma {:induction false} EntriesRead(isFloat: string -> bool, v: Value, ks: seq<string>, n: nat, r: string)
    requires FloatSyntax(isFloat) && v.Map? && CleanKeys(v) && Elems(ks) <= v.fields.Keys && Shallow(r, 2 * n)
    ensures ReadEntries(EntriesText(isFloat, v, ks, n) + r, n) == Some((Restrict(v.fields, ks), r))
    decreases v, |ks|, 2
  {
    hide FloatSyntax, ReadBody, BodyText, Shallow, CleanKeys;
    EntriesIndent(isFloat, v, ks, n, r);
    if ks == [] {
      ShallowEnds(r, n);
      assert Restrict(v.fields, ks) == map[];
    } else {
      var b := BodyText(isFloat, v, ks, n) + r;
      BodyRead(isFloat, v, ks, n, r);
      IndentIs(n);
      assert Indent(n) <= Indent(n) + b && (Indent(n) + b)[2 * n..] == b;
      BodyStart(isFloat, v, ks, n);
    }
  }

  lemma {:induction false} BodyRead(isFloat: string -> bool, v: Value, ks: seq<string>, n: nat, r: string)
    requires FloatSyntax(isFloat) && v.Map? && CleanKeys(v) && ks != [] && Elems(ks) <= v.fields.Keys
    requires Shallow(r, 2 * n)
    ensures ReadBody(BodyText(isFloat, v, ks, n) + r, n) == Some((Restrict(v.fields, ks), r))
    decreases v, |ks|, 1
  {
    hide FloatSyntax, BodyText, EntriesText, Nested, FirstLine, Shallow;
    hide ReadTail, ReadEntries, CutLine, SplitKey, Restrict;
    BodySplit(isFloat, v, ks, n, r);
    var x, rest := v.fields[ks[0]], EntriesText(isFloat, v, ks[1..], n) + r;
    CutsLine(KeyText(ks[0]) + ":" + FirstLine(isFloat, x), Nested(isFloat, x, n + 1) + rest);
    FirstLineFacts(isFloat, x);
    KeyReads(ks[0], FirstLine(isFloat, x));
    EntriesShallow(isFloat, v, ks[1..], n, r);
    TailReads(isFloat, x, n + 1, rest);
    EntriesRead(isFloat, v, ks[1..], n, r);
    RestrictCons(v.fields, ks);
  }

  lemma {:induction false} ItemsRead(isFloat: string -> bool, v: Value, i: nat, n: nat, r: string)
    requires FloatSyntax(isFloat) && v.List? && CleanKeys(v) && i <= |v.items| && Shallow(r, 2 * n)
    ensures ReadItems(ItemsText(isFloat, v, i, n) + r, n) == Some((v.items[i..], r))
    decreases v, |v.items| - i, 2
  {
    hide FloatSyntax, ReadItem, ItemText, Shallow;
    ItemsIndent(isFloat, v, i, n, r);
    if i == |v.items| {
      ShallowEnds(r, n);
    } else {
      var x, rest := v.items[i], ItemsText(isFloat, v, i + 1, n) + r;
      ItemsShallow(isFloat, v, i + 1, n, r);
      ItemRead(isFloat, x, n, rest);
      ItemsRead(isFloat, v, i + 1, n, r);
      IndentIs(n);
      var p, b := Indent(n) + "- ", ItemText(isFloat, x, n) + rest;
      assert p <= p + b && (p + b)[2 * n + 2..] == b;
      DropFirst(v.items, i);
    }
  }

  lemma {:induction false} ItemRead(isFloat: string -> bool, x: Value, n: nat, r: string)
    requires FloatSyntax(isFloat) && CleanKeys(x) && Shallow(r, 2 * (n + 1))
    ensures ReadItem(ItemText(isFloat, x, n) + r, n) == Some((x, r))
    decreases x
  {
    hide FloatSyntax, ReadScalar, ReadBody, ReadItems, BodyText, ItemsText, CutLine, IsKeyLine, Shallow, ScalarText;
    ItemSplit(isFloat, x, n, r);
    CutsLine(ItemHead(isFloat, x), ItemRest(isFloat, x, n, r));
    if x.Scalar?() {
      ScalarReads(isFloat, x);
      ScalarIsNoBracket(isFloat, x);
      ScalarIsNoKey(isFloat, x);
    } else if x.List? {
      ItemsRead(isFloat, x, 0, n + 1, r);
      assert x.items[0..] == x.items;
    } else if x.fields != map[] {
      MapKeys(x);
      var ks := SortedKeys(x.fields.Keys, false);
      HeadIsKey(isFloat, x);
      BodyRead(isFloat, x, ks, n + 1, r);
      AllOfIt(x, ks);
    }
  }

  lemma ScalarIsNoKey(isFloat: string -> bool, v: Value)
    requires FloatSyntax(isFloat) && v.Scalar?()
    ensures !IsKeyLine(ScalarText(isFloat, v))
  {
    ScalarFacts(isFloat, v);
    var t := ScalarText(isFloat, v);
    if '"' in t {
      QuotedInside(t);
    }
  }

  lemma HeadIsKey(isFloat: string -> bool, x: Value)
    requires FloatSyntax(isFloat) && x.Map? && x.fields != map[]
    ensures var h := ItemHead(isFloat, x); h != "" && h != "{}" && IsKeyLine(h)
  {
    hide FirstLine, OneQuoted;
    MapKeys(x);
    var ks := SortedKeys(x.fields.Keys, false);
    assert ks[0] in Elems(ks);
    KeyTextForms(ks[0]);
    var k, l := KeyText(ks[0]), FirstLine(isFloat, x.fields[ks[0]]);
    var h := k + ":" + l;
    assert h[0] == k[0] && h[|k|] == ':';
    FirstLineFacts(isFloat, x.fields[ks[0]]);
    assert Special('{');
    if k != ks[0] {
      QuotedKeyQuotes(KeyEscaped(ks[0]), l);
      KeyLineIsNotOne(h, |KeyEscaped(ks[0])|);
    }
  }

  lemma KeyLineIsNotOne(h: string, n: nat)
    requires QuotesOf(h, n)
    ensures !OneQuoted(h)
  {
  }

  // ---------------------------------------------------------------------------
  // Main results
  // ---------------------------------------------------------------------------

  /** Every object is read back from its printed text. */
  lemma MarshalReads(isFloat: string -> bool, obj: map<string, Value>)
    requires FloatSyntax(isFloat) && CleanKeys(Map(obj))
    ensures Read(MarshalText(isFloat, obj)) == Some(obj)
  {
    hide FloatSyntax, ReadEntries, EntriesText, CleanKeys;
    var ks := SortedKeys(obj.Keys, true);
    var t := EntriesText(isFloat, Map(obj), ks, 0);
    EntriesRead(isFloat, Map(obj), ks, 0, "");
    assert t + "" == t;
    AllOfIt(Map(obj), ks);
  }

  /** So the printed text of an object determines the object. */
  lemma MarshalInjective(isFloat: string -> bool, a: map<string, Value>, b: map<string, Value>)
    requires FloatSyntax(isFloat) && CleanKeys(Map(a)) && CleanKeys(Map(b))
    requires MarshalText(isFloat, a) == MarshalText(isFloat, b)
    ensures a == b
  {
    hide Read, MarshalText, CleanKeys, FloatSyntax;
    MarshalReads(isFloat, a);
    MarshalReads(isFloat, b);
  }

  /** And comparing printed lines is comparing objects. */
  lemma LinesEqualIffObjectsEqual(isFloat: string -> bool, a: map<string, Value>, b: map<string, Value>)
    requires FloatSyntax(isFloat) && CleanKeys(Map(a)) && CleanKeys(Map(b))
    ensures YamlLines(isFloat, a) == YamlLines(isFloat, b) <==> a == b
  {
    hide YamlLines, MarshalText, CleanKeys, FloatSyntax;
    if YamlLines(isFloat, a) == YamlLines(isFloat, b) {
      TrimmedText(isFloat, a);
      TrimmedText(isFloat, b);
      MarshalInjective(isFloat, a, b);
    }
  }
}
