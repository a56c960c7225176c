// Scalars and keys of the YAML-like printer (e2e/pkg/debug/yaml.go): when a string is quoted, how
// it is escaped, and why a printed line still says which key and which value it was printed from.
module YamlText {
  import opened Text

  // ---------------------------------------------------------------------------
  // yamlString and yamlKey
  // ---------------------------------------------------------------------------

  predicate Special(c: char) {
    || c == ':' || c == '#' || c == '[' || c == ']' || c == '{' || c == '}' || c == ',' || c == '&' || c == '*'
    || c == '!' || c == '|' || c == '>' || c == '\'' || c == '"' || c == '%' || c == '@' || c == '`'
  }

  function LowerChar(c: char): char { if 'A' <= c <= 'Z' then c + 32 as char else c }

  function ToLower(s: string): string { seq(|s|, i requires 0 <= i < |s| => LowerChar(s[i])) }

  predicate Reserved(s: string) {
    var t := ToLower(s);
    t == "true" || t == "false" || t == "yes" || t == "no" || t == "on" || t == "off" || t == "null" || t == "~"
  }

  predicate QuoteAt(s: string, i: nat)
    requires i < |s|
  {
    || Special(s[i]) || s[i] == '\n' || s[i] == '\r' || s[i] == '\t'
    || (i == 0 && (s[i] == '-' || s[i] == '?' || s[i] == ' '))
  }

  predicate NeedsQuote(s: string) { exists i :: 0 <= i < |s| && QuoteAt(s, i) }

  /** strings.ReplaceAll for a one-character pattern. */
  function ReplaceAll(s: string, c: char, text: string): string {
    if s == [] then [] else (if s[0] == c then text else [s[0]]) + ReplaceAll(s[1..], c, text)
  }

  function Escaped(s: string): string {
    var s1 := ReplaceAll(s, '\\', "\\\\");
    var s2 := ReplaceAll(s1, '"', "\\\"");
    var s3 := ReplaceAll(s2, '\n', "\\n");
    var s4 := ReplaceAll(s3, '\r', "\\r");
    ReplaceAll(s4, '\t', "\\t")
  }

  function Quoted(s: string): string { "\"" + s + "\"" }

  /** `isFloat(s)` says whether strconv.ParseFloat accepts `s`. */
  function StringText(isFloat: string -> bool, s: string): string {
    if s == "" then Quoted("")
    else if Reserved(s) || isFloat(s) then Quoted(s)
    else if NeedsQuote(s) then Quoted(Escaped(s))
    else s
  }

  predicate NeedsKeyQuote(k: string) { exists i :: 0 <= i < |k| && (Special(k[i]) || k[i] == ' ') }

  function KeyEscaped(k: string): string { ReplaceAll(k, '"', "\\\"") }

  function KeyText(k: string): string {
    if k == "" then Quoted("")
    else if NeedsKeyQuote(k) then Quoted(KeyEscaped(k))
    else k
  }

  type Int64 = n: int | -0x8000_0000_0000_0000 <= n < 0x8000_0000_0000_0000

  predicate NumberChar(c: char) {
    IsDigit(c) || 'a' <= c <= 'z' || 'A' <= c <= 'Z' || c == '+' || c == '-' || c == '.' || c == '_'
  }

  /** What the printer relies on: integers parse, and nothing with other characters does. */
  ghost predicate FloatSyntax(isFloat: string -> bool) {
    && (forall n: Int64 :: isFloat(IntText(n)))
    && (forall s, i :: isFloat(s) && 0 <= i < |s| ==> NumberChar(s[i]))
  }

  method YamlString(isFloat: string -> bool, s: string) returns (r: string)
    ensures r == StringText(isFloat, s)
  {
    if s == "" {
      return Quoted("");
    }
    if Reserved(s) || isFloat(s) {
      return Quoted(s);
    }
    var needsQuote := false;
    for i := 0 to |s|
      invariant !needsQuote ==> forall j :: 0 <= j < i ==> !QuoteAt(s, j)
      invariant needsQuote ==> NeedsQuote(s)
    {
      if QuoteAt(s, i) {
        needsQuote := true;
        break;
      }
    }
    if !needsQuote {
      return s;
    }
    r := ReplaceAll(s, '\\', "\\\\");
    r := ReplaceAll(r, '"', "\\\"");
    r := ReplaceAll(r, '\n', "\\n");
    r := ReplaceAll(r, '\r', "\\r");
    r := ReplaceAll(r, '\t', "\\t");
    r := Quoted(r);
  }

  method YamlKey(k: string) returns (r: string)
    ensures r == KeyText(k)
  {
    if k == "" {
      return Quoted("");
    }
    for i := 0 to |k|
      invariant forall j :: 0 <= j < i ==> !(Special(k[j]) || k[j] == ' ')
    {
      if Special(k[i]) || k[i] == ' ' {
        return Quoted(ReplaceAll(k, '"', "\\\""));
      }
    }
    return k;
  }

  // ---------------------------------------------------------------------------
  // The five replacements, one after another, escape character by character
  // ---------------------------------------------------------------------------

  function EscapedChar(c: char): string {
    match c
    case '\\' => "\\\\"
    case '"' => "\\\""
    case '\n' => "\\n"
    case '\r' => "\\r"
    case '\t' => "\\t"
    case _ => [c]
  }

  function EscapedChars(s: string): string {
    if s == [] then [] else EscapedChar(s[0]) + EscapedChars(s[1..])
  }

  lemma {:induction false} ReplaceConcat(p: string, q: string, c: char, text: string)
    ensures ReplaceAll(p + q, c, text) == ReplaceAll(p, c, text) + ReplaceAll(q, c, text)
  {
    if p == [] {
      assert p + q == q;
    } else {
      assert (p + q)[1..] == p[1..] + q;
      ReplaceConcat(p[1..], q, c, text);
    }
  }

  lemma ReplaceAbsent(s: string, c: char, text: string)
    requires |s| <= 2 && c !in s
    ensures ReplaceAll(s, c, text) == s
  {
    if s != [] {
      assert s == [s[0]] + s[1..];
      assert |s| == 2 ==> s[1..] == [s[1]] + [];
    }
  }

  function EscapedStep(x: string): string {
    ReplaceAll(ReplaceAll(ReplaceAll(ReplaceAll(x, '"', "\\\""), '\n', "\\n"), '\r', "\\r"), '\t', "\\t")
  }

  lemma EscapedStepConcat(p: string, q: string)
    ensures EscapedStep(p + q) == EscapedStep(p) + EscapedStep(q)
  {
    var p1, q1 := ReplaceAll(p, '"', "\\\""), ReplaceAll(q, '"', "\\\"");
    ReplaceConcat(p, q, '"', "\\\"");
    var p2, q2 := ReplaceAll(p1, '\n', "\\n"), ReplaceAll(q1, '\n', "\\n");
    ReplaceConcat(p1, q1, '\n', "\\n");
    var p3, q3 := ReplaceAll(p2, '\r', "\\r"), ReplaceAll(q2, '\r', "\\r");
    ReplaceConcat(p2, q2, '\r', "\\r");
    ReplaceConcat(p3, q3, '\t', "\\t");
  }

  lemma EscapedStepChar(c: char)
    ensures EscapedStep(if c == '\\' then "\\\\" else [c]) == EscapedChar(c)
  {
    var x := if c == '\\' then "\\\\" else [c];
    var x1 := if c == '"' then "\\\"" else x;
    var x2 := if c == '\n' then "\\n" else x1;
    var x3 := if c == '\r' then "\\r" else x2;
    assert ReplaceAll(x, '"', "\\\"") == x1 by { ReplaceOne(x, '"', "\\\""); }
    assert ReplaceAll(x1, '\n', "\\n") == x2 by { ReplaceOne(x1, '\n', "\\n"); }
    assert ReplaceAll(x2, '\r', "\\r") == x3 by { ReplaceOne(x2, '\r', "\\r"); }
    ReplaceOne(x3, '\t', "\\t");
  }

  lemma ReplaceOne(x: string, c: char, text: string)
    requires x == [c] || (|x| <= 2 && c !in x)
    ensures ReplaceAll(x, c, text) == if x == [c] then text else x
  {
    if x == [c] {
      assert x[1..] == [];
      assert text + [] == text;
    } else {
      ReplaceAbsent(x, c, text);
    }
  }

  lemma {:induction false} SequentialEscape(s: string)
    ensures Escaped(s) == EscapedChars(s)
  {
    if s != [] {
      var head := if s[0] == '\\' then "\\\\" else [s[0]];
      var tail := ReplaceAll(s[1..], '\\', "\\\\");
      SequentialEscape(s[1..]);
      EscapedStepConcat(head, tail);
      EscapedStepChar(s[0]);
    }
  }

  lemma EscapedUnchanged(s: string)
    requires forall i :: 0 <= i < |s| ==> EscapedChar(s[i]) == [s[i]]
    ensures EscapedChars(s) == s
  {
    if s != [] {
      EscapedUnchanged(s[1..]);
    }
  }

  // ---------------------------------------------------------------------------
  // Both escapes can be undone
  // ---------------------------------------------------------------------------

  /** Every quote inside is preceded by a backslash. */
  ghost predicate Guarded(x: string) {
    forall i :: 0 <= i < |x| && x[i] == '"' ==> i > 0 && x[i - 1] == '\\'
  }

  lemma GuardedConcat(p: string, q: string)
    requires Guarded(p) && Guarded(q)
    ensures Guarded(p + q)
  {
  }

  lemma {:induction false} EscapedGuarded(s: string)
    ensures Guarded(EscapedChars(s)) && '\n' !in EscapedChars(s)
  {
    if s != [] {
      EscapedGuarded(s[1..]);
      GuardedConcat(EscapedChar(s[0]), EscapedChars(s[1..]));
    }
  }

  lemma {:induction false} KeyEscapedGuarded(k: string)
    ensures Guarded(KeyEscaped(k))
    ensures '\n' !in k ==> '\n' !in KeyEscaped(k)
  {
    if k != [] {
      KeyEscapedGuarded(k[1..]);
      GuardedConcat(if k[0] == '"' then "\\\"" else [k[0]], KeyEscaped(k[1..]));
    }
  }

  // ---------------------------------------------------------------------------
  // The text of a string
  // ---------------------------------------------------------------------------

  /** Prints as itself: not empty, not a reserved word or number, nothing that needs quotes. */
  predicate Bare(isFloat: string -> bool, s: string) {
    s != "" && !Reserved(s) && !isFloat(s) && !NeedsQuote(s)
  }

  lemma StringTextForms(isFloat: string -> bool, s: string)
    requires FloatSyntax(isFloat)
    ensures StringText(isFloat, s) == if Bare(isFloat, s) then s else Quoted(EscapedChars(s))
  {
    if Reserved(s) || isFloat(s) {
      NothingToEscape(isFloat, s);
      EscapedUnchanged(s);
    } else if NeedsQuote(s) {
      SequentialEscape(s);
    }
  }

  lemma NothingToEscape(isFloat: string -> bool, s: string)
    requires FloatSyntax(isFloat) && (Reserved(s) || isFloat(s))
    ensures forall i :: 0 <= i < |s| ==> EscapedChar(s[i]) == [s[i]]
  {
    assert forall i :: 0 <= i < |s| ==> LowerChar(s[i]) == ToLower(s)[i];
  }

  /** Exactly which strings print as themselves. */
  lemma StringIsBareIff(isFloat: string -> bool, s: string)
    requires FloatSyntax(isFloat)
    ensures StringText(isFloat, s) == s <==>
            && s != "" && !isFloat(s) && s[0] !in "-? "
            && (forall i :: 0 <= i < |s| ==> s[i] !in ":#[]{},&*!|>'\"%@`\n\r\t")
            && ToLower(s) !in ["true", "false", "yes", "no", "on", "off", "null", "~"]
  {
    StringTextForms(isFloat, s);
    EscapedGrows(s);
    hide StringText, EscapedChars, ToLower, QuoteAt;
    forall i | 0 <= i < |s|
      ensures QuoteAt(s, i) <==> s[i] in ":#[]{},&*!|>'\"%@`\n\r\t" || (i == 0 && s[i] in "-? ")
    {
      QuoteAtIs(s, i);
    }
  }

  lemma QuoteAtIs(s: string, i: nat)
    requires i < |s|
    ensures QuoteAt(s, i) <==> s[i] in ":#[]{},&*!|>'\"%@`\n\r\t" || (i == 0 && s[i] in "-? ")
  {
  }

  lemma {:induction false} EscapedGrows(s: string)
    ensures |EscapedChars(s)| >= |s|
  {
    if s != [] {
      EscapedGrows(s[1..]);
    }
  }

  /** Exactly which keys do. */
  lemma KeyIsBareIff(k: string)
    ensures KeyText(k) == k <==> k != "" && forall i :: 0 <= i < |k| ==> k[i] !in ":#[]{},&*!|>'\"%@` "
  {
    KeyEscapedGrows(k);
    assert forall i :: 0 <= i < |k| ==> (Special(k[i]) || k[i] == ' ' <==> k[i] in ":#[]{},&*!|>'\"%@` ");
  }

  /** Letters are lowered, other characters kept. */
  lemma LowerCharIs(c: char)
    ensures 'A' <= c <= 'Z' ==> 'a' <= LowerChar(c) <= 'z' && LowerChar(c) - 'a' == c - 'A'
    ensures !('A' <= c <= 'Z') ==> LowerChar(c) == c
  {
  }

  // ---------------------------------------------------------------------------
  // The text of a line
  // ---------------------------------------------------------------------------

  /** Free of quotes, or a quoted text whose inner quotes are guarded. */
  ghost predicate ScalarShape(t: string) {
    '"' !in t || (exists x :: t == Quoted(x) && Guarded(x))
  }

  /** What follows the colon of a key on the same line. */
  ghost predicate TailShape(l: string) {
    '"' !in l || (exists x :: l == " " + Quoted(x) && Guarded(x))
  }

  /** Where the quotes of a line with a quoted key are. */
  ghost predicate QuotesOf(t: string, n: nat) {
    && n + 2 < |t| && t[n + 1] == '"'
    && (t[|t| - 1] != '"' ==> forall q :: n + 1 < q < |t| ==> t[q] != '"')
    && (t[|t| - 1] == '"' ==>
          && n + 4 < |t| - 1 && t[n + 4] == '"' && t[n + 3] == ' '
          && forall q :: n + 4 < q < |t| - 1 && t[q] == '"' ==> t[q - 1] == '\\')
  }

  lemma QuotedKeyQuotes(a: string, l: string)
    requires TailShape(l)
    ensures QuotesOf(Quoted(a) + ":" + l, |a|)
  {
    var t := Quoted(a) + ":" + l;
    if '"' !in l {
      assert l == t[|a| + 3..];
    } else {
      var x :| l == " " + Quoted(x) && Guarded(x);
      assert t == Quoted(a) + ": \"" + x + "\"";
      assert forall q :: |a| + 4 < q < |t| - 1 ==> t[q] == x[q - |a| - 5];
    }
  }

  /** A key prints as itself, without colon, quote, bracket or space, or in quotes. */
  lemma KeyTextForms(k: string)
    ensures KeyText(k) != []
    ensures KeyText(k) == k || KeyText(k) == Quoted(KeyEscaped(k))
    ensures KeyText(k) == k ==> forall i :: 0 <= i < |k| ==> !Special(k[i]) && k[i] != ' '
    ensures KeyText(k) == k ==> ':' !in k && '"' !in k && ' ' !in k
    ensures '\n' !in k ==> '\n' !in KeyText(k)
  {
    KeyEscapedGuarded(k);
    if k != "" && NeedsKeyQuote(k) {
      KeyEscapedGrows(k);
    }
  }

  lemma {:induction false} KeyEscapedGrows(k: string)
    ensures |KeyEscaped(k)| >= |k|
  {
    if k != [] {
      KeyEscapedGrows(k[1..]);
    }
  }

  ghost predicate OneQuotedText(t: string) {
    && |t| >= 2 && t[0] == '"' && t[|t| - 1] == '"'
    && forall q :: 0 < q < |t| - 1 && t[q] == '"' ==> t[q - 1] == '\\'
  }

  lemma QuotedInside(t: string)
    requires ScalarShape(t) && '"' in t
    ensures OneQuotedText(t)
  {
    var x :| t == Quoted(x) && Guarded(x);
    forall q | 0 < q < |t| - 1 && t[q] == '"' ensures t[q - 1] == '\\' {
      assert x[q - 1] == '"';
      assert t[q - 1] == x[q - 2];
    }
  }

}
