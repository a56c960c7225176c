// Text helpers shared by the models: decimal numbers, and where a separator first occurs.
module Text {

  predicate IsDigit(c: char) { '0' <= c <= '9' }

  predicate AllDigits(s: string) { forall i :: 0 <= i < |s| ==> IsDigit(s[i]) }

  function DigitChar(d: nat): (c: char)
    requires d < 10
    ensures IsDigit(c)
  {
    '0' + d as char
  }

  function DigitValue(c: char): nat
    requires IsDigit(c)
  {
    (c - '0') as nat
  }

  /** Decimal text of a natural number, without leading zeros. */
  function NatText(n: nat): (s: string)
    ensures s != [] && AllDigits(s)
  {
    if n < 10 then [DigitChar(n)] else NatText(n / 10) + [DigitChar(n % 10)]
  }

  function IntText(n: int): string {
    if n < 0 then "-" + NatText(-n) else NatText(n)
  }

  /** Each decimal digit is its own text, and a further digit is written behind. */
  lemma NatTextIs(n: nat, d: nat)
    requires d < 10
    ensures NatText(d) == ["0123456789"[d]]
    ensures n > 0 ==> NatText(10 * n + d) == NatText(n) + ["0123456789"[d]]
  {
  }

  function NatValue(s: string): nat
    requires AllDigits(s)
  {
    if s == [] then 0 else NatValue(s[..|s| - 1]) * 10 + DigitValue(s[|s| - 1])
  }

  lemma {:induction false} NatRoundTrip(n: nat)
    ensures NatValue(NatText(n)) == n
  {
    if n >= 10 {
      NatRoundTrip(n / 10);
      assert NatText(n)[..|NatText(n)| - 1] == NatText(n / 10);
    }
  }

  lemma Assoc<T>(p: seq<T>, q: seq<T>, r: seq<T>)
    ensures p + q + r == p + (q + r)
  {
  }

  /** strings.Split for a one-character separator. */
  function Split(s: string, c: char): (r: seq<string>)
    ensures r != []
  {
    if s == [] then [""]
    else
      var r := Split(s[1..], c);
      if s[0] == c then [""] + r else [[s[0]] + r[0]] + r[1..]
  }

  function Join(lines: seq<string>, c: char): string {
    if lines == [] then "" else if |lines| == 1 then lines[0] else lines[0] + [c] + Join(lines[1..], c)
  }

  lemma {:induction false} JoinSplit(s: string, c: char)
    ensures Join(Split(s, c), c) == s
  {
    if s != [] {
      var r := Split(s[1..], c);
      JoinSplit(s[1..], c);
      assert s == [s[0]] + s[1..];
      if s[0] == c {
        assert ([""] + r)[1..] == r;
        assert "" + [c] + Join(r, c) == [c] + Join(r, c);
      } else {
        var h := [s[0]] + r[0];
        assert ([h] + r[1..])[1..] == r[1..];
        if |r| > 1 {
          Assoc([s[0]], r[0] + [c], Join(r[1..], c));
          Assoc([s[0]], r[0], [c]);
        }
      }
    }
  }

  lemma {:induction false} SplitLine(x: string, r: string, c: char)
    requires c !in x
    ensures Split(x, c) == [x]
    ensures Split(x + [c] + r, c) == [x] + Split(r, c)
  {
    if x == [] {
      assert (x + [c] + r)[1..] == r;
    } else {
      SplitLine(x[1..], r, c);
      assert (x + [c] + r)[1..] == x[1..] + [c] + r;
      assert x == [x[0]] + x[1..];
    }
  }

  /** strings.TrimRight(s, "\n"). */
  function TrimNewlines(s: string): string {
    if s == [] || s[|s| - 1] != '\n' then s else TrimNewlines(s[..|s| - 1])
  }

  lemma DropFirst<T>(s: seq<T>, i: nat)
    requires i < |s|
    ensures s[i..] == [s[i]] + s[i + 1..]
  {
  }

  // ---------------------------------------------------------------------------
  // strings.Fields
  // ---------------------------------------------------------------------------

  /** unicode.IsSpace. */
  predicate IsSpace(c: char) {
    || '\t' <= c <= '\r' || c == ' ' || c == '\U{85}' || c == '\U{A0}' || c == '\U{1680}'
    || '\U{2000}' <= c <= '\U{200A}' || c == '\U{2028}' || c == '\U{2029}' || c == '\U{202F}'
    || c == '\U{205F}' || c == '\U{3000}'
  }

  /** A non-empty text without spaces. */
  predicate Token(t: string) { t != "" && forall i :: 0 <= i < |t| ==> !IsSpace(t[i]) }

  function TokenLen(s: string): (n: nat)
    ensures n <= |s| && (forall i :: 0 <= i < n ==> !IsSpace(s[i])) && (n < |s| ==> IsSpace(s[n]))
  {
    if s == [] || IsSpace(s[0]) then 0 else 1 + TokenLen(s[1..])
  }

  function Fields(s: string): seq<string> {
    if s == [] then []
    else if IsSpace(s[0]) then Fields(s[1..])
    else [s[..TokenLen(s)]] + Fields(s[TokenLen(s)..])
  }

  lemma NoFields()
    ensures Fields("") == []
  {
  }

  lemma FieldsToken(t: string, r: string)
    requires Token(t) && (r == "" || IsSpace(r[0]))
    ensures Fields(t + r) == [t] + Fields(r)
  {
    var s := t + r;
    assert TokenLen(s) == |t| by {
      assert r != "" ==> s[|t|] == r[0];
    }
    assert s[..|t|] == t && s[|t|..] == r;
  }

  lemma FieldsSpace(t: string, r: string)
    requires Token(t)
    ensures Fields(t + " " + r) == [t] + Fields(r)
  {
    assert t + " " + r == t + (" " + r);
    FieldsToken(t, " " + r);
    assert (" " + r)[1..] == r;
  }

  predicate Spaces(s: string) { forall i :: 0 <= i < |s| ==> IsSpace(s[i]) }

  lemma {:induction false} FieldsSkip(x: string, r: string)
    requires Spaces(x)
    ensures Fields(x + r) == Fields(r)
  {
    if x == [] {
      assert x + r == r;
    } else {
      assert (x + r)[1..] == x[1..] + r;
      FieldsSkip(x[1..], r);
    }
  }

  /** The fields that remain of space-separated tokens when the text is cut after `c` characters. */
  function CutFields(tokens: seq<string>, c: nat): seq<string> {
    if tokens == [] || c == 0 then []
    else if c <= |tokens[0]| then [tokens[0][..c]]
    else [tokens[0]] + CutFields(tokens[1..], c - |tokens[0]| - 1)
  }

  lemma TokenPrefix(t: string, c: nat)
    requires Token(t) && 0 < c <= |t|
    ensures Token(t[..c])
  {
  }

  lemma {:induction false} FieldsOfCut(tokens: seq<string>, c: nat)
    requires tokens != [] && forall i :: 0 <= i < |tokens| ==> Token(tokens[i])
    requires c <= |Join(tokens, ' ')|
    ensures Fields(Join(tokens, ' ')[..c]) == CutFields(tokens, c)
    decreases |tokens|
  {
    hide Fields, Token;
    var t := tokens[0];
    var s := Join(tokens, ' ');
    if c == 0 {
      assert s[..c] == "";
      NoFields();
    } else if c <= |t| {
      TokenPrefix(t, c);
      assert s[..c] == t[..c] == t[..c] + "";
      FieldsToken(t[..c], "");
      NoFields();
    } else {
      var r := Join(tokens[1..], ' ');
      assert s == t + " " + r;
      assert s[..c] == t + " " + r[..c - |t| - 1];
      FieldsSpace(t, r[..c - |t| - 1]);
      FieldsOfCut(tokens[1..], c - |t| - 1);
    }
  }

  /** What a cut leaves: whole tokens, and at most one more that is cut short. */
  lemma {:induction false} CutFieldsAre(tokens: seq<string>, c: nat)
    requires forall i :: 0 <= i < |tokens| ==> Token(tokens[i])
    ensures var f := CutFields(tokens, c);
            && |f| <= |tokens| && (tokens != [] && c > 0 ==> f != [])
            && (forall i :: 0 <= i < |f| - 1 ==> f[i] == tokens[i])
            && (f != [] ==> f[|f| - 1] != "" && f[|f| - 1] <= tokens[|f| - 1])
    decreases |tokens|
  {
    if tokens != [] && c > |tokens[0]| {
      CutFieldsAre(tokens[1..], c - |tokens[0]| - 1);
    }
  }

  /** A later cut shows no fewer fields. */
  lemma {:induction false} CutFieldsGrow(tokens: seq<string>, c: nat, c': nat)
    requires c <= c'
    ensures |CutFields(tokens, c)| <= |CutFields(tokens, c')|
    decreases |tokens|
  {
    if tokens != [] && c > |tokens[0]| {
      CutFieldsGrow(tokens[1..], c - |tokens[0]| - 1, c' - |tokens[0]| - 1);
    }
  }

  lemma {:induction false} CutNothing(tokens: seq<string>)
    requires forall i :: 0 <= i < |tokens| ==> Token(tokens[i])
    ensures CutFields(tokens, |Join(tokens, ' ')|) == tokens
  {
    if |tokens| > 1 {
      CutNothing(tokens[1..]);
    } else if |tokens| == 1 {
      assert tokens[0][..|tokens[0]|] == tokens[0];
      assert tokens == [tokens[0]];
    }
  }

  // ---------------------------------------------------------------------------
  // strconv.ParseInt(s, 10, 64)
  // ---------------------------------------------------------------------------

  datatype Option<T> = None | Some(value: T)

  const MAX_INT64 := 0x7FFF_FFFF_FFFF_FFFF

  function ParseInt(s: string): Option<int> {
    if s == "" then None
    else
      var digits := if s[0] == '-' || s[0] == '+' then s[1..] else s;
      if digits == "" || !AllDigits(digits) then None
      else
        var n: int := if s[0] == '-' then 0 - NatValue(digits) else NatValue(digits);
        if -MAX_INT64 - 1 <= n <= MAX_INT64 then Some(n) else None
  }

  lemma ParseNat(n: nat)
    requires n <= MAX_INT64
    ensures ParseInt(NatText(n)) == Some(n) && Token(NatText(n))
  {
    NatRoundTrip(n);
    assert IsDigit(NatText(n)[0]);
  }
}
