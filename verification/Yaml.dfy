// The YAML-like printer over whole objects (e2e/pkg/debug/yaml.go). The debugger compares printed
// lines to decide whether an object changed, so two different objects must not print alike.
module Yaml {
  import opened Text
  import opened YamlText

  /** A JSON-decoded value; numbers are those that print as integers. */
  datatype Value =
    | Null
    | Bool(b: bool)
    | Int(n: Int64)
    | Str(s: string)
    | List(items: seq<Value>)
    | Map(fields: map<string, Value>)
  {
    predicate Scalar?() { !List? && !Map? }
  }

  // ---------------------------------------------------------------------------
  // sortedMapKeys
  // ---------------------------------------------------------------------------

  predicate LexLess(a: string, b: string) {
    b != [] && (a == [] || a[0] < b[0] || (a[0] == b[0] && LexLess(a[1..], b[1..])))
  }

  /** Conventional position of a top-level Kubernetes key; 5 when it has none. */
  function K8sOrder(k: string): nat {
    if k == "apiVersion" then 0 else if k == "kind" then 1 else if k == "metadata" then 2
    else if k == "spec" then 3 else if k == "status" then 4 else 5
  }

  predicate KeyLess(a: string, b: string, top: bool) {
    if top && K8sOrder(a) < 5 && K8sOrder(b) < 5 then K8sOrder(a) < K8sOrder(b)
    else if top && K8sOrder(a) < 5 then true
    else if top && K8sOrder(b) < 5 then false
    else LexLess(a, b)
  }

  predicate Ascending(ks: seq<string>, top: bool) {
    forall i, j :: 0 <= i < j < |ks| ==> KeyLess(ks[i], ks[j], top)
  }

  function Elems(ks: seq<string>): set<string> { set k | k in ks }

  lemma {:induction false} LexTotal(a: string, b: string)
    ensures a == b || LexLess(a, b) || LexLess(b, a)
    ensures !(LexLess(a, b) && LexLess(b, a)) && !LexLess(a, a)
  {
    if a != [] {
      LexTotal(a[1..], a[1..]);
      if b != [] {
        LexTotal(a[1..], b[1..]);
        assert a == [a[0]] + a[1..] && b == [b[0]] + b[1..];
      }
    }
  }

  lemma {:induction false} LexTransitive(a: string, b: string, c: string)
    requires LexLess(a, b) && LexLess(b, c)
    ensures LexLess(a, c)
  {
    if a != [] && a[0] == b[0] == c[0] {
      LexTransitive(a[1..], b[1..], c[1..]);
    }
  }

  lemma KeyTotal(a: string, b: string, top: bool)
    ensures a == b || KeyLess(a, b, top) || KeyLess(b, a, top)
    ensures !(KeyLess(a, b, top) && KeyLess(b, a, top)) && !KeyLess(a, a, top)
  {
    LexTotal(a, b);
  }

  lemma KeyTransitive(a: string, b: string, c: string, top: bool)
    requires KeyLess(a, b, top) && KeyLess(b, c, top)
    ensures KeyLess(a, c, top)
  {
    if LexLess(a, b) && LexLess(b, c) {
      LexTransitive(a, b, c);
    }
  }

  /** The ascending arrangement of a set of keys is unique. */
  lemma {:induction false} AscendingUnique(ks: seq<string>, ls: seq<string>, top: bool)
    requires Ascending(ks, top) && Ascending(ls, top) && Elems(ks) == Elems(ls)
    ensures ks == ls
  {
    assert |ks| == 0 <==> Elems(ks) == {} by { assert |ks| > 0 ==> ks[0] in Elems(ks); }
    assert |ls| == 0 <==> Elems(ls) == {} by { assert |ls| > 0 ==> ls[0] in Elems(ls); }
    if ks != [] {
      assert ks[0] in Elems(ls) && ls[0] in Elems(ks);
      KeyTotal(ks[0], ls[0], top);
      assert ks[0] == ls[0];
      assert Elems(ks[1..]) == Elems(ls[1..]) by {
        HeadNotInTail(ks, top);
        HeadNotInTail(ls, top);
        assert Elems(ks) == {ks[0]} + Elems(ks[1..]) && Elems(ls) == {ls[0]} + Elems(ls[1..]);
      }
      AscendingUnique(ks[1..], ls[1..], top);
      assert ks == [ks[0]] + ks[1..] && ls == [ls[0]] + ls[1..];
    }
  }

  lemma HeadNotInTail(ks: seq<string>, top: bool)
    requires Ascending(ks, top) && ks != []
    ensures ks[0] !in Elems(ks[1..])
  {
    KeyTotal(ks[0], ks[0], top);
  }

  function Insert(k: string, ks: seq<string>, top: bool): (r: seq<string>) {
    if ks == [] then [k]
    else if KeyLess(k, ks[0], top) then [k] + ks
    else [ks[0]] + Insert(k, ks[1..], top)
  }

  lemma AscendingCons(k: string, ks: seq<string>, top: bool)
    requires Ascending(ks, top) && forall x :: x in ks ==> KeyLess(k, x, top)
    ensures Ascending([k] + ks, top) && Elems([k] + ks) == {k} + Elems(ks)
  {
  }

  lemma BelowHead(k: string, ks: seq<string>, top: bool)
    requires Ascending(ks, top) && ks != [] && KeyLess(k, ks[0], top)
    ensures forall x :: x in ks ==> KeyLess(k, x, top)
  {
    forall j | 0 <= j < |ks| ensures KeyLess(k, ks[j], top) {
      if j > 0 { KeyTransitive(k, ks[0], ks[j], top); }
    }
  }

  lemma {:induction false} InsertAscends(k: string, ks: seq<string>, top: bool)
    requires Ascending(ks, top) && k !in ks
    ensures Ascending(Insert(k, ks, top), top) && Elems(Insert(k, ks, top)) == Elems(ks) + {k}
  {
    if ks != [] {
      KeyTotal(k, ks[0], top);
      if KeyLess(k, ks[0], top) {
        BelowHead(k, ks, top);
        AscendingCons(k, ks, top);
      } else {
        var tail := Insert(k, ks[1..], top);
        InsertAscends(k, ks[1..], top);
        forall x | x in tail ensures KeyLess(ks[0], x, top) {
          assert x in Elems(tail);
        }
        AscendingCons(ks[0], tail, top);
        assert ks == [ks[0]] + ks[1..];
      }
    }
  }

  ghost function SortedKeys(keys: set<string>, top: bool): (ks: seq<string>)
    ensures Ascending(ks, top) && Elems(ks) == keys
  {
    if keys == {} then [] else
    var k :| k in keys;
    var rest := SortedKeys(keys - {k}, top);
    assert forall x :: x in rest ==> x in Elems(rest);
    InsertAscends(k, rest, top);
    Insert(k, rest, top)
  }

  /** Byte order: at the first difference the smaller character, and a proper prefix, come first. */
  lemma {:induction false} LexLessIff(a: string, b: string)
    ensures LexLess(a, b) <==> exists i: nat :: Differs(a, b, i)
  {
    if b != [] && a != [] {
      if a[0] == b[0] {
        LexLessIff(a[1..], b[1..]);
        LexShift(a, b);
      } else {
        assert a[..0] == b[..0] && (Differs(a, b, 0) <==> a[0] < b[0]);
        assert forall i: nat :: Differs(a, b, i) && i > 0 ==> a[..i][0] == a[0] && b[..i][0] == b[0];
      }
    } else if b != [] {
      assert a[..0] == b[..0] && Differs(a, b, 0);
    }
  }

  /** They agree on `i` characters, and there `a` ends or has the smaller one. */
  ghost predicate Differs(a: string, b: string, i: nat) {
    i <= |a| && i < |b| && a[..i] == b[..i] && (i == |a| || a[i] < b[i])
  }

  lemma LexShift(a: string, b: string)
    requires a != [] && b != [] && a[0] == b[0]
    ensures (exists i: nat :: Differs(a, b, i)) <==> exists i: nat :: Differs(a[1..], b[1..], i)
  {
    assert !Differs(a, b, 0);
    if i: nat :| Differs(a, b, i) {
      assert a[1..][..i - 1] == a[..i][1..] && b[1..][..i - 1] == b[..i][1..];
      assert Differs(a[1..], b[1..], i - 1);
    }
    if i: nat :| Differs(a[1..], b[1..], i) {
      assert a[..i + 1] == [a[0]] + a[1..][..i] && b[..i + 1] == [b[0]] + b[1..][..i];
      assert Differs(a, b, i + 1);
    }
  }

  const CONVENTIONAL := ["apiVersion", "kind", "metadata", "spec", "status"]

  /** Those of the listed keys that are there, in the order of the list. */
  function Present(keys: set<string>, ks: seq<string>): seq<string> {
    if ks == [] then [] else (if ks[0] in keys then [ks[0]] else []) + Present(keys, ks[1..])
  }

  /** At the top level the conventional keys come first, in their order; the others follow in byte order. */
  lemma ConventionalKeysFirst(keys: set<string>)
    ensures var first := ["apiVersion", "kind", "metadata", "spec", "status"];
            SortedKeys(keys, true) == Present(keys, first) + SortedKeys(keys - Elems(first), false)
  {
    var p, q := Present(keys, CONVENTIONAL), SortedKeys(keys - Elems(CONVENTIONAL), false);
    ConventionalAscends();
    PresentAscends(keys, CONVENTIONAL);
    assert forall k :: k in q ==> k in Elems(q);
    assert forall k :: k in p ==> k in Elems(p);
    OthersHaveNoOrder(q);
    hide SortedKeys, Present, LexLess;
    AscendingJoin(p, q, true);
    assert Elems(p + q) == Elems(p) + Elems(q);
    AscendingUnique(SortedKeys(keys, true), p + q, true);
  }

  lemma AscendingJoin(p: seq<string>, q: seq<string>, top: bool)
    requires Ascending(p, top) && Ascending(q, top) && forall x, y :: x in p && y in q ==> KeyLess(x, y, top)
    ensures Ascending(p + q, top)
  {
    hide KeyLess;
  }

  lemma ConventionalAscends()
    ensures Ascending(CONVENTIONAL, true) && forall k :: k in CONVENTIONAL <==> K8sOrder(k) < 5
  {
  }

  lemma {:induction false} PresentAscends(keys: set<string>, ks: seq<string>)
    requires Ascending(ks, true)
    ensures Ascending(Present(keys, ks), true) && Elems(Present(keys, ks)) == keys * Elems(ks)
  {
    if ks != [] {
      PresentAscends(keys, ks[1..]);
      assert Elems(ks) == {ks[0]} + Elems(ks[1..]);
      if ks[0] in keys {
        forall x | x in Present(keys, ks[1..]) ensures KeyLess(ks[0], x, true) {
          assert x in Elems(Present(keys, ks[1..]));
          assert x in ks[1..];
        }
        AscendingCons(ks[0], Present(keys, ks[1..]), true);
      } else {
        assert [] + Present(keys, ks[1..]) == Present(keys, ks[1..]);
      }
    }
  }

  lemma OthersHaveNoOrder(q: seq<string>)
    requires Ascending(q, false) && forall k :: k in q ==> k !in CONVENTIONAL
    ensures Ascending(q, true) && forall k :: k in q ==> K8sOrder(k) == 5
  {
    ConventionalAscends();
  }

  /** Go ranges over a map in any order; sorting makes the result a function of the key set. */
  method SortedMapKeys(fields: map<string, Value>, top: bool) returns (keys: seq<string>)
    ensures keys == SortedKeys(fields.Keys, top)
  {
    keys := [];
    var rest := fields.Keys;
    while rest != {}
      invariant Ascending(keys, top) && Elems(keys) + rest == fields.Keys && Elems(keys) !! rest
    {
      var k :| k in rest;
      assert k !in keys by { assert k !in Elems(keys); }
      InsertAscends(k, keys, top);
      keys := Insert(k, keys, top);
      rest := rest - {k};
    }
    AscendingUnique(keys, SortedKeys(fields.Keys, top), top);
  }

  // ---------------------------------------------------------------------------
  // The printed text
  // ---------------------------------------------------------------------------

  function Spaces(n: nat): (s: string)
    ensures |s| == n && forall i :: 0 <= i < n ==> s[i] == ' '
  {
    seq(n, _ => ' ')
  }

  function ScalarText(isFloat: string -> bool, v: Value): string
    requires v.Scalar?()
  {
    match v
    case Null => "null"
    case Bool(b) => if b then "true" else "false"
    case Int(n) => IntText(n)
    case Str(s) => StringText(isFloat, s)
  }

  /** What follows "key:" on the same line. */
  function FirstLine(isFloat: string -> bool, v: Value): string {
    if v.Map? then (if v.fields == map[] then " {}" else "")
    else if v.List? then (if v.items == [] then " []" else "")
    else " " + ScalarText(isFloat, v)
  }

  /** The lines below "key:", for a value nested at level `n`. */
  ghost function Nested(isFloat: string -> bool, v: Value, n: nat): string
    decreases v
  {
    if v.Map? then EntriesText(isFloat, v, SortedKeys(v.fields.Keys, false), n)
    else if v.List? then ItemsText(isFloat, v, 0, n)
    else ""
  }

  ghost function ValueText(isFloat: string -> bool, v: Value, n: nat): string
    decreases v, 0
  {
    FirstLine(isFloat, v) + "\n" + Nested(isFloat, v, n)
  }

  /** The entries of a map: each at level `n`, its value one level deeper. */
  ghost function EntriesText(isFloat: string -> bool, v: Value, keys: seq<string>, n: nat): string
    requires v.Map? && Elems(keys) <= v.fields.Keys
    decreases v, |keys|, 1
  {
    if keys == [] then "" else Spaces(2 * n) + BodyText(isFloat, v, keys, n)
  }

  /** The same without the first indentation: the first entry sits behind a dash in a list. */
  ghost function BodyText(isFloat: string -> bool, v: Value, keys: seq<string>, n: nat): string
    requires v.Map? && keys != [] && Elems(keys) <= v.fields.Keys
    decreases v, |keys|, 0
  {
    assert keys[0] in Elems(keys);
    assert forall k :: k in keys[1..] ==> k in keys;
    KeyText(keys[0]) + ":" + (FirstLine(isFloat, v.fields[keys[0]]) + "\n" + Nested(isFloat, v.fields[keys[0]], n + 1))
    + EntriesText(isFloat, v, keys[1..], n)
  }

  ghost function ItemsText(isFloat: string -> bool, v: Value, i: nat, n: nat): string
    requires v.List? && i <= |v.items|
    decreases v, |v.items| - i
  {
    if i == |v.items| then ""
    else Spaces(2 * n) + "- " + ItemText(isFloat, v.items[i], n) + ItemsText(isFloat, v, i + 1, n)
  }

  ghost function ItemText(isFloat: string -> bool, x: Value, n: nat): string
    decreases x
  {
    if x.Map? then
      if x.fields == map[] then "{}\n"
      else
        assert SortedKeys(x.fields.Keys, false) != [] by { assert x.fields.Keys != {}; }
        BodyText(isFloat, x, SortedKeys(x.fields.Keys, false), n + 1)
    else if x.List? then "\n" + ItemsText(isFloat, x, 0, n + 1)
    else ScalarText(isFloat, x) + "\n"
  }

  ghost function MarshalText(isFloat: string -> bool, obj: map<string, Value>): string {
    EntriesText(isFloat, Map(obj), SortedKeys(obj.Keys, true), 0)
  }

  ghost predicate CleanKeys(v: Value) {
    match v
    case Map(fields) => forall k :: k in fields ==> '\n' !in k && CleanKeys(fields[k])
    case List(items) => forall i :: 0 <= i < |items| ==> CleanKeys(items[i])
    case _ => true
  }

  // ---------------------------------------------------------------------------
  // Scalars, and what a line can start with
  // ---------------------------------------------------------------------------

  ghost predicate ScalarForm(t: string) {
    t != "" && '\n' !in t && ScalarShape(t) && ('"' !in t ==> ':' !in t && '{' !in t && '[' !in t)
  }

  lemma BareForm(isFloat: string -> bool, s: string)
    requires Bare(isFloat, s)
    ensures ScalarForm(s) && '"' !in s
  {
    forall i | 0 <= i < |s| ensures !Special(s[i]) && s[i] != '\n' {
      assert !QuoteAt(s, i);
    }
    assert Special('"') && Special(':') && Special('{') && Special('[');
  }

  lemma ScalarFacts(isFloat: string -> bool, v: Value)
    requires FloatSyntax(isFloat) && v.Scalar?()
    ensures ScalarForm(ScalarText(isFloat, v))
  {
    match v
    case Str(s) =>
      StringTextForms(isFloat, s);
      if Bare(isFloat, s) {
        BareForm(isFloat, s);
      } else {
        var x := EscapedChars(s);
        EscapedGuarded(s);
        assert Quoted(x)[0] == '"';
      }
    case Int(n) =>
      var t := IntText(n);
      assert forall i :: 0 <= i < |t| ==> IsDigit(t[i]) || t[i] == '-';
    case _ =>
  }

  lemma FirstLineFacts(isFloat: string -> bool, v: Value)
    requires FloatSyntax(isFloat)
    ensures '\n' !in FirstLine(isFloat, v) && TailShape(FirstLine(isFloat, v))
  {
    if v.Scalar?() {
      ScalarFacts(isFloat, v);
    }
  }

  /** Empty, or starting with fewer than `n` spaces. */
  ghost predicate Shallow(r: string, n: nat) {
    r == "" || exists i :: 0 <= i < n && i < |r| && r[i] != ' '
  }

  /** The text of an entry starts with its key: neither a space nor a list dash. */
  lemma BodyStart(isFloat: string -> bool, v: Value, keys: seq<string>, n: nat)
    requires v.Map? && keys != [] && Elems(keys) <= v.fields.Keys
    ensures var t := BodyText(isFloat, v, keys, n);
            |t| >= 2 && t[0] != ' ' && !(t[0] == '-' && t[1] == ' ')
  {
    var k := keys[0];
    assert k in Elems(keys);
    KeyTextForms(k);
    var t := BodyText(isFloat, v, keys, n);
    var u := KeyText(k) + ":";
    assert t[0] == u[0] && t[1] == u[1];
  }

  lemma EntriesShallow(isFloat: string -> bool, v: Value, keys: seq<string>, n: nat, r: string)
    requires v.Map? && Elems(keys) <= v.fields.Keys && Shallow(r, 2 * n)
    ensures Shallow(EntriesText(isFloat, v, keys, n) + r, 2 * (n + 1))
  {
    if keys == [] {
      assert "" + r == r;
    } else {
      BodyStart(isFloat, v, keys, n);
      var t := EntriesText(isFloat, v, keys, n) + r;
      assert t[2 * n] == BodyText(isFloat, v, keys, n)[0];
    }
  }

  lemma ItemsShallow(isFloat: string -> bool, v: Value, i: nat, n: nat, r: string)
    requires v.List? && i <= |v.items| && Shallow(r, 2 * n)
    ensures Shallow(ItemsText(isFloat, v, i, n) + r, 2 * (n + 1))
  {
    if i == |v.items| {
      assert "" + r == r;
    } else {
      var t := ItemsText(isFloat, v, i, n) + r;
      assert t[2 * n] == '-';
    }
  }

  /** The first line of a list item, behind the dash. */
  ghost function ItemHead(isFloat: string -> bool, x: Value): string {
    if x.Scalar?() then ScalarText(isFloat, x)
    else if x.List? then ""
    else if x.fields == map[] then "{}"
    else
      var k := SortedKeys(x.fields.Keys, false);
      assert k != [] && k[0] in Elems(k) by { assert x.fields.Keys != {}; }
      KeyText(k[0]) + ":" + FirstLine(isFloat, x.fields[k[0]])
  }

  /** What follows the first line of a list item. */
  ghost function ItemRest(isFloat: string -> bool, x: Value, n: nat, r: string): string {
    if x.List? then ItemsText(isFloat, x, 0, n + 1) + r
    else if x.Map? && x.fields != map[] then
      var k := SortedKeys(x.fields.Keys, false);
      assert k != [] && k[0] in Elems(k) && Elems(k[1..]) <= Elems(k) by { assert x.fields.Keys != {}; }
      Nested(isFloat, x.fields[k[0]], n + 2) + (EntriesText(isFloat, x, k[1..], n + 1) + r)
    else r
  }

  lemma HeadLine(h: string, x: string, r: string)
    ensures h + "\n" + x + r == h + ['\n'] + (x + r)
    ensures "\n" + x + r == "" + ['\n'] + (x + r)
    ensures h + "\n" + r == h + ['\n'] + r
  {
  }

  lemma ItemSplit(isFloat: string -> bool, x: Value, n: nat, r: string)
    requires FloatSyntax(isFloat) && CleanKeys(x)
    ensures '\n' !in ItemHead(isFloat, x)
    ensures ItemText(isFloat, x, n) + r == ItemHead(isFloat, x) + ['\n'] + ItemRest(isFloat, x, n, r)
  {
    if x.Scalar?() {
      ScalarFacts(isFloat, x);
      HeadLine(ScalarText(isFloat, x), "", r);
    } else if x.List? {
      HeadLine("", ItemsText(isFloat, x, 0, n + 1), r);
    } else if x.fields == map[] {
      HeadLine("{}", "", r);
      assert "{}\n" == "{}" + "\n";
    } else {
      MapItemSplit(isFloat, x, n, r);
    }
  }

  lemma MapItemSplit(isFloat: string -> bool, x: Value, n: nat, r: string)
    requires FloatSyntax(isFloat) && CleanKeys(x) && x.Map? && x.fields != map[]
    ensures '\n' !in ItemHead(isFloat, x)
    ensures ItemText(isFloat, x, n) + r == ItemHead(isFloat, x) + ['\n'] + ItemRest(isFloat, x, n, r)
  {
    assert x.fields.Keys != {};
    BodySplit(isFloat, x, SortedKeys(x.fields.Keys, false), n + 1, r);
  }

  lemma IndentedIsDeep(n: nat, x: string)
    requires x != ""
    ensures !Shallow(Spaces(n) + x, n)
  {
  }

  // ---------------------------------------------------------------------------
  // How printed text divides
  // ---------------------------------------------------------------------------

  lemma Regroup(k: string, f: string, n: string, e: string, r: string)
    ensures k + ":" + (f + "\n" + n) + e + r == k + ":" + f + ['\n'] + (n + (e + r))
  {
  }

  /** An entry and what follows it, cut at the end of its first line. */
  lemma BodySplit(isFloat: string -> bool, v: Value, keys: seq<string>, n: nat, r: string)
    requires FloatSyntax(isFloat) && v.Map? && CleanKeys(v) && keys != [] && Elems(keys) <= v.fields.Keys
    ensures keys[0] in v.fields && Elems(keys[1..]) <= v.fields.Keys
    ensures var line := KeyText(keys[0]) + ":" + FirstLine(isFloat, v.fields[keys[0]]);
            && '\n' !in line
            && BodyText(isFloat, v, keys, n) + r
               == line + ['\n']
                  + (Nested(isFloat, v.fields[keys[0]], n + 1) + (EntriesText(isFloat, v, keys[1..], n) + r))
  {
    assert keys[0] in Elems(keys);
    assert Elems(keys[1..]) <= Elems(keys);
    KeyTextForms(keys[0]);
    var x := v.fields[keys[0]];
    FirstLineFacts(isFloat, x);
    Regroup(KeyText(keys[0]), FirstLine(isFloat, x), Nested(isFloat, x, n + 1),
            EntriesText(isFloat, v, keys[1..], n), r);
  }

  lemma EntriesIndent(isFloat: string -> bool, v: Value, ks: seq<string>, n: nat, r: string)
    requires v.Map? && Elems(ks) <= v.fields.Keys
    ensures ks == [] ==> EntriesText(isFloat, v, ks, n) + r == r
    ensures ks != [] ==> EntriesText(isFloat, v, ks, n) + r == Spaces(2 * n) + (BodyText(isFloat, v, ks, n) + r)
                         && !Shallow(EntriesText(isFloat, v, ks, n) + r, 2 * n)
  {
    if ks == [] {
      assert "" + r == r;
    } else {
      BodyStart(isFloat, v, ks, n);
      Assoc(Spaces(2 * n), BodyText(isFloat, v, ks, n), r);
      IndentedIsDeep(2 * n, BodyText(isFloat, v, ks, n) + r);
    }
  }

  lemma ItemsIndent(isFloat: string -> bool, v: Value, i: nat, n: nat, r: string)
    requires v.List? && i <= |v.items|
    ensures i == |v.items| ==> ItemsText(isFloat, v, i, n) + r == r
    ensures i < |v.items| ==>
              && ItemsText(isFloat, v, i, n) + r
                 == (Spaces(2 * n) + "- ") + (ItemText(isFloat, v.items[i], n) + (ItemsText(isFloat, v, i + 1, n) + r))
              && !Shallow(ItemsText(isFloat, v, i, n) + r, 2 * n)
  {
    if i == |v.items| {
      assert "" + r == r;
    } else {
      var p, x, e := Spaces(2 * n) + "- ", ItemText(isFloat, v.items[i], n), ItemsText(isFloat, v, i + 1, n);
      Assoc(p + x, e, r);
      Assoc(p, x, e + r);
      Assoc(Spaces(2 * n), "- ", x + (e + r));
      IndentedIsDeep(2 * n, "- " + (x + (e + r)));
    }
  }

  lemma {:induction false} SortedLength(keys: set<string>, top: bool)
    ensures |SortedKeys(keys, top)| == |keys|
  {
    AscendingLength(SortedKeys(keys, top), top);
  }

  lemma {:induction false} AscendingLength(ks: seq<string>, top: bool)
    requires Ascending(ks, top)
    ensures |Elems(ks)| == |ks|
  {
    if ks == [] {
      assert Elems(ks) == {};
    } else {
      HeadNotInTail(ks, top);
      AscendingLength(ks[1..], top);
      assert Elems(ks) == {ks[0]} + Elems(ks[1..]);
    }
  }

  // ---------------------------------------------------------------------------
  // YAMLLines
  // ---------------------------------------------------------------------------

  ghost function YamlLines(isFloat: string -> bool, obj: map<string, Value>): seq<string> {
    Split(TrimNewlines(MarshalText(isFloat, obj)), '\n')
  }

  /** The text ends with one newline, behind a line that is not empty. */
  ghost predicate EndsLine(t: string) {
    |t| >= 2 && t[|t| - 1] == '\n' && t[|t| - 2] != '\n'
  }

  lemma EndsConcat(p: string, q: string)
    requires EndsLine(q)
    ensures EndsLine(p + q)
  {
  }

  lemma LineEnds(t: string)
    requires t != "" && '\n' !in t
    ensures EndsLine(t + "\n")
  {
    assert t[|t| - 1] in t;
  }

  lemma EntryEnds(k: string, f: string, n: string, e: string)
    requires '\n' !in f && (n == "" || EndsLine(n)) && (e == "" || EndsLine(e))
    ensures EndsLine(k + ":" + (f + "\n" + n) + e)
  {
    var line := k + ":" + (f + "\n" + n);
    if n == "" {
      LineEnds(":" + f);
      EndsConcat(k, ":" + f + "\n");
      assert line == k + (":" + f + "\n");
    } else {
      EndsConcat(f + "\n", n);
      EndsConcat(k + ":", f + "\n" + n);
    }
    if e == "" {
      assert line + e == line;
    } else {
      EndsConcat(line, e);
    }
  }

  lemma {:induction false} EntriesEnd(isFloat: string -> bool, v: Value, keys: seq<string>, n: nat)
    requires FloatSyntax(isFloat) && v.Map? && keys != [] && Elems(keys) <= v.fields.Keys
    ensures EndsLine(EntriesText(isFloat, v, keys, n)) && EndsLine(BodyText(isFloat, v, keys, n))
    decreases v, |keys|
  {
    var k := keys[0];
    assert k in Elems(keys);
    assert Elems(keys[1..]) <= Elems(keys);
    var x := v.fields[k];
    FirstLineFacts(isFloat, x);
    NestedEnds(isFloat, x, n + 1);
    if |keys| > 1 {
      EntriesEnd(isFloat, v, keys[1..], n);
    }
    EntryEnds(KeyText(k), FirstLine(isFloat, x), Nested(isFloat, x, n + 1), EntriesText(isFloat, v, keys[1..], n));
    EndsConcat(Spaces(2 * n), BodyText(isFloat, v, keys, n));
  }

  lemma {:induction false} NestedEnds(isFloat: string -> bool, v: Value, n: nat)
    requires FloatSyntax(isFloat)
    ensures Nested(isFloat, v, n) == "" || EndsLine(Nested(isFloat, v, n))
    decreases v
  {
    if v.Map? && SortedKeys(v.fields.Keys, false) != [] {
      EntriesEnd(isFloat, v, SortedKeys(v.fields.Keys, false), n);
    } else if v.List? && v.items != [] {
      ItemsEnd(isFloat, v, 0, n);
    }
  }

  lemma {:induction false} ItemsEnd(isFloat: string -> bool, v: Value, i: nat, n: nat)
    requires FloatSyntax(isFloat) && v.List? && i < |v.items|
    ensures EndsLine(ItemsText(isFloat, v, i, n))
    decreases v, |v.items| - i
  {
    hide ItemText, FloatSyntax, Spaces;
    var x := v.items[i];
    ItemEnds(isFloat, x, n);
    var item := Spaces(2 * n) + "- " + ItemText(isFloat, x, n);
    assert EndsLine(item);
    if i + 1 < |v.items| {
      ItemsEnd(isFloat, v, i + 1, n);
    } else {
      assert ItemsText(isFloat, v, i + 1, n) == "";
      assert item + "" == item;
    }
  }

  lemma {:induction false} ItemEnds(isFloat: string -> bool, x: Value, n: nat)
    requires FloatSyntax(isFloat)
    ensures ItemText(isFloat, x, n) == "\n" || EndsLine(ItemText(isFloat, x, n))
    decreases x
  {
    if x.Scalar?() {
      ScalarFacts(isFloat, x);
      LineEnds(ScalarText(isFloat, x));
    } else if x.List? {
      if x.items == [] {
        assert "\n" + "" == "\n";
      } else {
        ItemsEnd(isFloat, x, 0, n + 1);
        EndsConcat("\n", ItemsText(isFloat, x, 0, n + 1));
      }
    } else if x.fields != map[] {
      MapKeys(x);
      EntriesEnd(isFloat, x, SortedKeys(x.fields.Keys, false), n + 1);
    }
  }

  lemma MapKeys(x: Value)
    requires x.Map? && x.fields != map[]
    ensures SortedKeys(x.fields.Keys, false) != []
  {
    assert x.fields.Keys != {};
  }

  lemma TrimmedText(isFloat: string -> bool, obj: map<string, Value>)
    requires FloatSyntax(isFloat)
    ensures var t := Join(YamlLines(isFloat, obj), '\n');
            MarshalText(isFloat, obj) == if t == "" then "" else t + "\n"
  {
    if SortedKeys(obj.Keys, true) != [] {
      EntriesEnd(isFloat, Map(obj), SortedKeys(obj.Keys, true), 0);
    }
    LinesOfText(MarshalText(isFloat, obj));
  }

  lemma LinesOfText(t: string)
    requires t == "" || EndsLine(t)
    ensures var u := Join(Split(TrimNewlines(t), '\n'), '\n'); t == if u == "" then "" else u + "\n"
  {
    JoinSplit(TrimNewlines(t), '\n');
    if t != "" {
      assert TrimNewlines(t) == t[..|t| - 1];
      assert t == t[..|t| - 1] + "\n";
    }
  }

  function ListAndKey(): map<string, Value> { map["a" := List([Str("p")]), "q" := Null] }

  function ListOfMap(): map<string, Value> { map["a" := List([Map(map["p\nq" := Null])])] }

  /**
   * Keys with newlines are printed raw, and then two objects can print alike: a list of a string
   * next to a key, and a list of a map under one key that contains a newline.
   */
  lemma NewlineKeysCollide(isFloat: string -> bool)
    requires FloatSyntax(isFloat) && !isFloat("p")
    ensures ListAndKey() != ListOfMap() && MarshalText(isFloat, ListAndKey()) == MarshalText(isFloat, ListOfMap())
  {
    var a, b := ListAndKey(), ListOfMap();
    assert "q" in a && "q" !in b;
    PlainTexts(isFloat);
    KeysAre(["a", "q"], a.Keys, true);
    KeysAre(["a"], b.Keys, true);
    TwoEntries(isFloat, Map(a), "a", "q", 0);
    OneEntry(isFloat, Map(b), "a", 0);
    var t := FirstLine(isFloat, Null) + "\n" + Nested(isFloat, Null, 1);
    SameItems(isFloat, t);
    SameTail(Spaces(0), "a" + ":", "" + "\n", Nested(isFloat, a["a"], 1), Spaces(0) + ("q" + ":" + t + ""),
             Nested(isFloat, b["a"], 1));
  }

  lemma OneEntry(isFloat: string -> bool, v: Value, k: string, n: nat)
    requires v.Map? && k in v.fields
    ensures var x := FirstLine(isFloat, v.fields[k]) + "\n" + Nested(isFloat, v.fields[k], n + 1);
            EntriesText(isFloat, v, [k], n) == Spaces(2 * n) + (KeyText(k) + ":" + x + "")
  {
    assert [k][1..] == [];
    assert EntriesText(isFloat, v, [], n) == "";
    assert EntriesText(isFloat, v, [k], n) == Spaces(2 * n) + BodyText(isFloat, v, [k], n);
  }

  lemma TwoEntries(isFloat: string -> bool, v: Value, k: string, l: string, n: nat)
    requires v.Map? && k in v.fields && l in v.fields
    ensures var x := FirstLine(isFloat, v.fields[k]) + "\n" + Nested(isFloat, v.fields[k], n + 1);
            var y := FirstLine(isFloat, v.fields[l]) + "\n" + Nested(isFloat, v.fields[l], n + 1);
            EntriesText(isFloat, v, [k, l], n)
            == Spaces(2 * n) + (KeyText(k) + ":" + x + (Spaces(2 * n) + (KeyText(l) + ":" + y + "")))
  {
    assert [k, l][1..] == [l];
    OneEntry(isFloat, v, l, n);
  }

  // The list of the string, followed by the entry of "q", is the list of the map.
  lemma SameItems(isFloat: string -> bool, t: string)
    requires StringText(isFloat, "p") == "p" && KeyText("p\nq") == "p\nq"
    requires t == FirstLine(isFloat, Null) + "\n" + Nested(isFloat, Null, 1)
    ensures ItemsText(isFloat, List([Str("p")]), 0, 1) + (Spaces(0) + ("q" + ":" + t + ""))
            == ItemsText(isFloat, List([Map(map["p\nq" := Null])]), 0, 1)
  {
    var m := Map(map["p\nq" := Null]);
    OneItem(isFloat, List([Str("p")]), 1);
    OneItem(isFloat, List([m]), 1);
    assert ItemText(isFloat, m, 1) == "p\nq" + ":" + t + "" by {
      KeysAre(["p\nq"], m.fields.Keys, false);
      assert ["p\nq"][1..] == [];
      assert Nested(isFloat, Null, 3) == Nested(isFloat, Null, 1);
    }
    KeyBehindNewline(Spaces(2) + "- ", "p", "q", t);
    assert "p\nq" == "p" + "\n" + "q" && Spaces(0) == "";
  }

  lemma KeyBehindNewline(pre: string, p: string, q: string, t: string)
    ensures pre + (p + "\n") + ("" + (q + ":" + t + "")) == pre + (p + "\n" + q + ":" + t + "")
  {
  }

  lemma SameTail(s: string, k: string, nl: string, x: string, e: string, y: string)
    requires x + e == y
    ensures s + (k + (nl + x) + e) == s + (k + (nl + y) + "")
  {
    Assoc(nl, x, e);
    Assoc(k, nl + x, e);
  }

  lemma OneItem(isFloat: string -> bool, v: Value, n: nat)
    requires v.List? && |v.items| == 1
    ensures ItemsText(isFloat, v, 0, n) == Spaces(2 * n) + "- " + ItemText(isFloat, v.items[0], n)
  {
    assert ItemsText(isFloat, v, 1, n) == "";
  }

  lemma KeysAre(ks: seq<string>, keys: set<string>, top: bool)
    requires Ascending(ks, top) && Elems(ks) == keys
    ensures SortedKeys(keys, top) == ks
  {
    AscendingUnique(ks, SortedKeys(keys, top), top);
  }

  lemma PlainTexts(isFloat: string -> bool)
    requires !isFloat("p")
    ensures StringText(isFloat, "p") == "p"
    ensures KeyText("a") == "a" && KeyText("q") == "q" && KeyText("p\nq") == "p\nq"
  {
    assert ToLower("p") == "p";
  }

  // ---------------------------------------------------------------------------
  // writeYAML*: the printer as it appends to its buffer
  // ---------------------------------------------------------------------------

  class Builder {
    var text: string

    constructor ()
      ensures text == ""
    {
      text := "";
    }

    method WriteString(s: string)
      modifies this
      ensures text == old(text) + s
    {
      text := text + s;
    }
  }

  method WriteValue(buf: Builder, isFloat: string -> bool, v: Value, indent: nat)
    modifies buf
    ensures buf.text == old(buf.text) + ValueText(isFloat, v, indent)
    decreases v, 3
  {
    ghost var start := buf.text;
    match v
    case Map(fields) =>
      if fields == map[] {
        buf.WriteString(" {}\n");
        assert " {}\n" == " {}" + "\n" + EntriesText(isFloat, v, [], indent);
        NoKeys(v);
        return;
      }
      buf.WriteString("\n");
      WriteMap(buf, isFloat, v, indent, false);
      Assoc(start, "\n", Nested(isFloat, v, indent));
      assert "" + "\n" == "\n";
    case List(items) =>
      if items == [] {
        buf.WriteString(" []\n");
        assert ItemsText(isFloat, v, 0, indent) == "";
        assert " []\n" == " []" + "\n" + "";
        return;
      }
      buf.WriteString("\n");
      WriteSlice(buf, isFloat, v, indent);
      Assoc(start, "\n", Nested(isFloat, v, indent));
      assert "" + "\n" == "\n";
    case _ =>
      var t := ScalarText(isFloat, v);
      buf.WriteString(" ");
      buf.WriteString(t);
      buf.WriteString("\n");
      Assoc(start, " ", t);
      Assoc(start, " " + t, "\n");
      assert ValueText(isFloat, v, indent) == " " + t + "\n";
  }

  lemma NoKeys(v: Value)
    requires v.Map? && v.fields == map[]
    ensures SortedKeys(v.fields.Keys, false) == []
  {
    KeysAre([], v.fields.Keys, false);
  }

  ghost function EntryText(isFloat: string -> bool, v: Value, k: string, n: nat): string
    requires v.Map? && k in v.fields
  {
    KeyText(k) + ":" + ValueText(isFloat, v.fields[k], n + 1)
  }

  /** One entry of a map behind its indentation. */
  method WriteEntry(buf: Builder, isFloat: string -> bool, v: Value, k: string, indent: nat)
    requires v.Map? && k in v.fields
    modifies buf
    ensures buf.text == old(buf.text) + EntryText(isFloat, v, k, indent)
    decreases v, 0
  {
    ghost var start := buf.text;
    var key := YamlKey(k);
    buf.WriteString(key);
    buf.WriteString(":");
    WriteValue(buf, isFloat, v.fields[k], indent + 1);
    Assoc(start, key, ":");
    Assoc(start, key + ":", ValueText(isFloat, v.fields[k], indent + 1));
  }

  lemma BodySteps(isFloat: string -> bool, v: Value, keys: seq<string>, n: nat)
    requires v.Map? && keys != [] && Elems(keys) <= v.fields.Keys
    ensures keys[0] in v.fields && Elems(keys[1..]) <= v.fields.Keys
    ensures BodyText(isFloat, v, keys, n) == EntryText(isFloat, v, keys[0], n) + EntriesText(isFloat, v, keys[1..], n)
  {
    assert keys[0] in Elems(keys);
    assert Elems(keys[1..]) <= Elems(keys);
  }

  /** Appending one entry leaves the remaining entries to append. */
  lemma EntriesStep(t: string, isFloat: string -> bool, v: Value, keys: seq<string>, i: nat, n: nat)
    requires v.Map? && i < |keys| && Elems(keys) <= v.fields.Keys
    ensures keys[i] in v.fields && Elems(keys[i..]) <= v.fields.Keys && Elems(keys[i + 1..]) <= v.fields.Keys
    ensures t + EntriesText(isFloat, v, keys[i..], n)
            == t + Spaces(2 * n) + EntryText(isFloat, v, keys[i], n) + EntriesText(isFloat, v, keys[i + 1..], n)
  {
    assert keys[i] in Elems(keys);
    assert Elems(keys[i..]) <= Elems(keys) && Elems(keys[i + 1..]) <= Elems(keys);
    assert keys[i..][1..] == keys[i + 1..] && keys[i..][0] == keys[i];
    BodySteps(isFloat, v, keys[i..], n);
    var p, e, r := Spaces(2 * n), EntryText(isFloat, v, keys[i], n), EntriesText(isFloat, v, keys[i + 1..], n);
    assert EntriesText(isFloat, v, keys[i..], n) == p + (e + r);
    Assoc(t, p, e + r);
    Assoc(t + p, e, r);
  }

  method WriteEntries(
    buf: Builder, isFloat: string -> bool, v: Value, keys: seq<string>, from: nat, prefix: string, indent: nat)
    requires v.Map? && from <= |keys| && Elems(keys) <= v.fields.Keys && prefix == Spaces(2 * indent)
    modifies buf
    ensures Elems(keys[from..]) <= v.fields.Keys
    ensures buf.text == old(buf.text) + EntriesText(isFloat, v, keys[from..], indent)
    decreases v, 1
  {
    assert Elems(keys[from..]) <= Elems(keys);
    ghost var all := buf.text + EntriesText(isFloat, v, keys[from..], indent);
    for i := from to |keys|
      invariant Elems(keys[i..]) <= v.fields.Keys
      invariant buf.text + EntriesText(isFloat, v, keys[i..], indent) == all
    {
      EntriesStep(buf.text, isFloat, v, keys, i, indent);
      buf.WriteString(prefix);
      WriteEntry(buf, isFloat, v, keys[i], indent);
    }
    assert keys[|keys|..] == [] && EntriesText(isFloat, v, [], indent) == "";
  }

  method WriteMap(buf: Builder, isFloat: string -> bool, v: Value, indent: nat, top: bool)
    requires v.Map?
    modifies buf
    ensures buf.text == old(buf.text) + EntriesText(isFloat, v, SortedKeys(v.fields.Keys, top), indent)
    decreases v, 2
  {
    var keys := SortedMapKeys(v.fields, top);
    assert keys[0..] == keys;
    WriteEntries(buf, isFloat, v, keys, 0, Spaces(2 * indent), indent);
  }

  method WriteSlice(buf: Builder, isFloat: string -> bool, v: Value, indent: nat)
    requires v.List?
    modifies buf
    ensures buf.text == old(buf.text) + ItemsText(isFloat, v, 0, indent)
    decreases v, 2
  {
    ghost var all := old(buf.text) + ItemsText(isFloat, v, 0, indent);
    for i := 0 to |v.items|
      invariant buf.text + ItemsText(isFloat, v, i, indent) == all
    {
      ghost var before, rest := buf.text, ItemsText(isFloat, v, i + 1, indent);
      ghost var dash, item := Spaces(2 * indent) + "- ", ItemText(isFloat, v.items[i], indent);
      buf.WriteString(Spaces(2 * indent));
      buf.WriteString("- ");
      Assoc(before, Spaces(2 * indent), "- ");
      WriteItem(buf, isFloat, v.items[i], indent);
      Assoc(before, dash, item);
      Assoc(before, dash + item, rest);
    }
  }

  method WriteItem(buf: Builder, isFloat: string -> bool, x: Value, indent: nat)
    modifies buf
    ensures buf.text == old(buf.text) + ItemText(isFloat, x, indent)
    decreases x, 3
  {
    ghost var start := buf.text;
    match x
    case Map(fields) =>
      if fields == map[] {
        buf.WriteString("{}\n");
        return;
      }
      WriteMapItem(buf, isFloat, x, indent);
    case List(items) =>
      buf.WriteString("\n");
      WriteSlice(buf, isFloat, x, indent + 1);
      Assoc(start, "\n", ItemsText(isFloat, x, 0, indent + 1));
    case _ =>
      buf.WriteString(ScalarText(isFloat, x));
      buf.WriteString("\n");
      Assoc(start, ScalarText(isFloat, x), "\n");
  }

  /** A map in a list: the first key behind the dash, the others aligned with it. */
  method WriteMapItem(buf: Builder, isFloat: string -> bool, x: Value, indent: nat)
    requires x.Map? && x.fields != map[]
    modifies buf
    ensures buf.text == old(buf.text) + ItemText(isFloat, x, indent)
    decreases x, 2
  {
    var keys := SortedMapKeys(x.fields, false);
    MapKeys(x);
    BodySteps(isFloat, x, keys, indent + 1);
    Deeper(indent);
    ghost var start := buf.text;
    WriteEntry(buf, isFloat, x, keys[0], indent + 1);
    WriteEntries(buf, isFloat, x, keys, 1, Spaces(2 * indent) + "  ", indent + 1);
    Assoc(start, EntryText(isFloat, x, keys[0], indent + 1), EntriesText(isFloat, x, keys[1..], indent + 1));
  }

  lemma Deeper(n: nat)
    ensures Spaces(2 * n) + "  " == Spaces(2 * (n + 1))
  {
  }

  method MarshalYAML(isFloat: string -> bool, obj: map<string, Value>) returns (text: string)
    ensures text == MarshalText(isFloat, obj)
  {
    var buf := new Builder();
    WriteMap(buf, isFloat, Map(obj), 0, true);
    text := buf.text;
  }
}
