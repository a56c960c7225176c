// Which objects a watch shows: the label and field matchers and the head of the event handler
// (e2e/pkg/debug/related.go, handlers.go).
module Matchers {
  import opened Text
  import opened WatchKeys
  import opened Yaml

  type Object = map<string, Value>

  /** What lies at a path of keys through nested maps. */
  function Lookup(v: Value, path: seq<string>): Option<Value>
    decreases |path|
  {
    if path == [] then Some(v)
    else if v.Map? && path[0] in v.fields then Lookup(v.fields[path[0]], path[1..])
    else None
  }

  lemma {:induction false} LookupAppend(v: Value, p: seq<string>, q: seq<string>)
    ensures Lookup(v, p + q) == match Lookup(v, p) case Some(w) => Lookup(w, q) case None => None
    decreases |p|
  {
    if p == [] {
      assert p + q == q;
    } else {
      assert (p + q)[1..] == p[1..] + q;
      if v.Map? && p[0] in v.fields {
        LookupAppend(v.fields[p[0]], p[1..], q);
      }
    }
  }

  /** m[key].(map[string]any): an empty map when there is none. */
  function MapAt(m: Object, key: string): Object {
    if key in m && m[key].Map? then m[key].fields else map[]
  }

  /** m[key].(string): nothing when there is none. */
  function TextAt(m: Object, key: string): Option<string> {
    if key in m && m[key].Str? then Some(m[key].s) else None
  }

  lemma StepsAreLookup(m: Object, key: string, path: seq<string>)
    requires path != []
    ensures Lookup(Map(MapAt(m, key)), path) == Lookup(Map(m), [key] + path)
    ensures forall s :: TextAt(m, key) == Some(s) <==> Lookup(Map(m), [key]) == Some(Str(s))
  {
    assert ([key] + path)[1..] == path;
    assert [key][1..] == [];
    assert key in m ==> Lookup(m[key], []) == Some(m[key]);
  }

  // ---------------------------------------------------------------------------
  // labelMatcher
  // ---------------------------------------------------------------------------

  predicate LabelMatches(selector: string, raw: Object) {
    if selector == "" then true
    else if '=' !in selector then false
    else
      var (key, value) := CutAtEquals(selector);
      var labels := MapAt(MapAt(raw, "metadata"), "labels");
      TextAt(labels, key) == Some(value)
  }

  /** A selector without a separator shows nothing; any other but the empty one asks for one label's value. */
  lemma LabelMatchesIff(key: string, value: string, raw: Object)
    requires '=' !in key
    ensures LabelMatches(key + "=" + value, raw)
       <==> Lookup(Map(raw), ["metadata", "labels", key]) == Some(Str(value))
    ensures LabelMatches("", raw) && (key != "" ==> !LabelMatches(key, raw))
  {
    CutJoined(key, value);
    var meta := MapAt(raw, "metadata");
    StepsAreLookup(raw, "metadata", ["labels", key]);
    StepsAreLookup(meta, "labels", [key]);
    StepsAreLookup(MapAt(meta, "labels"), key, [key]);
    assert ["metadata"] + ["labels", key] == ["metadata", "labels", key];
    assert ["labels"] + [key] == ["labels", key];
  }

  // ---------------------------------------------------------------------------
  // specFieldMatcher
  // ---------------------------------------------------------------------------

  /** The string at the path; a missing field and one that is no string read as empty. */
  function TextAtPath(raw: Object, path: seq<string>): string {
    match Lookup(Map(raw), path)
    case Some(Str(s)) => s
    case _ => ""
  }

  /** All but the last key of the path lead to a map, and the text there is the expected one. */
  predicate FieldMatches(path: string, expected: string, raw: Object) {
    var parts := Split(path, '.');
    var holder := Lookup(Map(raw), parts[..|parts| - 1]);
    holder.Some? && holder.value.Map? && TextAtPath(raw, parts) == expected
  }

  /** For a value that is not empty: the field at the path is that string. */
  lemma FieldMatchesIff(path: string, expected: string, raw: Object)
    requires expected != ""
    ensures FieldMatches(path, expected, raw) <==> Lookup(Map(raw), Split(path, '.')) == Some(Str(expected))
  {
    var parts := Split(path, '.');
    LastStep(raw, parts);
  }

  lemma LastStep(raw: Object, parts: seq<string>)
    requires parts != []
    ensures var holder := Lookup(Map(raw), parts[..|parts| - 1]);
            && (holder.Some? ==> Lookup(Map(raw), parts) == Lookup(holder.value, [parts[|parts| - 1]]))
            && (Lookup(Map(raw), parts).Some? ==> holder.Some? && holder.value.Map?)
  {
    var init, last := parts[..|parts| - 1], [parts[|parts| - 1]];
    assert parts == init + last;
    LookupAppend(Map(raw), init, last);
  }

  method SpecFieldMatcher(path: string, expected: string, raw: Object) returns (b: bool)
    ensures b <==> FieldMatches(path, expected, raw)
  {
    hide Lookup, Split;
    var parts := Split(path, '.');
    var n := |parts| - 1;
    var current := raw;
    assert parts[..0] == [];
    NoSteps(raw);
    for i := 0 to n
      invariant Lookup(Map(raw), parts[..i]) == Some(Map(current))
    {
      NextStep(raw, parts, i);
      var part := parts[i];
      if !(part in current && current[part].Map?) {
        return false;
      }
      current := current[part].fields;
    }
    NextStep(raw, parts, n);
    assert parts[..n + 1] == parts;
    var val := if parts[n] in current && current[parts[n]].Str? then current[parts[n]].s else "";
    return val == expected;
  }

  lemma NoSteps(raw: Object)
    ensures Lookup(Map(raw), []) == Some(Map(raw))
  {
  }

  /** One step of the walk; where it cannot go on, no longer path leads to a map. */
  lemma NextStep(raw: Object, parts: seq<string>, i: nat)
    requires i < |parts| && Lookup(Map(raw), parts[..i]).Some? && Lookup(Map(raw), parts[..i]).value.Map?
    ensures var m := Lookup(Map(raw), parts[..i]).value.fields;
            var next := if parts[i] in m then Some(m[parts[i]]) else None;
            && Lookup(Map(raw), parts[..i + 1]) == next
            && (i < |parts| - 1 && !(next.Some? && next.value.Map?) ==>
                  var holder := Lookup(Map(raw), parts[..|parts| - 1]); !(holder.Some? && holder.value.Map?))
  {
    assert parts[..i + 1] == parts[..i] + [parts[i]];
    LookupAppend(Map(raw), parts[..i], [parts[i]]);
    if i < |parts| - 1 {
      var rest := parts[i + 1..|parts| - 1];
      assert parts[..|parts| - 1] == parts[..i + 1] + rest;
      LookupAppend(Map(raw), parts[..i + 1], rest);
    }
  }

  // ---------------------------------------------------------------------------
  // The event handler
  // ---------------------------------------------------------------------------

  function NameOf(raw: Object): string {
    match TextAt(MapAt(raw, "metadata"), "name")
    case Some(name) => name
    case None => ""
  }

  lemma NameOfIs(raw: Object, name: string)
    requires name != ""
    ensures NameOf(raw) == name <==> Lookup(Map(raw), ["metadata", "name"]) == Some(Str(name))
  {
    StepsAreLookup(raw, "metadata", ["name"]);
    StepsAreLookup(MapAt(raw, "metadata"), "name", ["name"]);
    assert ["metadata"] + ["name"] == ["metadata", "name"];
  }

  /** The handler a watch installs goes on with this object. */
  predicate Handled(c: Call, raw: Object) {
    && NameOf(raw) != ""
    && match c
       case ByName(_, name) => NameOf(raw) == name
       case ByLabel(_, selector) => LabelMatches(selector, raw)
       case BySpecField(_, path, value) => FieldMatches(path, value, raw)
  }

  /** A later watch of the same key shares the handler, which is the key's own. */
  predicate Meets(k: Key, raw: Object) {
    && NameOf(raw) != ""
    && if k.name != "" then NameOf(raw) == k.name
       else if k.labelSelector != "" then LabelMatches(k.labelSelector, raw)
       else '=' in k.specFilter
            && var (path, value) := CutAtEquals(k.specFilter); FieldMatches(path, value, raw)
  }

  /**
   * A handler may be shared by every watch of its key: a call that names something, by a path without `=`,
   * handles exactly the objects that meet its key.
   */
  lemma KeyDecidesHandler(c: Call, raw: Object)
    requires Proper(KeyOf(c)) && (c.BySpecField? ==> '=' !in c.path)
    ensures KeyOf(c).gvk == c.gvk && (Handled(c, raw) <==> Meets(KeyOf(c), raw))
  {
    if c.BySpecField? {
      CutJoined(c.path, c.value);
    }
  }

  /** Calls that name nothing share a key and not a meaning: by name none is shown, by label all are. */
  lemma UnnamedCallsDiffer(gvk: Gvk, raw: Object)
    ensures KeyOf(ByName(gvk, "")) == KeyOf(ByLabel(gvk, ""))
    ensures !Handled(ByName(gvk, ""), raw) && (Handled(ByLabel(gvk, ""), raw) <==> NameOf(raw) != "")
  {
  }

  // ---------------------------------------------------------------------------
  // Children
  // ---------------------------------------------------------------------------

  /** The object names its parent: in the relation's label, or in the field at the relation's path. */
  predicate NamesParent(rel: Relation, parent: string, raw: Object) {
    match rel
    case LabelRelation(_, labelKey) => Lookup(Map(raw), ["metadata", "labels", labelKey]) == Some(Str(parent))
    case FieldRelation(_, path) => Lookup(Map(raw), Split(path, '.')) == Some(Str(parent))
  }

  /** A child watch shows exactly the objects that name the parent. */
  lemma ChildMeetsIff(rel: Relation, parent: string, raw: Object)
    requires if rel.LabelRelation? then '=' !in rel.labelKey else '=' !in rel.path && parent != ""
    ensures Meets(ChildKey(rel, parent), raw) <==> NameOf(raw) != "" && NamesParent(rel, parent, raw)
  {
    match rel
    case LabelRelation(_, labelKey) =>
      LabelMatchesIff(labelKey, parent, raw);
      assert |labelKey + "=" + parent| > 0;
    case FieldRelation(_, path) =>
      CutJoined(path, parent);
      FieldMatchesIff(path, parent, raw);
  }

  /** For a parent without a name a field relation shows the objects whose field is missing, no string or empty. */
  lemma UnnamedParentMeetsIff(gvk: Gvk, path: string, raw: Object)
    requires '=' !in path
    ensures var parts := Split(path, '.');
            var holder := Lookup(Map(raw), parts[..|parts| - 1]);
            Meets(ChildKey(FieldRelation(gvk, path), ""), raw)
            <==> && NameOf(raw) != "" && holder.Some? && holder.value.Map?
                 && forall s :: Lookup(Map(raw), parts) == Some(Str(s)) ==> s == ""
  {
    hide Lookup, Split, CutAtEquals, NameOf, LabelMatches;
    CutJoined(path, "");
  }

  /**
   * What WatchRelated shows of a kind, beside the parent itself: an object meets one of the child keys
   * iff it names the parent in the way some relation of that kind asks for.
   */
  lemma ChildrenMeetIff(g: Graph, p: Key, gvk: Gvk, raw: Object)
    requires p.name != "" && p.gvk in g
    requires forall rel :: rel in g[p.gvk] ==> '=' !in (if rel.LabelRelation? then rel.labelKey else rel.path)
    ensures (exists k :: k in Children(g, p) && k.gvk == gvk && Meets(k, raw))
       <==> NameOf(raw) != "" && exists rel :: rel in g[p.gvk] && rel.gvk == gvk && NamesParent(rel, p.name, raw)
  {
    hide Meets, NamesParent, NameOf;
    var rels, ks := g[p.gvk], Children(g, p);
    forall i | 0 <= i < |rels|
      ensures rels[i] in rels && ks[i] in ks && ks[i].gvk == rels[i].gvk
      ensures Meets(ks[i], raw) <==> NameOf(raw) != "" && NamesParent(rels[i], p.name, raw)
    {
      ChildMeetsIff(rels[i], p.name, raw);
    }
  }
}
