// Keys of the debugger's watches, what a watch stands for in the filter, and sums of counters
// (e2e/pkg/debug/debugger.go, related.go).
module WatchKeys {
  import opened Text

  datatype Gvk = Gvk(group: string, version: string, kind: string)

  datatype Key = Key(gvk: Gvk, name: string, labelSelector: string, specFilter: string)

  /** What a watch shows: every object of a kind, or one object. Kinds are short names. */
  datatype Target = WholeKind(kind: string) | Named(kind: string, name: string)

  /** Which counter unwatchByKey decrements; none when the key names nothing. */
  function RemovedTarget(k: Key, short: string -> string): Option<Target> {
    if k.name != "" then Some(Named(short(k.gvk.kind), k.name))
    else if k.labelSelector != "" || k.specFilter != "" then Some(WholeKind(short(k.gvk.kind)))
    else None
  }

  predicate Proper(k: Key) { k.name != "" || k.labelSelector != "" || k.specFilter != "" }

  /** The three ways to start a watch. */
  datatype Call = ByName(gvk: Gvk, name: string) | ByLabel(gvk: Gvk, selector: string)
                | BySpecField(gvk: Gvk, path: string, value: string)

  function KeyOf(c: Call): Key {
    match c
    case ByName(gvk, name) => Key(gvk, name, "", "")
    case ByLabel(gvk, selector) => Key(gvk, "", selector, "")
    case BySpecField(gvk, path, value) => Key(gvk, "", "", path + "=" + value)
  }

  /** Which counter starting the watch increments. */
  function AddedTarget(c: Call, short: string -> string): Target {
    if c.ByName? then Named(short(c.gvk.kind), c.name) else WholeKind(short(c.gvk.kind))
  }

  /**
   * Ending a watch decrements the counter that starting it incremented exactly when the call named
   * something: with an empty name or an empty label selector nothing is decremented.
   */
  lemma UnwatchMatchesWatchIff(c: Call, short: string -> string)
    ensures RemovedTarget(KeyOf(c), short) == Some(AddedTarget(c, short))
            <==> !(c.ByName? && c.name == "") && !(c.ByLabel? && c.selector == "")
  {
    if c.BySpecField? {
      assert |c.path + "=" + c.value| > 0;
    }
  }

  /** strings.SplitN(s, "=", 2), when there is a separator. */
  function CutAtEquals(s: string): (string, string)
    requires '=' in s
  {
    if s[0] == '=' then ("", s[1..])
    else
      var r := CutAtEquals(s[1..]);
      ([s[0]] + r.0, r.1)
  }

  lemma {:induction false} CutRejoins(s: string)
    requires '=' in s
    ensures CutAtEquals(s).0 + "=" + CutAtEquals(s).1 == s
  {
    if s[0] != '=' {
      CutRejoins(s[1..]);
      assert s == [s[0]] + s[1..];
    }
  }

  lemma {:induction false} CutJoined(key: string, value: string)
    requires '=' !in key
    ensures '=' in key + "=" + value && CutAtEquals(key + "=" + value) == (key, value)
  {
    var s := key + "=" + value;
    assert s[|key|] == '=';
    if key == "" {
      assert s[1..] == value;
    } else {
      CutJoined(key[1..], value);
      assert s[1..] == key[1..] + "=" + value;
      assert key == [key[0]] + key[1..];
    }
  }

  // ---------------------------------------------------------------------------
  // The relation graph
  // ---------------------------------------------------------------------------

  datatype Relation = LabelRelation(gvk: Gvk, labelKey: string) | FieldRelation(gvk: Gvk, path: string)

  type Graph = map<Gvk, seq<Relation>>

  function ChildKey(rel: Relation, parent: string): (k: Key)
    ensures Proper(k) && k.name == ""
  {
    assert rel.LabelRelation? ==> |rel.labelKey + "=" + parent| > 0;
    assert rel.FieldRelation? ==> |rel.path + "=" + parent| > 0;
    match rel
    case LabelRelation(gvk, labelKey) => KeyOf(ByLabel(gvk, labelKey + "=" + parent))
    case FieldRelation(gvk, path) => KeyOf(BySpecField(gvk, path, parent))
  }

  function ChildKeys(rels: seq<Relation>, parent: string): (ks: seq<Key>)
    ensures |ks| == |rels| && forall i :: 0 <= i < |ks| ==> ks[i] == ChildKey(rels[i], parent)
  {
    seq(|rels|, i requires 0 <= i < |rels| => ChildKey(rels[i], parent))
  }

  function Children(g: Graph, parent: Key): seq<Key> {
    if parent.gvk in g then ChildKeys(g[parent.gvk], parent.name) else []
  }

  /** How often a key occurs in a list. */
  function Mult(k: Key, ks: seq<Key>): nat { multiset(ks)[k] }

  lemma MultSplit(k: Key, ks: seq<Key>, i: nat)
    requires i < |ks|
    ensures Mult(k, ks[..i + 1]) == Mult(k, ks[..i]) + (if k == ks[i] then 1 else 0)
    ensures Mult(k, ks[i..]) == Mult(k, ks[i + 1..]) + (if k == ks[i] then 1 else 0)
  {
    assert ks[..i + 1] == ks[..i] + [ks[i]];
    assert ks[i..] == [ks[i]] + ks[i + 1..];
  }

  // ---------------------------------------------------------------------------
  // Sums over tables of counters
  // ---------------------------------------------------------------------------

  ghost function Sum<K>(m: map<K, nat>): nat {
    if m == map[] then 0
    else
      var k :| k in m;
      m[k] + Sum(m - {k})
  }

  lemma {:induction false} SumPick<K>(m: map<K, nat>, k: K)
    requires k in m
    ensures Sum(m) == m[k] + Sum(m - {k})
    decreases |m|
  {
    var j :| j in m && Sum(m) == m[j] + Sum(m - {j});
    if j != k {
      SumPick(m - {j}, k);
      SumPick(m - {k}, j);
      assert m - {j} - {k} == m - {k} - {j};
    }
  }

  function At<K>(m: map<K, nat>, k: K): nat { if k in m then m[k] else 0 }

  /** Changing one entry changes the sum by the difference. */
  lemma SumUpdate<K>(m: map<K, nat>, k: K, v: nat)
    ensures Sum(m[k := v]) == Sum(m) - At(m, k) + v
    ensures At(m, k) <= Sum(m)
  {
    SumPick(m[k := v], k);
    assert m[k := v] - {k} == m - {k};
    if k in m {
      SumPick(m, k);
    } else {
      assert m - {k} == m;
    }
  }

  lemma SumRemove<K>(m: map<K, nat>, k: K)
    ensures Sum(m - {k}) == Sum(m) - At(m, k)
    ensures At(m, k) <= Sum(m)
  {
    if k in m {
      SumPick(m, k);
    } else {
      assert m - {k} == m;
    }
  }
}
