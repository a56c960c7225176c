// The filter and the debugger as the objects the source updates in place (e2e/pkg/debug/filter.go,
// debugger.go, related.go). Calls run one after another here; WatchProtocol has them interleaved.
module Watches {
  import opened Text
  import opened WatchKeys
  import opened WatchProtocol

  type Names = map<string, map<string, nat>>

  class Filter {
    var byKindAll: map<string, nat>
    var byName: Names
    var allKinds: seq<string>

    constructor ()
      ensures Valid() && forall t :: CountAt(t) == 0
    {
      byKindAll, byName, allKinds := map[], map[], [];
    }

    /** Counters are positive, no kind has an empty table, and the kinds are listed once each. */
    ghost predicate Valid()
      reads this
    {
      && Tables(byKindAll, byName)
      && (set k | k in allKinds) == byKindAll.Keys + byName.Keys
      && forall i, j :: 0 <= i < j < |allKinds| ==> allKinds[i] != allKinds[j]
    }

    static ghost predicate Tables(byKindAll: map<string, nat>, byName: Names) {
      Positive(byKindAll) && forall k :: k in byName ==> byName[k] != map[] && Positive(byName[k])
    }

    static function CountIn(byKindAll: map<string, nat>, byName: Names, t: Target): nat {
      match t
      case WholeKind(kind) => At(byKindAll, kind)
      case Named(kind, name) => if kind in byName then At(byName[kind], name) else 0
    }

    function CountAt(t: Target): nat
      reads this
    {
      CountIn(byKindAll, byName, t)
    }

    method RebuildAllKinds()
      requires Tables(byKindAll, byName)
      modifies this`allKinds
      ensures Valid()
    {
      var seen := byKindAll.Keys + byName.Keys;
      allKinds := [];
      ghost var all := seen;
      while seen != {}
        invariant (set k | k in allKinds) + seen == all && (set k | k in allKinds) !! seen
        invariant forall i, j :: 0 <= i < j < |allKinds| ==> allKinds[i] != allKinds[j]
      {
        var k :| k in seen;
        assert forall i :: 0 <= i < |allKinds| ==> allKinds[i] in (set x | x in allKinds);
        allKinds := allKinds + [k];
        seen := seen - {k};
      }
    }

    method AddKind(kind: string)
      requires Valid()
      modifies this
      ensures Valid()
      ensures forall t :: CountAt(t) == old(CountAt(t)) + (if t == WholeKind(kind) then 1 else 0)
    {
      byKindAll := byKindAll[kind := At(byKindAll, kind) + 1];
      RebuildAllKinds();
    }

    static function NameAdded(byName: Names, kind: string, name: string): Names {
      var names := if kind in byName then byName[kind] else map[];
      byName[kind := Raise(names, name)]
    }

    static lemma AddingName(all: map<string, nat>, byName: Names, kind: string, name: string)
      requires Tables(all, byName)
      ensures var r := NameAdded(byName, kind, name);
              && Tables(all, r)
              && forall t :: CountIn(all, r, t) == CountIn(all, byName, t) + (if t == Named(kind, name) then 1 else 0)
    {
      var r := NameAdded(byName, kind, name);
      assert name in r[kind];
    }

    method AddName(kind: string, name: string)
      requires Valid()
      modifies this
      ensures Valid()
      ensures forall t :: CountAt(t) == old(CountAt(t)) + (if t == Named(kind, name) then 1 else 0)
    {
      hide CountIn, Tables;
      AddingName(byKindAll, byName, kind, name);
      if kind !in byName {
        byName := byName[kind := map[]];
      }
      var names: map<string, nat> := byName[kind];
      byName := byName[kind := Raise(names, name)];
      assert byName == NameAdded(old(byName), kind, name);
      RebuildAllKinds();
    }

    method RemoveKind(kind: string)
      requires Valid()
      modifies this
      ensures Valid()
      ensures forall t :: CountAt(t) == old(CountAt(t)) - (if t == WholeKind(kind) && old(CountAt(t)) > 0 then 1 else 0)
    {
      var c := At(byKindAll, kind);
      if c > 1 {
        byKindAll := byKindAll[kind := c - 1];
      } else {
        byKindAll := byKindAll - {kind};
      }
      RebuildAllKinds();
    }

    static function NameRemoved(byName: Names, kind: string, name: string): Names {
      if kind !in byName then byName
      else
        var names := Lower(byName[kind], name);
        if names == map[] then byName - {kind} else byName[kind := names]
    }

    static lemma RemovingName(all: map<string, nat>, byName: Names, kind: string, name: string)
      requires Tables(all, byName)
      ensures var r := NameRemoved(byName, kind, name);
              && Tables(all, r)
              && forall t :: CountIn(all, r, t) == CountIn(all, byName, t)
                                 - (if t == Named(kind, name) && CountIn(all, byName, t) > 0 then 1 else 0)
    {
      if kind in byName {
        var names := Lower(byName[kind], name);
        assert forall n :: At(names, n) == At(byName[kind], n)
                                           - (if n == name && At(byName[kind], n) > 0 then 1 else 0);
      }
    }

    method RemoveName(kind: string, name: string)
      requires Valid()
      modifies this
      ensures Valid()
      ensures forall t :: CountAt(t) == old(CountAt(t))
                                        - (if t == Named(kind, name) && old(CountAt(t)) > 0 then 1 else 0)
    {
      hide CountIn, Tables;
      RemovingName(byKindAll, byName, kind, name);
      if kind in byName {
        var names: map<string, nat> := byName[kind];
        if At(names, name) > 1 {
          names := names[name := names[name] - 1];
          assert name in names;
          byName := byName[kind := names];
        } else {
          names := names - {name};
          byName := byName[kind := names];
          if names == map[] {
            byName := byName - {kind};
          }
        }
      }
      assert byName == NameRemoved(old(byName), kind, name);
      RebuildAllKinds();
    }

    method MatchesObject(kind: string, name: string) returns (b: bool)
      ensures b <==> CountAt(WholeKind(kind)) > 0 || CountAt(Named(kind, name)) > 0
    {
      if At(byKindAll, kind) > 0 {
        return true;
      }
      if kind in byName {
        return At(byName[kind], name) > 0;
      }
      return false;
    }

    /** A controller matches when its name starts with a kind that is watched at all. */
    method MatchesControllerName(controllerName: string) returns (b: bool)
      requires Valid()
      ensures b <==> exists t: Target :: CountAt(t) > 0 && t.kind + "-" <= controllerName
    {
      for i := 0 to |allKinds|
        invariant forall j :: 0 <= j < i ==> !(allKinds[j] + "-" <= controllerName)
      {
        if allKinds[i] + "-" <= controllerName {
          KindIsCounted(allKinds[i]);
          return true;
        }
      }
      forall t: Target | CountAt(t) > 0 ensures t.kind in allKinds {
        assert t.kind in byKindAll.Keys + byName.Keys;
      }
      return false;
    }

    lemma KindIsCounted(kind: string)
      requires Valid() && kind in allKinds
      ensures exists t: Target :: t.kind == kind && CountAt(t) > 0
    {
      assert kind in (set k | k in allKinds);
      assert kind in byKindAll.Keys + byName.Keys;
      if kind in byKindAll {
        assert CountAt(WholeKind(kind)) > 0;
      } else {
        var name :| name in byName[kind];
        assert CountAt(Named(kind, name)) > 0;
      }
    }
  }

  // ---------------------------------------------------------------------------
  // The debugger
  // ---------------------------------------------------------------------------

  datatype Entry = Entry(childKeys: seq<Key>, refCount: nat)

  class Debugger {
    const cfg: Config
    var watches: map<Key, nat>
    var groups: map<Key, Entry>
    const filter: Filter
    ghost var leaked: multiset<Target>   // increments of watches that name nothing

    constructor (cfg: Config)
      ensures Valid() && fresh(filter) && this.cfg == cfg
      ensures watches == map[] && groups == map[] && leaked == multiset{}
    {
      this.cfg, watches, groups, leaked := cfg, map[], map[], multiset{};
      filter := new Filter();
      new;
      NothingWatched(cfg);
    }

    ghost predicate Counts(watches: map<Key, nat>, leaked: multiset<Target>)
      reads filter
    {
      filter.Valid() && forall t :: filter.CountAt(t) == Sum(RefWeights(cfg, watches, t)) + leaked[t]
    }

    static ghost predicate Listed(cfg: Config, groups: map<Key, Entry>) {
      forall p :: p in groups ==> groups[p].refCount > 0 && groups[p].childKeys == Children(cfg.graph, p)
    }

    /** The filter counts exactly the references of the watches and what was leaked; groups list their children. */
    ghost predicate Valid()
      reads this, filter
    {
      Positive(watches) && Counts(watches, leaked) && Listed(cfg, groups)
    }

    method Count(t: Target)
      requires filter.Valid()
      modifies filter
      ensures filter.Valid()
      ensures forall x :: filter.CountAt(x) == old(filter.CountAt(x)) + (if x == t then 1 else 0)
    {
      match t
      case WholeKind(kind) => filter.AddKind(kind);
      case Named(kind, name) => filter.AddName(kind, name);
    }

    method Uncount(t: Target)
      requires filter.Valid()
      modifies filter
      ensures filter.Valid()
      ensures forall x :: filter.CountAt(x) == old(filter.CountAt(x))
                                               - (if x == t && old(filter.CountAt(x)) > 0 then 1 else 0)
    {
      match t
      case WholeKind(kind) => filter.RemoveKind(kind);
      case Named(kind, name) => filter.RemoveName(kind, name);
    }

    /** Watch, WatchByLabel and watchBySpecField. */
    method Watch(c: Call)
      requires Valid()
      modifies this`watches, this`leaked, filter
      ensures Valid() && watches == Raise(old(watches), KeyOf(c))
      ensures leaked == old(leaked) + Lost(cfg, KeyOf(c), AddedTarget(c, cfg.short))
    {
      hide Sum, RefWeights, Listed, RemovedTarget, Filter.CountAt, Filter.Valid;
      var k, t := KeyOf(c), AddedTarget(c, cfg.short);
      ghost var before := watches;
      watches := watches[k := At(watches, k) + 1];
      leaked := leaked + Lost(cfg, k, t);
      Count(t);
      forall x ensures filter.CountAt(x) == Sum(RefWeights(cfg, watches, x)) + leaked[x] {
        CallMatches(cfg, c);
        RefsRaised(cfg, before, k, x);
      }
    }

    /** The end of unwatchByKey: the counter the key stands for, if any. */
    method UncountKey(k: Key)
      requires filter.Valid()
      modifies filter
      ensures filter.Valid()
      ensures forall x :: filter.CountAt(x) == old(filter.CountAt(x))
                          - (if RemovedTarget(k, cfg.short) == Some(x) && old(filter.CountAt(x)) > 0 then 1 else 0)
    {
      hide Filter.CountAt, Filter.Valid;
      if k.name != "" {
        Uncount(Named(cfg.short(k.gvk.kind), k.name));
      } else if k.labelSelector != "" || k.specFilter != "" {
        Uncount(WholeKind(cfg.short(k.gvk.kind)));
      }
    }

    /** unwatchByKey: a key that is not watched is ignored, and one that names nothing lowers no counter. */
    method UnwatchByKey(k: Key)
      requires Valid()
      modifies this`watches, filter
      ensures Valid() && watches == Lower(old(watches), k)
    {
      hide Sum, RefWeights, Listed, RemovedTarget, Filter.CountAt, Filter.Valid;
      ghost var before := watches;
      if k !in watches {
        assert watches - {k} == watches;
        return;
      }
      var refCount := watches[k] - 1;
      if refCount > 0 {
        watches := watches[k := refCount];
      } else {
        watches := watches - {k};
      }
      assert watches == Lower(before, k);
      UncountKey(k);
      forall x ensures filter.CountAt(x) == Sum(RefWeights(cfg, watches, x)) + leaked[x] {
        RefsLowered(cfg, before, k, x);
      }
    }

    method WatchRelated(gvk: Gvk, name: string)
      requires Valid()
      modifies this, filter
      ensures Valid()
      ensures var p := Key(gvk, name, "", "");
              && groups.Keys == old(groups.Keys) + {p}
              && groups[p].refCount == (if p in old(groups) then old(groups)[p].refCount + 1 else 1)
              && (forall q :: q in groups && q != p ==> groups[q] == old(groups)[q])
              && (forall k :: At(watches, k) == old(At(watches, k)) + PerHold(cfg, p, k))
              && leaked == old(leaked) + Lost(cfg, p, Named(cfg.short(gvk.kind), name))
    {
      hide Sum, RefWeights, Children, Mult, Counts, Lost, RemovedTarget, Positive;
      var p := Key(gvk, name, "", "");
      Watch(ByName(gvk, name));
      if p in groups {
        var entry := groups[p];
        groups := groups[p := Entry(entry.childKeys, entry.refCount + 1)];
        RewatchChildren(entry.childKeys, p);
      } else {
        WatchChildren(p);
        groups := groups[p := Entry(Children(cfg.graph, p), 1)];
      }
    }

    method WatchChildren(p: Key)
      requires Valid()
      modifies this`watches, this`leaked, filter
      ensures Valid() && leaked == old(leaked)
      ensures forall k :: At(watches, k) == old(At(watches, k)) + Mult(k, Children(cfg.graph, p))
    {
      hide Sum, RefWeights, Mult, Valid;
      var rels := if p.gvk in cfg.graph then cfg.graph[p.gvk] else [];
      ghost var children := Children(cfg.graph, p);
      MultEnds(children);
      for i := 0 to |rels|
        invariant Valid() && leaked == old(leaked)
        invariant forall k :: At(watches, k) == old(At(watches, k)) + Mult(k, children[..i])
      {
        forall k { MultSplit(k, children, i); }
        match rels[i]
        case LabelRelation(g, labelKey) => Watch(ByLabel(g, labelKey + "=" + p.name));
        case FieldRelation(g, path) => Watch(BySpecField(g, path, p.name));
      }
    }

    /** A repeated WatchRelated re-parses the stored child keys, and finds the same watches. */
    method RewatchChildren(children: seq<Key>, ghost p: Key)
      requires Valid() && children == Children(cfg.graph, p)
      modifies this`watches, this`leaked, filter
      ensures Valid() && leaked == old(leaked)
      ensures forall k :: At(watches, k) == old(At(watches, k)) + Mult(k, children)
    {
      hide Sum, RefWeights, Mult, Valid, CutAtEquals;
      MultEnds(children);
      for i := 0 to |children|
        invariant Valid() && leaked == old(leaked)
        invariant forall k :: At(watches, k) == old(At(watches, k)) + Mult(k, children[..i])
      {
        forall k { MultSplit(k, children, i); }
        var k := children[i];
        if k.labelSelector != "" {
          Watch(ByLabel(k.gvk, k.labelSelector));
        } else {
          FieldKeyHasEquals(cfg.graph, p, i);
          var parts := CutAtEquals(k.specFilter);
          CutRejoins(k.specFilter);
          Watch(BySpecField(k.gvk, parts.0, parts.1));
        }
      }
    }

    /** Without a group only the parent is released; a watch that is not held is left alone. */
    method UnwatchRelated(gvk: Gvk, name: string)
      requires Valid()
      modifies this, filter
      ensures Valid() && leaked == old(leaked)
      ensures var p := Key(gvk, name, "", "");
              if p !in old(groups) then groups == old(groups) && watches == Lower(old(watches), p)
              else
                && groups == (if old(groups)[p].refCount > 1
                              then old(groups)[p := Entry(old(groups)[p].childKeys, old(groups)[p].refCount - 1)]
                              else old(groups) - {p})
                && (forall k :: At(watches, k) == Less(old(At(watches, k)), PerHold(cfg, p, k)))
    {
      hide Sum, RefWeights, Children, Mult, Counts;
      var p := Key(gvk, name, "", "");
      UnwatchByKey(p);
      if p !in groups {
        return;
      }
      var entry := groups[p];
      groups := if entry.refCount - 1 <= 0 then groups - {p}
                else groups[p := Entry(entry.childKeys, entry.refCount - 1)];
      UnwatchChildren(entry.childKeys, p);
    }

    method UnwatchChildren(children: seq<Key>, ghost p: Key)
      requires Valid() && children == Children(cfg.graph, p)
      modifies this`watches, filter
      ensures Valid()
      ensures forall k :: At(watches, k) == Less(old(At(watches, k)), Mult(k, children))
    {
      hide Sum, RefWeights, Mult, Valid, Children;
      MultEnds(children);
      for i := 0 to |children|
        invariant Valid()
        invariant forall k :: At(watches, k) == Less(old(At(watches, k)), Mult(k, children[..i]))
      {
        forall k { MultSplit(k, children, i); }
        UnwatchByKey(children[i]);
      }
    }
  }

  /** Subtraction that stops at zero. */
  function Less(n: nat, m: nat): nat { if n > m then n - m else 0 }

  lemma MultEnds(ks: seq<Key>)
    ensures ks[..0] == [] && ks[..|ks|] == ks && ks[0..] == ks && ks[|ks|..] == []
    ensures forall k :: Mult(k, []) == 0
  {
  }

  /** Ending a watch lowers what starting it raised, or nothing. */
  lemma CallMatches(cfg: Config, c: Call)
    ensures RemovedTarget(KeyOf(c), cfg.short) == None
         || RemovedTarget(KeyOf(c), cfg.short) == Some(AddedTarget(c, cfg.short))
  {
    UnwatchMatchesWatchIff(c, cfg.short);
  }

  lemma LabelIsNotEmpty(labelKey: string, value: string)
    ensures labelKey + "=" + value != ""
  {
    assert |labelKey + "=" + value| > 0;
  }

  lemma FieldKeyHasEquals(g: Graph, p: Key, i: nat)
    requires i < |Children(g, p)| && Children(g, p)[i].labelSelector == ""
    ensures var k := Children(g, p)[i]; '=' in k.specFilter && k == Key(k.gvk, "", "", k.specFilter)
  {
    var rel := g[p.gvk][i];
    match rel
    case LabelRelation(_, labelKey) =>
      LabelIsNotEmpty(labelKey, p.name);
    case FieldRelation(_, path) =>
      assert (path + "=" + p.name)[|path|] == '=';
  }

  lemma NothingWatched(cfg: Config)
    ensures forall t :: Sum(RefWeights(cfg, map[], t)) == 0
  {
    assert forall t :: RefWeights(cfg, map[], t) == map[];
  }
}
