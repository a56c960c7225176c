// A run of the watch protocol in which two overlapping first WatchRelated calls for one parent leave a
// child watched for ever (e2e/pkg/debug/related.go).
module WatchLeak {
  import opened Text
  import opened WatchKeys
  import opened WatchProtocol

  /** A named parent with one child, and the counters the two watches stand for. */
  datatype Family = Family(p: Key, c: Key, tp: Target, tc: Target)

  ghost predicate IsFamily(cfg: Config, f: Family) {
    && IsParent(f.p) && f.p != f.c && f.tp != f.tc && Children(cfg.graph, f.p) == [f.c]
    && RemovedTarget(f.p, cfg.short) == Some(f.tp) && AddedTarget(ByName(f.p.gvk, f.p.name), cfg.short) == f.tp
    && RemovedTarget(f.c, cfg.short) == Some(f.tc) && WholeKind(cfg.short(f.c.gvk.kind)) == f.tc
  }

  lemma FamilyOf(cfg: Config, p: Key, c: Key) returns (f: Family)
    requires IsParent(p) && p.name != "" && Children(cfg.graph, p) == [c]
    ensures IsFamily(cfg, f) && f.p == p && f.c == c && f.tc == WholeKind(cfg.short(c.gvk.kind))
  {
    ChildrenAreProper(cfg.graph, p);
    assert Children(cfg.graph, p)[0] == c;
    f := Family(p, c, Named(cfg.short(p.gvk.kind), p.name), WholeKind(cfg.short(c.gvk.kind)));
  }

  function One<K>(p: K, m: nat): map<K, nat> { if m == 0 then map[] else map[p := m] }

  function Two<K>(p: K, m: nat, c: K, n: nat): map<K, nat> { One(p, m) + One(c, n) }

  function Bag(p: Target, m: nat, c: Target, n: nat): multiset<Target> { multiset{}[p := m][c := n] }

  lemma OneMoves<K>(p: K, m: nat)
    ensures Raise(One(p, m), p) == One(p, m + 1) && (m > 0 ==> Lower(One(p, m), p) == One(p, m - 1))
    ensures (p in One(p, m) <==> m > 0) && At(One(p, m), p) == m
  {
  }

  lemma TwoMoves<K>(p: K, m: nat, c: K, n: nat)
    requires p != c
    ensures var t := Two(p, m, c, n);
            && Raise(t, p) == Two(p, m + 1, c, n) && Raise(t, c) == Two(p, m, c, n + 1)
            && (m > 0 ==> Lower(t, p) == Two(p, m - 1, c, n)) && (n > 0 ==> Lower(t, c) == Two(p, m, c, n - 1))
            && (p in t <==> m > 0) && (c in t <==> n > 0)
  {
  }

  lemma BagMoves(p: Target, m: nat, c: Target, n: nat)
    requires p != c
    ensures var t := Bag(p, m, c, n);
            && t + multiset{p} == Bag(p, m + 1, c, n) && t + multiset{c} == Bag(p, m, c, n + 1)
            && (m > 0 ==> p in t && t - multiset{p} == Bag(p, m - 1, c, n))
            && (n > 0 ==> c in t && t - multiset{c} == Bag(p, m, c, n - 1))
  {
    hide Bag;
    BagUp(p, m, c, n);
    BagDown(p, m, c, n);
  }

  lemma BagUp(p: Target, m: nat, c: Target, n: nat)
    requires p != c
    ensures Bag(p, m, c, n) + multiset{p} == Bag(p, m + 1, c, n)
    ensures Bag(p, m, c, n) + multiset{c} == Bag(p, m, c, n + 1)
  {
  }

  lemma BagDown(p: Target, m: nat, c: Target, n: nat)
    requires p != c
    ensures m > 0 ==> p in Bag(p, m, c, n) && Bag(p, m, c, n) - multiset{p} == Bag(p, m - 1, c, n)
    ensures n > 0 ==> c in Bag(p, m, c, n) && Bag(p, m, c, n) - multiset{c} == Bag(p, m, c, n - 1)
  {
  }

  /** References, counters and removals in flight of parent and child, the group's count and the holds on it. */
  datatype Tally = Tally(rp: nat, rc: nat, np: nat, nc: nat, fp: nat, fc: nat, g: nat, h: nat)

  /** The tasks of calls 0 and 1. */
  datatype Slots = Slots(a: Option<Task>, b: Option<Task>)

  function Get(sl: Slots, id: nat): Option<Task> { if id == 0 then sl.a else sl.b }

  function Put(sl: Slots, id: nat, t: Option<Task>): Slots { if id == 0 then sl.(a := t) else sl.(b := t) }

  function Slot(id: nat, t: Option<Task>): map<nat, Task> { if t.None? then map[] else map[id := t.value] }

  function Tasks(sl: Slots): map<nat, Task> { Slot(0, sl.a) + Slot(1, sl.b) }

  lemma SlotMoves(sl: Slots, id: nat, t: Task)
    requires id < 2
    ensures Tasks(sl)[id := t] == Tasks(Put(sl, id, Some(t))) && Tasks(sl) - {id} == Tasks(Put(sl, id, None))
    ensures (id in Tasks(sl) <==> Get(sl, id).Some?) && (id in Tasks(sl) ==> Tasks(sl)[id] == Get(sl, id).value)
  {
  }

  function Made(f: Family, n: Tally, sl: Slots): State {
    State(Two(f.p, n.rp, f.c, n.rc), One(f.p, n.g), Two(f.tp, n.np, f.tc, n.nc), Bag(f.tp, n.fp, f.tc, n.fc),
          multiset{}, Tasks(sl), map[], One(f.p, n.h))
  }

  ghost predicate Goes(cfg: Config, s: State, a: Action, t: State) {
    Enabled(cfg, s, a) && Owned(s, a) && Apply(cfg, s, a) == t
  }

  lemma Begins(cfg: Config, f: Family, n: Tally, sl: Slots, id: nat)
    requires IsFamily(cfg, f) && id < 2 && Get(sl, id).None?
    ensures Goes(cfg, Made(f, n, sl), BeginRelated(id, f.p),
                 Made(f, n.(rp := n.rp + 1, np := n.np + 1), Put(sl, id, Some(Entering(f.p)))))
  {
    hide Children, RemovedTarget, AddedTarget, Raise, Lower, One, Two, Bag, Tasks;
    SlotMoves(sl, id, Entering(f.p));
    TwoMoves(f.p, n.rp, f.c, n.rc);
    TwoMoves(f.tp, n.np, f.tc, n.nc);
  }

  lemma LooksUp(cfg: Config, f: Family, n: Tally, sl: Slots, id: nat)
    requires IsFamily(cfg, f) && id < 2 && Get(sl, id) == Some(Entering(f.p)) && n.g == 0
    ensures Goes(cfg, Made(f, n, sl), LookupGroup(id), Made(f, n, Put(sl, id, Some(Building(f.p, 0)))))
  {
    hide Children, Raise, Lower, Two, Bag, Tasks;
    SlotMoves(sl, id, Building(f.p, 0));
  }

  lemma WatchesChild(cfg: Config, f: Family, n: Tally, sl: Slots, id: nat)
    requires IsFamily(cfg, f) && id < 2 && Get(sl, id) == Some(Building(f.p, 0))
    ensures Goes(cfg, Made(f, n, sl), WatchChild(id),
                 Made(f, n.(rc := n.rc + 1, nc := n.nc + 1), Put(sl, id, Some(Building(f.p, 1)))))
  {
    hide Children, RemovedTarget, AddedTarget, Raise, Lower, One, Two, Bag, Tasks;
    SlotMoves(sl, id, Building(f.p, 1));
    TwoMoves(f.p, n.rp, f.c, n.rc);
    TwoMoves(f.tp, n.np, f.tc, n.nc);
  }

  lemma Stores(cfg: Config, f: Family, n: Tally, sl: Slots, id: nat)
    requires IsFamily(cfg, f) && id < 2 && Get(sl, id) == Some(Building(f.p, 1))
    ensures Goes(cfg, Made(f, n, sl), EndRelated(id), Made(f, n.(g := 1, h := n.h + 1), Put(sl, id, None)))
    ensures StoresOver(Made(f, n, sl), EndRelated(id)) <==> n.g > 0
  {
    hide Children, Raise, Lower, Two, Bag, Tasks;
    SlotMoves(sl, id, Entering(f.p));
    OneMoves(f.p, n.h);
    OneMoves(f.p, n.g);
  }

  lemma Releases(cfg: Config, f: Family, n: Tally, sl: Slots, id: nat)
    requires IsFamily(cfg, f) && id < 2 && Get(sl, id).None? && n.h > 0 && n.rp > 0
    ensures Goes(cfg, Made(f, n, sl), BeginRelease(id, f.p),
                 Made(f, n.(rp := n.rp - 1, fp := n.fp + 1, h := n.h - 1), Put(sl, id, Some(Releasing(f.p)))))
  {
    hide Children, RemovedTarget, AddedTarget, Raise, Lower, One, Two, Bag, Tasks;
    SlotMoves(sl, id, Releasing(f.p));
    TwoMoves(f.p, n.rp, f.c, n.rc);
    BagMoves(f.tp, n.fp, f.tc, n.fc);
    OneMoves(f.p, n.h);
  }

  lemma Lowers(cfg: Config, f: Family, n: Tally, sl: Slots, id: nat)
    requires IsFamily(cfg, f) && id < 2 && Get(sl, id) == Some(Releasing(f.p))
    ensures Goes(cfg, Made(f, n, sl), LowerGroup(id),
                 if n.g > 0 then Made(f, n.(g := n.g - 1), Put(sl, id, Some(Dropping(f.p, 0))))
                 else Made(f, n, Put(sl, id, None)))
  {
    hide Children, Raise, Two, Bag, Tasks;
    SlotMoves(sl, id, Dropping(f.p, 0));
    OneMoves(f.p, n.g);
  }

  lemma UnwatchesChild(cfg: Config, f: Family, n: Tally, sl: Slots, id: nat)
    requires IsFamily(cfg, f) && id < 2 && Get(sl, id) == Some(Dropping(f.p, 0)) && n.rc > 0
    ensures Goes(cfg, Made(f, n, sl), UnwatchChild(id),
                 Made(f, n.(rc := n.rc - 1, fc := n.fc + 1), Put(sl, id, Some(Dropping(f.p, 1)))))
  {
    hide Children, RemovedTarget, AddedTarget, Raise, Lower, One, Two, Bag, Tasks;
    SlotMoves(sl, id, Dropping(f.p, 1));
    TwoMoves(f.p, n.rp, f.c, n.rc);
    BagMoves(f.tp, n.fp, f.tc, n.fc);
  }

  lemma EndsRelease(cfg: Config, f: Family, n: Tally, sl: Slots, id: nat)
    requires IsFamily(cfg, f) && id < 2 && Get(sl, id) == Some(Dropping(f.p, 1))
    ensures Goes(cfg, Made(f, n, sl), EndRelease(id), Made(f, n, Put(sl, id, None)))
  {
    hide Children, Raise, Lower, One, Two, Bag, Tasks;
    SlotMoves(sl, id, Entering(f.p));
  }

  lemma RemovesParent(cfg: Config, f: Family, n: Tally, sl: Slots)
    requires IsFamily(cfg, f) && n.fp > 0 && n.np > 0
    ensures Goes(cfg, Made(f, n, sl), FinishRemoval(f.tp), Made(f, n.(np := n.np - 1, fp := n.fp - 1), sl))
  {
    hide Children, Raise, Lower, One, Two, Bag, Tasks;
    TwoMoves(f.tp, n.np, f.tc, n.nc);
    BagMoves(f.tp, n.fp, f.tc, n.fc);
  }

  lemma RemovesChild(cfg: Config, f: Family, n: Tally, sl: Slots)
    requires IsFamily(cfg, f) && n.fc > 0 && n.nc > 0
    ensures Goes(cfg, Made(f, n, sl), FinishRemoval(f.tc), Made(f, n.(nc := n.nc - 1, fc := n.fc - 1), sl))
  {
    hide Children, Raise, Lower, One, Two, Bag, Tasks;
    TwoMoves(f.tp, n.np, f.tc, n.nc);
    BagMoves(f.tp, n.fp, f.tc, n.fc);
  }

  const NONE := Slots(None, None)

  /** Both calls have watched the parent, found no group and watched the child. */
  lemma TwoBuilt(cfg: Config, f: Family) returns (states: seq<State>, actions: seq<Action>)
    requires IsFamily(cfg, f)
    ensures Reaches(cfg, states, actions,
                    Made(f, Tally(2, 2, 2, 2, 0, 0, 0, 0), Slots(Some(Building(f.p, 1)), Some(Building(f.p, 1)))))
  {
    StartsEmpty(f);
    hide IsFamily, Goes, Reaches, Made;
    var e, b, d := Some(Entering(f.p)), Some(Building(f.p, 0)), Some(Building(f.p, 1));
    states, actions := Start(cfg);
    var n0 := Tally(0, 0, 0, 0, 0, 0, 0, 0);
    Begins(cfg, f, n0, NONE, 0);
    var n1 := n0.(rp := 1, np := 1);
    states, actions := Extend(cfg, states, actions, INITIAL, BeginRelated(0, f.p), Made(f, n1, Slots(e, None)));
    Begins(cfg, f, n1, Slots(e, None), 1);
    var n2, s2 := n1.(rp := 2, np := 2), Slots(e, e);
    states, actions := Extend(cfg, states, actions, Made(f, n1, Slots(e, None)), BeginRelated(1, f.p), Made(f, n2, s2));
    LooksUp(cfg, f, n2, s2, 0);
    states, actions := Extend(cfg, states, actions, Made(f, n2, s2), LookupGroup(0), Made(f, n2, Slots(b, e)));
    LooksUp(cfg, f, n2, Slots(b, e), 1);
    var s4 := Slots(b, b);
    states, actions := Extend(cfg, states, actions, Made(f, n2, Slots(b, e)), LookupGroup(1), Made(f, n2, s4));
    WatchesChild(cfg, f, n2, s4, 0);
    var n5, s5 := n2.(rc := 1, nc := 1), Slots(d, b);
    states, actions := Extend(cfg, states, actions, Made(f, n2, s4), WatchChild(0), Made(f, n5, s5));
    WatchesChild(cfg, f, n5, s5, 1);
    var n6, s6 := n5.(rc := 2, nc := 2), Slots(d, d);
    states, actions := Extend(cfg, states, actions, Made(f, n5, s5), WatchChild(1), Made(f, n6, s6));
  }

  lemma StartsEmpty(f: Family)
    ensures Made(f, Tally(0, 0, 0, 0, 0, 0, 0, 0), NONE) == INITIAL
  {
  }

  lemma Start(cfg: Config) returns (states: seq<State>, actions: seq<Action>)
    ensures Reaches(cfg, states, actions, INITIAL)
  {
    states, actions := [INITIAL], [];
  }

  /** Both have stored their group, the second over the first. */
  lemma TwoStored(cfg: Config, f: Family) returns (states: seq<State>, actions: seq<Action>)
    requires IsFamily(cfg, f)
    ensures Reaches(cfg, states, actions, Made(f, Tally(2, 2, 2, 2, 0, 0, 1, 2), NONE))
    ensures !NeverStoresOver(states, actions)
  {
    hide IsFamily, Goes, Made, StoresOver, Reaches, NeverStoresOver;
    states, actions := TwoBuilt(cfg, f);
    var d := Some(Building(f.p, 1));
    var n6, s6 := Tally(2, 2, 2, 2, 0, 0, 0, 0), Slots(d, d);
    Stores(cfg, f, n6, s6, 0);
    var n7, s7 := n6.(g := 1, h := 1), Slots(None, d);
    states, actions := Extend(cfg, states, actions, Made(f, n6, s6), EndRelated(0), Made(f, n7, s7));
    Stores(cfg, f, n7, s7, 1);
    states, actions := Extend(cfg, states, actions, Made(f, n7, s7), EndRelated(1), Made(f, n7.(h := 2), NONE));
  }

  /** The first release finds the group and takes it, with one reference to the child; the second finds none. */
  lemma BothReleased(cfg: Config, f: Family) returns (states: seq<State>, actions: seq<Action>)
    requires IsFamily(cfg, f)
    ensures Reaches(cfg, states, actions, Made(f, Tally(0, 1, 2, 2, 2, 1, 0, 0), NONE))
    ensures !NeverStoresOver(states, actions)
  {
    hide IsFamily, Goes, Made, Reaches, NeverStoresOver;
    states, actions := TwoStored(cfg, f);
    var r := Slots(Some(Releasing(f.p)), None);
    var d0, d1 := Slots(Some(Dropping(f.p, 0)), None), Slots(Some(Dropping(f.p, 1)), None);
    var n8 := Tally(2, 2, 2, 2, 0, 0, 1, 2);
    Releases(cfg, f, n8, NONE, 0);
    var n9 := n8.(rp := 1, fp := 1, h := 1);
    states, actions := Extend(cfg, states, actions, Made(f, n8, NONE), BeginRelease(0, f.p), Made(f, n9, r));
    Lowers(cfg, f, n9, r, 0);
    var n10 := n9.(g := 0);
    states, actions := Extend(cfg, states, actions, Made(f, n9, r), LowerGroup(0), Made(f, n10, d0));
    UnwatchesChild(cfg, f, n10, d0, 0);
    var n11 := n10.(rc := 1, fc := 1);
    states, actions := Extend(cfg, states, actions, Made(f, n10, d0), UnwatchChild(0), Made(f, n11, d1));
    EndsRelease(cfg, f, n11, d1, 0);
    states, actions := Extend(cfg, states, actions, Made(f, n11, d1), EndRelease(0), Made(f, n11, NONE));
    Releases(cfg, f, n11, NONE, 0);
    var n12 := n11.(rp := 0, fp := 2, h := 0);
    states, actions := Extend(cfg, states, actions, Made(f, n11, NONE), BeginRelease(0, f.p), Made(f, n12, r));
    Lowers(cfg, f, n12, r, 0);
    states, actions := Extend(cfg, states, actions, Made(f, n12, r), LowerGroup(0), Made(f, n12, NONE));
  }

  /**
   * Two WatchRelated calls for one parent that both find no group: the second stores its group over the
   * first, so of the two releases that follow only one finds a group. In the end nobody holds anything,
   * no call is half done and nothing is in flight, and the child is watched for ever.
   */
  lemma OverlappingFirstCallsLeakAWatch(cfg: Config, p: Key, c: Key)
    returns (states: seq<State>, actions: seq<Action>)
    requires IsParent(p) && p.name != "" && Children(cfg.graph, p) == [c]
    ensures Run(cfg, states, actions) && AllOwned(states, actions) && !NeverStoresOver(states, actions)
    ensures states[|states| - 1]
         == INITIAL.(refs := map[c := 1], counts := map[WholeKind(cfg.short(c.gvk.kind)) := 1])
  {
    var f := FamilyOf(cfg, p, c);
    states, actions := BothReleased(cfg, f);
    WhatIsLeft(f);
    hide IsFamily, Made, Run, AllOwned, NeverStoresOver;
    states, actions := Swept(cfg, f, states, actions);
  }

  /** The removals in flight are carried out. */
  lemma Swept(cfg: Config, f: Family, before: seq<State>, did: seq<Action>)
    returns (states: seq<State>, actions: seq<Action>)
    requires IsFamily(cfg, f) && !NeverStoresOver(before, did)
    requires Reaches(cfg, before, did, Made(f, Tally(0, 1, 2, 2, 2, 1, 0, 0), NONE))
    ensures Reaches(cfg, states, actions, Made(f, Tally(0, 1, 0, 1, 0, 0, 0, 0), NONE))
    ensures !NeverStoresOver(states, actions)
  {
    hide IsFamily, Goes, Made, Reaches, NeverStoresOver;
    states, actions := before, did;
    var n := Tally(0, 1, 2, 2, 2, 1, 0, 0);
    RemovesParent(cfg, f, n, NONE);
    var n1 := n.(np := 1, fp := 1);
    states, actions := Extend(cfg, states, actions, Made(f, n, NONE), FinishRemoval(f.tp), Made(f, n1, NONE));
    RemovesParent(cfg, f, n1, NONE);
    var n2 := n1.(np := 0, fp := 0);
    states, actions := Extend(cfg, states, actions, Made(f, n1, NONE), FinishRemoval(f.tp), Made(f, n2, NONE));
    RemovesChild(cfg, f, n2, NONE);
    var n3 := n2.(nc := 1, fc := 0);
    states, actions := Extend(cfg, states, actions, Made(f, n2, NONE), FinishRemoval(f.tc), Made(f, n3, NONE));
  }

  lemma WhatIsLeft(f: Family)
    ensures Made(f, Tally(0, 1, 0, 1, 0, 0, 0, 0), NONE)
         == INITIAL.(refs := map[f.c := 1], counts := map[f.tc := 1])
  {
  }

  ghost predicate Reaches(cfg: Config, states: seq<State>, actions: seq<Action>, s: State) {
    Run(cfg, states, actions) && AllOwned(states, actions) && states[|states| - 1] == s
  }

  lemma Extend(cfg: Config, states: seq<State>, actions: seq<Action>, s: State, a: Action, t: State)
    returns (states': seq<State>, actions': seq<Action>)
    requires Reaches(cfg, states, actions, s) && Goes(cfg, s, a, t)
    ensures Reaches(cfg, states', actions', t)
    ensures StoresOver(s, a) || !NeverStoresOver(states, actions) ==> !NeverStoresOver(states', actions')
  {
    hide Enabled, Apply, Owned, StoresOver;
    states', actions' := states + [t], actions + [a];
    if StoresOver(s, a) {
      assert StoresOver(states'[|actions|], actions'[|actions|]);
    } else if !NeverStoresOver(states, actions) {
      var i :| 0 <= i < |actions| && i < |states| && StoresOver(states[i], actions[i]);
      assert StoresOver(states'[i], actions'[i]);
    }
  }
}
