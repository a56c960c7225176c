// Concurrent Watch, Unwatch, WatchRelated and UnwatchRelated calls (e2e/pkg/debug/debugger.go,
// related.go, filter.go), one step per lock section. A call that is between two of its lock sections
// is a task; a filter removal that follows the release of the debugger's mutex is in flight.
module WatchProtocol {
  import opened Text
  import opened WatchKeys

  datatype Task =
    | Entering(p: Key)              // WatchRelated: the parent is watched, the group not yet looked up
    | Adding(p: Key, done: nat)     // the group existed and was counted up; so many children watched
    | Building(p: Key, done: nat)   // there was no group; so many children watched
    | Releasing(p: Key)             // UnwatchRelated: the parent is unwatched
    | Dropping(p: Key, done: nat)   // the group was counted down; so many children unwatched

  datatype State = State(
    refs: map<Key, nat>,           // refCount of each watch
    groups: map<Key, nat>,         // refCount of each related group
    counts: map<Target, nat>,      // the filter's counters
    inFlight: multiset<Target>,    // filter removals still to come
    leaked: multiset<Target>,      // increments by watches that name nothing: no removal will ever come
    tasks: map<nat, Task>,
    direct: map<Key, nat>,         // completed Watch calls not yet unwatched
    held: map<Key, nat>)           // completed WatchRelated calls not yet unwatched

  datatype Action =
    | Watch(c: Call)
    | Unwatch(k: Key)
    | FinishRemoval(t: Target)
    | BeginRelated(id: nat, p: Key)
    | LookupGroup(id: nat)
    | WatchChild(id: nat)
    | EndRelated(id: nat)
    | BeginRelease(id: nat, p: Key)
    | LowerGroup(id: nat)
    | UnwatchChild(id: nat)
    | EndRelease(id: nat)

  datatype Config = Config(short: string -> string, graph: Graph)

  const INITIAL := State(map[], map[], map[], multiset{}, multiset{}, map[], map[], map[])

  // ---------------------------------------------------------------------------
  // Steps
  // ---------------------------------------------------------------------------

  function Raise<K>(m: map<K, nat>, k: K): map<K, nat> { m[k := At(m, k) + 1] }

  /** Counting down removes the entry instead of storing zero. */
  function Lower<K>(m: map<K, nat>, k: K): map<K, nat> {
    if At(m, k) > 1 then m[k := m[k] - 1] else m - {k}
  }

  /** What of `t` a watch on `k` can never give back: all of it when the key names nothing. */
  function Lost(cfg: Config, k: Key, t: Target): multiset<Target> {
    if RemovedTarget(k, cfg.short).None? then multiset{t} else multiset{}
  }

  /** One lock section of Watch, WatchByLabel or watchBySpecField. */
  function AddRef(cfg: Config, s: State, k: Key, t: Target): State {
    s.(refs := Raise(s.refs, k), counts := Raise(s.counts, t), leaked := s.leaked + Lost(cfg, k, t))
  }

  function Removals(cfg: Config, k: Key): multiset<Target> {
    match RemovedTarget(k, cfg.short)
    case None => multiset{}
    case Some(t) => multiset{t}
  }

  /** The first lock section of unwatchByKey; a key that is not watched is ignored. */
  function DropRef(cfg: Config, s: State, k: Key): State {
    if k !in s.refs then s
    else s.(refs := Lower(s.refs, k), inFlight := s.inFlight + Removals(cfg, k))
  }

  /** The key of an object by name. */
  predicate IsParent(p: Key) { p.labelSelector == "" && p.specFilter == "" }

  lemma ChildrenAreProper(g: Graph, p: Key)
    ensures forall i :: 0 <= i < |Children(g, p)| ==> Proper(Children(g, p)[i]) && Children(g, p)[i].name == ""
  {
  }

  /** Any client may call anything at any time; calls go on where they left off. */
  predicate Enabled(cfg: Config, s: State, a: Action) {
    match a
    case Watch(_) => true
    case Unwatch(_) => true
    case FinishRemoval(t) => t in s.inFlight
    case BeginRelated(id, p) => id !in s.tasks && IsParent(p)
    case LookupGroup(id) => id in s.tasks && s.tasks[id].Entering?
    case WatchChild(id) =>
      id in s.tasks && (s.tasks[id].Adding? || s.tasks[id].Building?)
      && s.tasks[id].done < |Children(cfg.graph, s.tasks[id].p)|
    case EndRelated(id) =>
      id in s.tasks && (s.tasks[id].Adding? || s.tasks[id].Building?)
      && s.tasks[id].done == |Children(cfg.graph, s.tasks[id].p)|
    case BeginRelease(id, p) => id !in s.tasks && IsParent(p)
    case LowerGroup(id) => id in s.tasks && s.tasks[id].Releasing?
    case UnwatchChild(id) =>
      id in s.tasks && s.tasks[id].Dropping? && s.tasks[id].done < |Children(cfg.graph, s.tasks[id].p)|
    case EndRelease(id) =>
      id in s.tasks && s.tasks[id].Dropping? && s.tasks[id].done == |Children(cfg.graph, s.tasks[id].p)|
  }

  /** The reference a step adds, with the counter it raises, or the one it drops. */
  datatype Effect = NoEffect | Adds(k: Key, t: Target) | Drops(k: Key)

  function EffectOf(cfg: Config, s: State, a: Action): Effect
    requires Enabled(cfg, s, a)
  {
    match a
    case Watch(c) => Adds(KeyOf(c), AddedTarget(c, cfg.short))
    case BeginRelated(_, p) => Adds(p, AddedTarget(ByName(p.gvk, p.name), cfg.short))
    case WatchChild(id) =>
      var k := Children(cfg.graph, s.tasks[id].p)[s.tasks[id].done];
      Adds(k, WholeKind(cfg.short(k.gvk.kind)))
    case Unwatch(k) => Drops(k)
    case BeginRelease(_, p) => Drops(p)
    case UnwatchChild(id) => Drops(Children(cfg.graph, s.tasks[id].p)[s.tasks[id].done])
    case _ => NoEffect
  }

  /** What is raised is what dropping the same key lowers, unless that is nothing. */
  lemma EffectMatches(cfg: Config, s: State, a: Action)
    requires Enabled(cfg, s, a) && EffectOf(cfg, s, a).Adds?
    ensures var e := EffectOf(cfg, s, a);
            RemovedTarget(e.k, cfg.short) == None || RemovedTarget(e.k, cfg.short) == Some(e.t)
  {
    if a.Watch? {
      UnwatchMatchesWatchIff(a.c, cfg.short);
    }
  }

  /** What a step does to the watches and to the filter. */
  function Touch(cfg: Config, s: State, a: Action): State
    requires Enabled(cfg, s, a)
  {
    if a.FinishRemoval? then s.(counts := Lower(s.counts, a.t), inFlight := s.inFlight - multiset{a.t})
    else
      match EffectOf(cfg, s, a)
      case NoEffect => s
      case Adds(k, t) => AddRef(cfg, s, k, t)
      case Drops(k) => DropRef(cfg, s, k)
  }

  function NextGroups(s: State, a: Action): map<Key, nat> {
    if (a.LookupGroup? || a.EndRelated? || a.LowerGroup?) && a.id in s.tasks then
      var t := s.tasks[a.id];
      if a.LookupGroup? then (if t.p in s.groups then Raise(s.groups, t.p) else s.groups)
      else if a.LowerGroup? then Lower(s.groups, t.p)
      else if t.Building? then s.groups[t.p := 1]
      else s.groups
    else s.groups
  }

  function NextTasks(cfg: Config, s: State, a: Action): map<nat, Task>
    requires Enabled(cfg, s, a)
  {
    match a
    case BeginRelated(id, p) => s.tasks[id := Entering(p)]
    case LookupGroup(id) =>
      var p := s.tasks[id].p;
      s.tasks[id := if p in s.groups then Adding(p, 0) else Building(p, 0)]
    case WatchChild(id) =>
      var t := s.tasks[id];
      s.tasks[id := if t.Adding? then Adding(t.p, t.done + 1) else Building(t.p, t.done + 1)]
    case EndRelated(id) => s.tasks - {id}
    case BeginRelease(id, p) => s.tasks[id := Releasing(p)]
    case LowerGroup(id) =>
      var p := s.tasks[id].p;
      if p in s.groups then s.tasks[id := Dropping(p, 0)] else s.tasks - {id}
    case UnwatchChild(id) => s.tasks[id := Dropping(s.tasks[id].p, s.tasks[id].done + 1)]
    case EndRelease(id) => s.tasks - {id}
    case _ => s.tasks
  }

  function NextDirect(s: State, a: Action): map<Key, nat> {
    if a.Watch? then Raise(s.direct, KeyOf(a.c)) else if a.Unwatch? then Lower(s.direct, a.k) else s.direct
  }

  function NextHeld(cfg: Config, s: State, a: Action): map<Key, nat>
    requires Enabled(cfg, s, a)
  {
    if a.EndRelated? then Raise(s.held, s.tasks[a.id].p)
    else if a.BeginRelease? then Lower(s.held, a.p)
    else s.held
  }

  function Apply(cfg: Config, s: State, a: Action): State
    requires Enabled(cfg, s, a)
  {
    var t := Touch(cfg, s, a);
    State(t.refs, NextGroups(s, a), t.counts, t.inFlight, t.leaked, NextTasks(cfg, s, a),
          NextDirect(s, a), NextHeld(cfg, s, a))
  }

  ghost predicate Run(cfg: Config, states: seq<State>, actions: seq<Action>) {
    && |states| == |actions| + 1 && states[0] == INITIAL
    && forall i :: 0 <= i < |actions| ==>
         Enabled(cfg, states[i], actions[i]) && states[i + 1] == Apply(cfg, states[i], actions[i])
  }

  /** The step releases only what its client holds. */
  predicate Owned(s: State, a: Action) {
    (a.Unwatch? ==> At(s.direct, a.k) > 0) && (a.BeginRelease? ==> At(s.held, a.p) > 0)
  }

  /** The step stores a freshly built group over one that another call stored meanwhile. */
  predicate StoresOver(s: State, a: Action) {
    a.EndRelated? && a.id in s.tasks && s.tasks[a.id].Building? && s.tasks[a.id].p in s.groups
  }

  ghost predicate AllOwned(states: seq<State>, actions: seq<Action>) {
    forall i :: 0 <= i < |actions| && i < |states| ==> Owned(states[i], actions[i])
  }

  ghost predicate NeverStoresOver(states: seq<State>, actions: seq<Action>) {
    forall i :: 0 <= i < |actions| && i < |states| ==> !StoresOver(states[i], actions[i])
  }

  // ---------------------------------------------------------------------------
  // The books
  // ---------------------------------------------------------------------------

  /** How many references to `k` a task accounts for right now. */
  function Weight(cfg: Config, t: Task, k: Key): nat {
    var ch := Children(cfg.graph, t.p);
    var own := if k == t.p then 1 else 0;
    match t
    case Entering(_) => own
    case Adding(_, done) => own + (if done <= |ch| then Mult(k, ch[..done]) else 0)
    case Building(_, done) => own + (if done <= |ch| then Mult(k, ch[..done]) else 0)
    case Releasing(_) => Mult(k, ch)
    case Dropping(_, done) => if done <= |ch| then Mult(k, ch[done..]) else 0
  }

  function TaskWeights(cfg: Config, tasks: map<nat, Task>, k: Key): map<nat, nat> {
    map i | i in tasks :: Weight(cfg, tasks[i], k)
  }

  /** References to `k` that one hold on the group of `p` stands for. */
  function PerHold(cfg: Config, p: Key, k: Key): nat {
    (if k == p then 1 else 0) + Mult(k, Children(cfg.graph, p))
  }

  function Times(x: nat, y: nat): nat { x * y }

  function HeldWeights(cfg: Config, held: map<Key, nat>, k: Key): map<Key, nat> {
    map p | p in held :: Times(held[p], PerHold(cfg, p, k))
  }

  /** Whether a task stands for one unit of the group of `p`. */
  function Counted(t: Task, p: Key): nat { if t.p == p && (t.Adding? || t.Releasing?) then 1 else 0 }

  function CountedWeights(tasks: map<nat, Task>, p: Key): map<nat, nat> {
    map i | i in tasks :: Counted(tasks[i], p)
  }

  function RefWeights(cfg: Config, refs: map<Key, nat>, t: Target): map<Key, nat> {
    map k | k in refs :: if RemovedTarget(k, cfg.short) == Some(t) then refs[k] else 0
  }

  ghost predicate RefsAgree(cfg: Config, s: State, k: Key) {
    At(s.refs, k) == At(s.direct, k) + Sum(HeldWeights(cfg, s.held, k)) + Sum(TaskWeights(cfg, s.tasks, k))
  }

  ghost predicate GroupsAgree(s: State, p: Key) {
    At(s.groups, p) == At(s.held, p) + Sum(CountedWeights(s.tasks, p))
  }

  ghost predicate RefsBalance(cfg: Config, s: State) { forall k :: RefsAgree(cfg, s, k) }

  ghost predicate GroupsBalance(s: State) { forall p :: GroupsAgree(s, p) }

  ghost predicate CountsAgree(cfg: Config, s: State, t: Target) {
    At(s.counts, t) == Sum(RefWeights(cfg, s.refs, t)) + s.inFlight[t] + s.leaked[t]
  }

  ghost predicate CountsBalance(cfg: Config, s: State) { forall t :: CountsAgree(cfg, s, t) }

  ghost predicate Positive<K>(m: map<K, nat>) { forall k :: k in m ==> m[k] > 0 }

  /** What every step keeps, whoever calls what. */
  ghost predicate FilterInv(cfg: Config, s: State) {
    Positive(s.refs) && Positive(s.groups) && Positive(s.counts) && CountsBalance(cfg, s)
  }

  /** What steps that are owned and store over nothing keep. */
  ghost predicate HoldsInv(cfg: Config, s: State) {
    Positive(s.refs) && Positive(s.groups) && RefsBalance(cfg, s) && GroupsBalance(s)
  }

  // ---------------------------------------------------------------------------
  // How the sums move
  // ---------------------------------------------------------------------------

  lemma TaskSet(cfg: Config, tasks: map<nat, Task>, id: nat, t: Task, k: Key)
    ensures Sum(TaskWeights(cfg, tasks[id := t], k))
            == Sum(TaskWeights(cfg, tasks, k)) - (if id in tasks then Weight(cfg, tasks[id], k) else 0)
               + Weight(cfg, t, k)
    ensures id in tasks ==> Weight(cfg, tasks[id], k) <= Sum(TaskWeights(cfg, tasks, k))
  {
    assert TaskWeights(cfg, tasks[id := t], k) == TaskWeights(cfg, tasks, k)[id := Weight(cfg, t, k)];
    SumUpdate(TaskWeights(cfg, tasks, k), id, Weight(cfg, t, k));
  }

  lemma TaskGone(cfg: Config, tasks: map<nat, Task>, id: nat, k: Key)
    requires id in tasks
    ensures Sum(TaskWeights(cfg, tasks - {id}, k)) == Sum(TaskWeights(cfg, tasks, k)) - Weight(cfg, tasks[id], k)
  {
    assert TaskWeights(cfg, tasks - {id}, k) == TaskWeights(cfg, tasks, k) - {id};
    SumRemove(TaskWeights(cfg, tasks, k), id);
  }

  lemma CountedNew(tasks: map<nat, Task>, id: nat, t: Task, p: Key)
    requires id !in tasks
    ensures Sum(CountedWeights(tasks[id := t], p)) == Sum(CountedWeights(tasks, p)) + Counted(t, p)
  {
    assert CountedWeights(tasks[id := t], p) == CountedWeights(tasks, p)[id := Counted(t, p)];
    SumUpdate(CountedWeights(tasks, p), id, Counted(t, p));
  }

  lemma CountedMove(tasks: map<nat, Task>, id: nat, t: Task, p: Key)
    requires id in tasks
    ensures Sum(CountedWeights(tasks[id := t], p))
            == Sum(CountedWeights(tasks, p)) - Counted(tasks[id], p) + Counted(t, p)
  {
    assert CountedWeights(tasks[id := t], p) == CountedWeights(tasks, p)[id := Counted(t, p)];
    SumUpdate(CountedWeights(tasks, p), id, Counted(t, p));
  }

  lemma CountedEnd(tasks: map<nat, Task>, id: nat, p: Key)
    requires id in tasks
    ensures Sum(CountedWeights(tasks - {id}, p)) == Sum(CountedWeights(tasks, p)) - Counted(tasks[id], p)
    ensures Counted(tasks[id], p) <= Sum(CountedWeights(tasks, p))
  {
    assert CountedWeights(tasks - {id}, p) == CountedWeights(tasks, p) - {id};
    SumRemove(CountedWeights(tasks, p), id);
  }

  lemma TimesStep(n: nat, m: nat)
    ensures Times(n + 1, m) == Times(n, m) + m && Times(0, m) == 0
  {
  }

  lemma HeldRaised(cfg: Config, held: map<Key, nat>, p: Key, k: Key)
    ensures Sum(HeldWeights(cfg, Raise(held, p), k)) == Sum(HeldWeights(cfg, held, k)) + PerHold(cfg, p, k)
  {
    var w := Times(At(held, p) + 1, PerHold(cfg, p, k));
    assert HeldWeights(cfg, Raise(held, p), k) == HeldWeights(cfg, held, k)[p := w];
    SumUpdate(HeldWeights(cfg, held, k), p, w);
    TimesStep(At(held, p), PerHold(cfg, p, k));
  }

  lemma HeldLowered(cfg: Config, held: map<Key, nat>, p: Key, k: Key)
    requires At(held, p) > 0
    ensures Sum(HeldWeights(cfg, Lower(held, p), k)) == Sum(HeldWeights(cfg, held, k)) - PerHold(cfg, p, k)
    ensures PerHold(cfg, p, k) <= Sum(HeldWeights(cfg, held, k))
  {
    TimesStep(held[p] - 1, PerHold(cfg, p, k));
    TimesStep(0, PerHold(cfg, p, k));
    if held[p] > 1 {
      var w := Times(held[p] - 1, PerHold(cfg, p, k));
      assert HeldWeights(cfg, Lower(held, p), k) == HeldWeights(cfg, held, k)[p := w];
      SumUpdate(HeldWeights(cfg, held, k), p, w);
    } else {
      assert HeldWeights(cfg, Lower(held, p), k) == HeldWeights(cfg, held, k) - {p};
      SumRemove(HeldWeights(cfg, held, k), p);
    }
  }

  lemma RefsRaised(cfg: Config, refs: map<Key, nat>, k: Key, t: Target)
    ensures Sum(RefWeights(cfg, Raise(refs, k), t))
            == Sum(RefWeights(cfg, refs, t)) + (if RemovedTarget(k, cfg.short) == Some(t) then 1 else 0)
  {
    var w := if RemovedTarget(k, cfg.short) == Some(t) then At(refs, k) + 1 else 0;
    assert RefWeights(cfg, Raise(refs, k), t) == RefWeights(cfg, refs, t)[k := w];
    SumUpdate(RefWeights(cfg, refs, t), k, w);
  }

  lemma RefsLowered(cfg: Config, refs: map<Key, nat>, k: Key, t: Target)
    requires At(refs, k) > 0
    ensures Sum(RefWeights(cfg, Lower(refs, k), t))
            == Sum(RefWeights(cfg, refs, t)) - (if RemovedTarget(k, cfg.short) == Some(t) then 1 else 0)
  {
    var w := if RemovedTarget(k, cfg.short) == Some(t) then refs[k] - 1 else 0;
    if refs[k] > 1 {
      assert RefWeights(cfg, Lower(refs, k), t) == RefWeights(cfg, refs, t)[k := w];
      SumUpdate(RefWeights(cfg, refs, t), k, w);
    } else {
      assert RefWeights(cfg, Lower(refs, k), t) == RefWeights(cfg, refs, t) - {k};
      SumRemove(RefWeights(cfg, refs, t), k);
    }
  }

  // ---------------------------------------------------------------------------
  // Every step keeps the books
  // ---------------------------------------------------------------------------

  lemma AddRefCounts(cfg: Config, s: State, k: Key, t: Target, x: Target)
    requires CountsAgree(cfg, s, x)
    requires RemovedTarget(k, cfg.short) == None || RemovedTarget(k, cfg.short) == Some(t)
    ensures CountsAgree(cfg, AddRef(cfg, s, k, t), x)
  {
    hide RefWeights, Sum, RemovedTarget;
    RefsRaised(cfg, s.refs, k, x);
  }

  lemma DropRefCounts(cfg: Config, s: State, k: Key, x: Target)
    requires CountsAgree(cfg, s, x) && Positive(s.refs)
    ensures CountsAgree(cfg, DropRef(cfg, s, k), x)
  {
    hide RefWeights, Sum, RemovedTarget;
    if k in s.refs {
      RefsLowered(cfg, s.refs, k, x);
    }
  }

  /** A key that some hold or task accounts for is watched. */
  lemma AccountedIsWatched(cfg: Config, s: State, k: Key)
    requires HoldsInv(cfg, s)
    ensures At(s.direct, k) > 0 ==> k in s.refs
    ensures forall id :: id in s.tasks && Weight(cfg, s.tasks[id], k) > 0 ==> k in s.refs
    ensures At(s.held, k) > 0 ==> k in s.refs
  {
    hide Sum, HeldWeights, TaskWeights, RefWeights, CountedWeights, Weight;
    assert RefsAgree(cfg, s, k);
    forall id | id in s.tasks && Weight(cfg, s.tasks[id], k) > 0 ensures k in s.refs {
      TaskSet(cfg, s.tasks, id, s.tasks[id], k);
    }
    if At(s.held, k) > 0 {
      HeldLowered(cfg, s.held, k, k);
    }
  }

  lemma EnteringWeight(cfg: Config, p: Key, k: Key)
    ensures Weight(cfg, Entering(p), k) == if k == p then 1 else 0
  {
  }

  lemma LookupWeight(cfg: Config, p: Key, k: Key)
    ensures Weight(cfg, Adding(p, 0), k) == Weight(cfg, Building(p, 0), k) == Weight(cfg, Entering(p), k)
  {
    assert Children(cfg.graph, p)[..0] == [];
  }

  lemma WatchWeight(cfg: Config, t: Task, t': Task, k: Key)
    requires (t.Adding? && t' == Adding(t.p, t.done + 1)) || (t.Building? && t' == Building(t.p, t.done + 1))
    requires t.done < |Children(cfg.graph, t.p)|
    ensures Weight(cfg, t', k) == Weight(cfg, t, k) + (if k == Children(cfg.graph, t.p)[t.done] then 1 else 0)
  {
    hide Children, Mult;
    MultSplit(k, Children(cfg.graph, t.p), t.done);
  }

  lemma DoneWeight(cfg: Config, t: Task, k: Key)
    requires (t.Adding? || t.Building?) && t.done == |Children(cfg.graph, t.p)|
    ensures Weight(cfg, t, k) == PerHold(cfg, t.p, k)
  {
    var ch := Children(cfg.graph, t.p);
    assert ch[..|ch|] == ch;
  }

  lemma ReleasingWeight(cfg: Config, p: Key, k: Key)
    ensures Weight(cfg, Releasing(p), k) == Weight(cfg, Dropping(p, 0), k)
            == PerHold(cfg, p, k) - (if k == p then 1 else 0)
  {
    var ch := Children(cfg.graph, p);
    assert ch[0..] == ch;
  }

  lemma DropWeight(cfg: Config, p: Key, n: nat, k: Key)
    requires n < |Children(cfg.graph, p)|
    ensures Weight(cfg, Dropping(p, n), k)
            == Weight(cfg, Dropping(p, n + 1), k) + (if k == Children(cfg.graph, p)[n] then 1 else 0)
  {
    MultSplit(k, Children(cfg.graph, p), n);
  }

  lemma DroppedWeight(cfg: Config, t: Task, k: Key)
    requires t.Dropping? && t.done == |Children(cfg.graph, t.p)|
    ensures Weight(cfg, t, k) == 0
  {
    var ch := Children(cfg.graph, t.p);
    assert ch[|ch|..] == [];
  }

  lemma WatchRefs(cfg: Config, s: State, c: Call, j: Key)
    requires RefsAgree(cfg, s, j)
    ensures RefsAgree(cfg, Apply(cfg, s, Watch(c)), j)
  {
    hide Sum, HeldWeights, TaskWeights, CountedWeights, Weight, PerHold, Children, RemovedTarget;
  }

  lemma WatchGroups(cfg: Config, s: State, c: Call, j: Key)
    requires GroupsAgree(s, j)
    ensures GroupsAgree(Apply(cfg, s, Watch(c)), j)
  {
    hide Sum, HeldWeights, TaskWeights, CountedWeights, Weight, PerHold, Children, RemovedTarget;
  }

  lemma UnwatchRefs(cfg: Config, s: State, k: Key, j: Key)
    requires RefsAgree(cfg, s, j) && Positive(s.refs) && k in s.refs && At(s.direct, k) > 0
    ensures RefsAgree(cfg, Apply(cfg, s, Unwatch(k)), j)
  {
    hide Sum, HeldWeights, TaskWeights, CountedWeights, Weight, PerHold, Children, RemovedTarget;
  }

  lemma UnwatchGroups(cfg: Config, s: State, k: Key, j: Key)
    requires GroupsAgree(s, j)
    ensures GroupsAgree(Apply(cfg, s, Unwatch(k)), j)
  {
    hide Sum, HeldWeights, TaskWeights, CountedWeights, Weight, PerHold, Children, RemovedTarget;
  }

  lemma BeginRelatedRefs(cfg: Config, s: State, id: nat, p: Key, j: Key)
    requires Enabled(cfg, s, BeginRelated(id, p)) && RefsAgree(cfg, s, j)
    ensures RefsAgree(cfg, Apply(cfg, s, BeginRelated(id, p)), j)
  {
    hide Sum, HeldWeights, TaskWeights, CountedWeights, Weight, PerHold, Children, RemovedTarget;
    TaskSet(cfg, s.tasks, id, Entering(p), j);
    EnteringWeight(cfg, p, j);
  }

  lemma BeginRelatedGroups(cfg: Config, s: State, id: nat, p: Key, j: Key)
    requires Enabled(cfg, s, BeginRelated(id, p)) && GroupsAgree(s, j)
    ensures GroupsAgree(Apply(cfg, s, BeginRelated(id, p)), j)
  {
    hide Sum, HeldWeights, TaskWeights, CountedWeights, Weight, PerHold, Children, RemovedTarget;
    CountedNew(s.tasks, id, Entering(p), j);
  }

  lemma LookupGroupRefs(cfg: Config, s: State, id: nat, j: Key)
    requires Enabled(cfg, s, LookupGroup(id)) && RefsAgree(cfg, s, j)
    ensures RefsAgree(cfg, Apply(cfg, s, LookupGroup(id)), j)
  {
    hide Sum, HeldWeights, TaskWeights, CountedWeights, Weight, PerHold, Children, RemovedTarget;
    var s' := Apply(cfg, s, LookupGroup(id));
    TaskSet(cfg, s.tasks, id, s'.tasks[id], j);
    LookupWeight(cfg, s.tasks[id].p, j);
  }

  lemma LookupGroupGroups(cfg: Config, s: State, id: nat, j: Key)
    requires Enabled(cfg, s, LookupGroup(id)) && GroupsAgree(s, j)
    ensures GroupsAgree(Apply(cfg, s, LookupGroup(id)), j)
  {
    hide Sum, HeldWeights, TaskWeights, CountedWeights, Weight, PerHold, Children, RemovedTarget;
    var s' := Apply(cfg, s, LookupGroup(id));
    CountedMove(s.tasks, id, s'.tasks[id], j);
  }

  lemma WatchChildRefs(cfg: Config, s: State, id: nat, j: Key)
    requires Enabled(cfg, s, WatchChild(id)) && RefsAgree(cfg, s, j)
    ensures RefsAgree(cfg, Apply(cfg, s, WatchChild(id)), j)
  {
    hide Sum, HeldWeights, TaskWeights, CountedWeights, Weight, PerHold, Children, RemovedTarget;
    var s' := Apply(cfg, s, WatchChild(id));
    TaskSet(cfg, s.tasks, id, s'.tasks[id], j);
    WatchWeight(cfg, s.tasks[id], s'.tasks[id], j);
  }

  lemma WatchChildGroups(cfg: Config, s: State, id: nat, j: Key)
    requires Enabled(cfg, s, WatchChild(id)) && GroupsAgree(s, j)
    ensures GroupsAgree(Apply(cfg, s, WatchChild(id)), j)
  {
    hide Sum, HeldWeights, TaskWeights, CountedWeights, Weight, PerHold, Children, RemovedTarget;
    var s' := Apply(cfg, s, WatchChild(id));
    CountedMove(s.tasks, id, s'.tasks[id], j);
  }

  lemma EndRelatedRefs(cfg: Config, s: State, id: nat, j: Key)
    requires Enabled(cfg, s, EndRelated(id)) && RefsAgree(cfg, s, j)
    ensures RefsAgree(cfg, Apply(cfg, s, EndRelated(id)), j)
  {
    hide Sum, HeldWeights, TaskWeights, CountedWeights, Weight, PerHold, Children, RemovedTarget;
    TaskGone(cfg, s.tasks, id, j);
    HeldRaised(cfg, s.held, s.tasks[id].p, j);
    DoneWeight(cfg, s.tasks[id], j);
  }

  lemma EndRelatedGroups(cfg: Config, s: State, id: nat, j: Key)
    requires Enabled(cfg, s, EndRelated(id)) && GroupsAgree(s, j) && !StoresOver(s, EndRelated(id))
    ensures GroupsAgree(Apply(cfg, s, EndRelated(id)), j)
  {
    hide Sum, HeldWeights, TaskWeights, CountedWeights, Weight, PerHold, Children, RemovedTarget;
    CountedEnd(s.tasks, id, j);
  }

  lemma BeginReleaseRefs(cfg: Config, s: State, id: nat, p: Key, j: Key)
    requires Enabled(cfg, s, BeginRelease(id, p)) && RefsAgree(cfg, s, j) && p in s.refs && At(s.held, p) > 0
    ensures RefsAgree(cfg, Apply(cfg, s, BeginRelease(id, p)), j)
  {
    hide Sum, HeldWeights, TaskWeights, CountedWeights, Weight, PerHold, Children, RemovedTarget;
    HeldLowered(cfg, s.held, p, j);
    TaskSet(cfg, s.tasks, id, Releasing(p), j);
    ReleasingWeight(cfg, p, j);
  }

  lemma BeginReleaseGroups(cfg: Config, s: State, id: nat, p: Key, j: Key)
    requires Enabled(cfg, s, BeginRelease(id, p)) && GroupsAgree(s, j) && At(s.held, p) > 0
    ensures GroupsAgree(Apply(cfg, s, BeginRelease(id, p)), j)
  {
    hide Sum, HeldWeights, TaskWeights, CountedWeights, Weight, PerHold, Children, RemovedTarget;
    CountedNew(s.tasks, id, Releasing(p), j);
  }

  lemma LowerGroupRefs(cfg: Config, s: State, id: nat, j: Key)
    requires Enabled(cfg, s, LowerGroup(id)) && RefsAgree(cfg, s, j) && s.tasks[id].p in s.groups
    ensures RefsAgree(cfg, Apply(cfg, s, LowerGroup(id)), j)
  {
    hide Sum, HeldWeights, TaskWeights, CountedWeights, Weight, PerHold, Children, RemovedTarget;
    TaskSet(cfg, s.tasks, id, Dropping(s.tasks[id].p, 0), j);
    ReleasingWeight(cfg, s.tasks[id].p, j);
  }

  lemma LowerGroupGroups(cfg: Config, s: State, id: nat, j: Key)
    requires Enabled(cfg, s, LowerGroup(id)) && GroupsAgree(s, j) && s.tasks[id].p in s.groups && Positive(s.groups)
    ensures GroupsAgree(Apply(cfg, s, LowerGroup(id)), j)
  {
    hide Sum, HeldWeights, TaskWeights, CountedWeights, Weight, PerHold, Children, RemovedTarget;
    CountedMove(s.tasks, id, Dropping(s.tasks[id].p, 0), j);
  }

  lemma UnwatchChildRefs(cfg: Config, s: State, id: nat, j: Key)
    requires Enabled(cfg, s, UnwatchChild(id)) && RefsAgree(cfg, s, j) && Positive(s.refs)
    requires Children(cfg.graph, s.tasks[id].p)[s.tasks[id].done] in s.refs
    ensures RefsAgree(cfg, Apply(cfg, s, UnwatchChild(id)), j)
  {
    hide Sum, HeldWeights, TaskWeights, CountedWeights, Weight, PerHold, Children, RemovedTarget;
    var p, n := s.tasks[id].p, s.tasks[id].done;
    TaskSet(cfg, s.tasks, id, Dropping(p, n + 1), j);
    DropWeight(cfg, p, n, j);
  }

  lemma UnwatchChildGroups(cfg: Config, s: State, id: nat, j: Key)
    requires Enabled(cfg, s, UnwatchChild(id)) && GroupsAgree(s, j)
    ensures GroupsAgree(Apply(cfg, s, UnwatchChild(id)), j)
  {
    hide Sum, HeldWeights, TaskWeights, CountedWeights, Weight, PerHold, Children, RemovedTarget;
    CountedMove(s.tasks, id, Dropping(s.tasks[id].p, s.tasks[id].done + 1), j);
  }

  lemma EndReleaseRefs(cfg: Config, s: State, id: nat, j: Key)
    requires Enabled(cfg, s, EndRelease(id)) && RefsAgree(cfg, s, j)
    ensures RefsAgree(cfg, Apply(cfg, s, EndRelease(id)), j)
  {
    hide Sum, HeldWeights, TaskWeights, CountedWeights, Weight, PerHold, Children, RemovedTarget;
    TaskGone(cfg, s.tasks, id, j);
    DroppedWeight(cfg, s.tasks[id], j);
  }

  lemma EndReleaseGroups(cfg: Config, s: State, id: nat, j: Key)
    requires Enabled(cfg, s, EndRelease(id)) && GroupsAgree(s, j)
    ensures GroupsAgree(Apply(cfg, s, EndRelease(id)), j)
  {
    hide Sum, HeldWeights, TaskWeights, CountedWeights, Weight, PerHold, Children, RemovedTarget;
    CountedEnd(s.tasks, id, j);
  }

  /** What makes the counting down of a step safe: its key is watched, its group is there. */
  lemma StepIsBacked(cfg: Config, s: State, a: Action)
    requires HoldsInv(cfg, s) && Enabled(cfg, s, a) && Owned(s, a)
    ensures EffectOf(cfg, s, a).Drops? ==> EffectOf(cfg, s, a).k in s.refs
    ensures a.LowerGroup? ==> s.tasks[a.id].p in s.groups
  {
    hide Sum, HeldWeights, TaskWeights, CountedWeights, Weight, PerHold, Children, RefsBalance;
    match a
    case Unwatch(k) => AccountedIsWatched(cfg, s, k);
    case BeginRelease(_, p) => AccountedIsWatched(cfg, s, p);
    case UnwatchChild(id) =>
      var p, n := s.tasks[id].p, s.tasks[id].done;
      DropWeight(cfg, p, n, Children(cfg.graph, p)[n]);
      AccountedIsWatched(cfg, s, Children(cfg.graph, p)[n]);
    case LowerGroup(id) =>
      CountedEnd(s.tasks, id, s.tasks[id].p);
      assert GroupsAgree(s, s.tasks[id].p);
    case _ =>
  }

  lemma BalanceKept(cfg: Config, s: State, a: Action)
    requires HoldsInv(cfg, s) && Enabled(cfg, s, a) && Owned(s, a) && !StoresOver(s, a)
    ensures RefsBalance(cfg, Apply(cfg, s, a)) && GroupsBalance(Apply(cfg, s, a))
  {
    hide RefsAgree, GroupsAgree, Positive, Children, Apply;
    StepIsBacked(cfg, s, a);
    var s' := Apply(cfg, s, a);
    forall j ensures RefsAgree(cfg, s', j) && GroupsAgree(s', j) {
      match a
      case Watch(c) => WatchRefs(cfg, s, c, j); WatchGroups(cfg, s, c, j);
      case Unwatch(k) => UnwatchRefs(cfg, s, k, j); UnwatchGroups(cfg, s, k, j);
      case FinishRemoval(t) => RemovalBalance(cfg, s, t, j);
      case BeginRelated(id, p) => BeginRelatedRefs(cfg, s, id, p, j); BeginRelatedGroups(cfg, s, id, p, j);
      case LookupGroup(id) => LookupGroupRefs(cfg, s, id, j); LookupGroupGroups(cfg, s, id, j);
      case WatchChild(id) => WatchChildRefs(cfg, s, id, j); WatchChildGroups(cfg, s, id, j);
      case EndRelated(id) => EndRelatedRefs(cfg, s, id, j); EndRelatedGroups(cfg, s, id, j);
      case BeginRelease(id, p) => BeginReleaseRefs(cfg, s, id, p, j); BeginReleaseGroups(cfg, s, id, p, j);
      case LowerGroup(id) => LowerGroupRefs(cfg, s, id, j); LowerGroupGroups(cfg, s, id, j);
      case UnwatchChild(id) => UnwatchChildRefs(cfg, s, id, j); UnwatchChildGroups(cfg, s, id, j);
      case EndRelease(id) => EndReleaseRefs(cfg, s, id, j); EndReleaseGroups(cfg, s, id, j);
    }
  }

  lemma RemovalBalance(cfg: Config, s: State, t: Target, j: Key)
    requires RefsAgree(cfg, s, j) && GroupsAgree(s, j) && t in s.inFlight
    ensures var s' := Apply(cfg, s, FinishRemoval(t)); RefsAgree(cfg, s', j) && GroupsAgree(s', j)
  {
    hide Sum, HeldWeights, TaskWeights, CountedWeights;
  }

  lemma CountsFrame(cfg: Config, s: State, s': State, x: Target)
    requires CountsAgree(cfg, s, x) && s'.refs == s.refs && s'.counts == s.counts
    requires s'.inFlight == s.inFlight && s'.leaked == s.leaked
    ensures CountsAgree(cfg, s', x)
  {
  }

  lemma CountsKept(cfg: Config, s: State, a: Action, x: Target)
    requires CountsAgree(cfg, s, x) && Positive(s.refs) && Enabled(cfg, s, a)
    ensures CountsAgree(cfg, Apply(cfg, s, a), x)
  {
    hide CountsAgree, AddRef, DropRef, NextGroups, NextTasks, NextDirect, NextHeld, EffectOf, Enabled;
    var e := EffectOf(cfg, s, a);
    if a.FinishRemoval? {
      RemovalKeeps(cfg, s, a, x);
    } else if e.Adds? {
      EffectMatches(cfg, s, a);
      AddRefCounts(cfg, s, e.k, e.t, x);
    } else if e.Drops? {
      DropRefCounts(cfg, s, e.k, x);
    }
    CountsFrame(cfg, Touch(cfg, s, a), Apply(cfg, s, a), x);
  }

  lemma RemovalKeeps(cfg: Config, s: State, a: Action, x: Target)
    requires CountsAgree(cfg, s, x) && a.FinishRemoval? && Enabled(cfg, s, a)
    ensures CountsAgree(cfg, Touch(cfg, s, a), x)
  {
    hide Sum, RefWeights;
  }

  lemma MovesPositive<K>(m: map<K, nat>, k: K)
    requires Positive(m)
    ensures Positive(Raise(m, k)) && Positive(Lower(m, k))
  {
  }

  lemma OneIsPositive<K>(m: map<K, nat>, k: K)
    requires Positive(m)
    ensures Positive(m[k := 1])
  {
  }

  lemma TouchPositive(cfg: Config, s: State, a: Action)
    requires Positive(s.refs) && Positive(s.counts) && Enabled(cfg, s, a)
    ensures var t := Touch(cfg, s, a); Positive(t.refs) && Positive(t.counts)
  {
    hide Children, Positive, Raise, Lower, EffectOf, RemovedTarget;
    var e := EffectOf(cfg, s, a);
    if a.FinishRemoval? {
      MovesPositive(s.counts, a.t);
    } else if e.Adds? {
      MovesPositive(s.refs, e.k);
      MovesPositive(s.counts, e.t);
    } else if e.Drops? {
      MovesPositive(s.refs, e.k);
    }
  }

  lemma RefsPositive(cfg: Config, s: State, a: Action)
    requires Positive(s.refs) && Enabled(cfg, s, a)
    ensures Positive(Touch(cfg, s, a).refs)
  {
    hide Children, Positive, Raise, Lower, EffectOf, RemovedTarget;
    var e := EffectOf(cfg, s, a);
    if !a.FinishRemoval? && !e.NoEffect? {
      MovesPositive(s.refs, e.k);
    }
  }

  lemma GroupsPositive(cfg: Config, s: State, a: Action)
    requires Positive(s.groups) && Enabled(cfg, s, a)
    ensures Positive(Apply(cfg, s, a).groups)
  {
    hide Children, Positive, Raise, Lower, Touch;
    if a.LookupGroup? || a.LowerGroup? || a.EndRelated? {
      MovesPositive(s.groups, s.tasks[a.id].p);
      OneIsPositive(s.groups, s.tasks[a.id].p);
    }
  }

  lemma StepKeepsFilter(cfg: Config, s: State, a: Action)
    requires FilterInv(cfg, s) && Enabled(cfg, s, a)
    ensures FilterInv(cfg, Apply(cfg, s, a))
  {
    hide CountsAgree, Positive, Touch, Enabled, NextGroups, NextTasks;
    TouchPositive(cfg, s, a);
    GroupsPositive(cfg, s, a);
    forall x ensures CountsAgree(cfg, Apply(cfg, s, a), x) {
      CountsKept(cfg, s, a, x);
    }
  }

  lemma StepKeepsHolds(cfg: Config, s: State, a: Action)
    requires HoldsInv(cfg, s) && Enabled(cfg, s, a) && Owned(s, a) && !StoresOver(s, a)
    ensures HoldsInv(cfg, Apply(cfg, s, a))
  {
    hide RefsBalance, GroupsBalance, Positive, Touch, Enabled, NextGroups, NextTasks, Owned, StoresOver;
    RefsPositive(cfg, s, a);
    GroupsPositive(cfg, s, a);
    BalanceKept(cfg, s, a);
  }

  /** Over every run, whoever calls what, the filter's counters are accounted for. */
  lemma {:induction false} RunKeepsFilter(cfg: Config, states: seq<State>, actions: seq<Action>, i: nat)
    requires Run(cfg, states, actions) && i < |states|
    ensures FilterInv(cfg, states[i])
    decreases i
  {
    if i == 0 {
      InitiallyBalanced(cfg);
    } else {
      RunKeepsFilter(cfg, states, actions, i - 1);
      StepKeepsFilter(cfg, states[i - 1], actions[i - 1]);
    }
  }

  /** As long as clients release what they hold and no group is stored over another, so are all references. */
  lemma {:induction false} RunKeepsHolds(cfg: Config, states: seq<State>, actions: seq<Action>, i: nat)
    requires Run(cfg, states, actions) && i < |states|
    requires forall j :: 0 <= j < i ==> Owned(states[j], actions[j]) && !StoresOver(states[j], actions[j])
    ensures HoldsInv(cfg, states[i])
    decreases i
  {
    if i == 0 {
      InitiallyBalanced(cfg);
    } else {
      RunKeepsHolds(cfg, states, actions, i - 1);
      StepKeepsHolds(cfg, states[i - 1], actions[i - 1]);
    }
  }

  lemma InitiallyBalanced(cfg: Config)
    ensures FilterInv(cfg, INITIAL) && HoldsInv(cfg, INITIAL)
  {
    assert forall k :: HeldWeights(cfg, map[], k) == map[] && TaskWeights(cfg, map[], k) == map[];
    assert forall p :: CountedWeights(map[], p) == map[];
    assert forall t :: RefWeights(cfg, map[], t) == map[];
  }

  // ---------------------------------------------------------------------------
  // Main results
  // ---------------------------------------------------------------------------

  /** Filter.MatchesObject. */
  predicate MatchesObject(s: State, kind: string, name: string) {
    At(s.counts, WholeKind(kind)) > 0 || At(s.counts, Named(kind, name)) > 0
  }

  /** Some watch is on this object by its name, or on its kind by a label or a field. */
  ghost predicate Covered(cfg: Config, s: State, kind: string, name: string) {
    exists k :: k in s.refs && cfg.short(k.gvk.kind) == kind && Proper(k) && (k.name == "" || k.name == name)
  }

  /** A removal of this counter is still to come, or never will. */
  predicate Owed(s: State, t: Target) { s.inFlight[t] > 0 || s.leaked[t] > 0 }

  /**
   * At every lock-section boundary of every run of any calls: each filter counter is the references of
   * the watches it stands for, plus the removals still in flight, plus one per watch ever started without
   * a name; no counter is stored as zero. So the filter shows an object exactly when a watch covers it or
   * such a removal is owed, and once none is, exactly when a watch covers it.
   */
  lemma FilterAgrees(cfg: Config, states: seq<State>, actions: seq<Action>, i: nat)
    requires Run(cfg, states, actions) && i < |states|
    ensures var s := states[i];
            && (forall t :: At(s.counts, t) == Sum(RefWeights(cfg, s.refs, t)) + s.inFlight[t] + s.leaked[t])
            && Positive(s.counts) && Positive(s.refs)
            && (forall kind, name :: MatchesObject(s, kind, name) <==>
                  Covered(cfg, s, kind, name) || Owed(s, WholeKind(kind)) || Owed(s, Named(kind, name)))
            && (s.inFlight == multiset{} && s.leaked == multiset{} ==>
                  forall kind, name :: MatchesObject(s, kind, name) <==> Covered(cfg, s, kind, name))
  {
    hide Sum, RefWeights, Run, RemovedTarget, Covered;
    RunKeepsFilter(cfg, states, actions, i);
    var s := states[i];
    forall t ensures At(s.counts, t) == Sum(RefWeights(cfg, s.refs, t)) + s.inFlight[t] + s.leaked[t] {
      assert CountsAgree(cfg, s, t);
    }
    forall kind, name
      ensures MatchesObject(s, kind, name) <==>
                Covered(cfg, s, kind, name) || Owed(s, WholeKind(kind)) || Owed(s, Named(kind, name))
    {
      CountedIffWatched(cfg, s, WholeKind(kind));
      CountedIffWatched(cfg, s, Named(kind, name));
      CoveredIffTargeted(cfg, s, kind, name);
    }
  }

  lemma CoveredIffTargeted(cfg: Config, s: State, kind: string, name: string)
    ensures Covered(cfg, s, kind, name) <==>
            || (exists k :: k in s.refs && RemovedTarget(k, cfg.short) == Some(WholeKind(kind)))
            || (exists k :: k in s.refs && RemovedTarget(k, cfg.short) == Some(Named(kind, name)))
  {
    if k :| k in s.refs && cfg.short(k.gvk.kind) == kind && Proper(k) && (k.name == "" || k.name == name) {
      assert RemovedTarget(k, cfg.short) in {Some(WholeKind(kind)), Some(Named(kind, name))};
    }
  }

  lemma CountedIffWatched(cfg: Config, s: State, t: Target)
    requires CountsAgree(cfg, s, t) && Positive(s.refs)
    ensures At(s.counts, t) > 0 <==> (exists k :: k in s.refs && RemovedTarget(k, cfg.short) == Some(t)) || Owed(s, t)
  {
    hide Sum, RemovedTarget;
    var w := RefWeights(cfg, s.refs, t);
    if k :| k in s.refs && RemovedTarget(k, cfg.short) == Some(t) {
      SumPick(w, k);
    } else {
      SumOfZeros(w);
    }
  }

  /** What was leaked stays: the filter never loses an increment of a watch that names nothing. */
  lemma LeaksOnlyGrow(cfg: Config, s: State, a: Action)
    requires Enabled(cfg, s, a)
    ensures s.leaked <= Apply(cfg, s, a).leaked
    ensures Apply(cfg, s, a).leaked == s.leaked
       <==> !(EffectOf(cfg, s, a).Adds? && RemovedTarget(EffectOf(cfg, s, a).k, cfg.short).None?)
  {
    hide RemovedTarget, Children;
    var e := EffectOf(cfg, s, a);
    if e.Adds? {
      assert (s.leaked + multiset{e.t})[e.t] == s.leaked[e.t] + 1;
    }
  }

  /** Watching and unwatching leaves the counter raised iff the call named nothing, from any state. */
  lemma WatchUnwatchLeaksIff(cfg: Config, s: State, c: Call)
    requires Positive(s.refs)
    ensures var s1 := Apply(cfg, s, Watch(c));
            var s2 := Apply(cfg, s1, Unwatch(KeyOf(c)));
            var t := AddedTarget(c, cfg.short);
            && s2.refs == s.refs && At(s2.counts, t) == At(s.counts, t) + 1
            && s2.inFlight == s.inFlight + Removals(cfg, KeyOf(c))
            && (At(s2.counts, t) - s2.inFlight[t] > At(s.counts, t) - s.inFlight[t]
                <==> (c.ByName? && c.name == "") || (c.ByLabel? && c.selector == ""))
  {
    UnwatchMatchesWatchIff(c, cfg.short);
    hide KeyOf, AddedTarget, RemovedTarget, NextDirect, NextTasks, NextGroups, NextHeld, Lost;
    var k := KeyOf(c);
    RaiseThenLower(s.refs, k);
    hide Raise, Lower;
    RaisedAt(s.counts, AddedTarget(c, cfg.short));
  }

  lemma RaiseThenLower<K>(m: map<K, nat>, k: K)
    requires Positive(m)
    ensures k in Raise(m, k) && Lower(Raise(m, k), k) == m
  {
  }

  lemma RaisedAt<K>(m: map<K, nat>, k: K)
    ensures At(Raise(m, k), k) == At(m, k) + 1
  {
  }

  lemma {:induction false} SumOfZeros<K>(m: map<K, nat>)
    requires forall k :: k in m ==> m[k] == 0
    ensures Sum(m) == 0
    decreases |m|
  {
    if m != map[] {
      var k :| k in m;
      SumPick(m, k);
      SumOfZeros(m - {k});
    }
  }

  /**
   * Whenever no call is half done, each watch is referenced once per direct hold, plus, for every related
   * group, the group's count times how often the key occurs in it.
   */
  lemma RefsAreHolds(cfg: Config, states: seq<State>, actions: seq<Action>, i: nat, k: Key)
    requires Run(cfg, states, actions) && AllOwned(states, actions) && NeverStoresOver(states, actions)
    requires i < |states| && states[i].tasks == map[]
    ensures var s := states[i];
            && (forall p :: At(s.groups, p) == At(s.held, p))
            && At(s.refs, k) == At(s.direct, k) + Sum(HeldWeights(cfg, s.groups, k))
  {
    RunKeepsHolds(cfg, states, actions, i);
    AtRest(cfg, states[i]);
    SameHeldSum(cfg, states[i].groups, states[i].held, k);
  }

  lemma SameHeldSum(cfg: Config, m: map<Key, nat>, n: map<Key, nat>, k: Key)
    requires forall p :: At(m, p) == At(n, p)
    ensures Sum(HeldWeights(cfg, m, k)) == Sum(HeldWeights(cfg, n, k))
  {
    hide Sum, PerHold;
    forall p ensures At(HeldWeights(cfg, m, k), p) == At(HeldWeights(cfg, n, k), p) {
      assert At(m, p) == At(n, p);
      TimesStep(0, PerHold(cfg, p, k));
    }
    SumSame(HeldWeights(cfg, m, k), HeldWeights(cfg, n, k));
  }

  lemma AtRest(cfg: Config, s: State)
    requires HoldsInv(cfg, s) && s.tasks == map[]
    ensures forall p :: At(s.groups, p) == At(s.held, p)
    ensures forall k :: At(s.refs, k) == At(s.direct, k) + Sum(HeldWeights(cfg, s.held, k))
  {
    forall p ensures At(s.groups, p) == At(s.held, p) {
      assert GroupsAgree(s, p) && CountedWeights(s.tasks, p) == map[];
    }
    forall k ensures At(s.refs, k) == At(s.direct, k) + Sum(HeldWeights(cfg, s.held, k)) {
      assert RefsAgree(cfg, s, k) && TaskWeights(cfg, s.tasks, k) == map[];
    }
  }

  /** Tables that agree entry by entry, counting a missing entry as zero, have the same sum. */
  lemma {:induction false} SumSame<K>(m: map<K, nat>, n: map<K, nat>)
    requires forall k :: At(m, k) == At(n, k)
    ensures Sum(m) == Sum(n)
    decreases |m|
  {
    if m == map[] {
      assert forall k :: k in n ==> n[k] == At(m, k);
      SumOfZeros(n);
    } else {
      var k :| k in m;
      SumRemove(m, k);
      SumRemove(n, k);
      forall x ensures At(m - {k}, x) == At(n - {k}, x) {
        assert At(m, x) == At(n, x);
      }
      SumSame(m - {k}, n - {k});
    }
  }

  /**
   * Balanced calls restore everything: two moments of a run, with no call half done, at which the clients
   * hold the same, have the same watches and groups; with nothing in flight they have the same filter iff
   * no watch without a name was started between them.
   */
  lemma BalancedCallsRestore(cfg: Config, states: seq<State>, actions: seq<Action>, i: nat, j: nat)
    requires Run(cfg, states, actions) && AllOwned(states, actions) && NeverStoresOver(states, actions)
    requires i < |states| && j < |states| && states[i].tasks == map[] && states[j].tasks == map[]
    requires states[i].direct == states[j].direct && states[i].held == states[j].held
    ensures states[i].refs == states[j].refs && states[i].groups == states[j].groups
    ensures states[i].inFlight == states[j].inFlight ==>
              (states[i].counts == states[j].counts <==> states[i].leaked == states[j].leaked)
  {
    hide Sum, RefWeights, HeldWeights, Enabled, Apply, Owned, StoresOver;
    RunKeepsHolds(cfg, states, actions, i);
    RunKeepsHolds(cfg, states, actions, j);
    RunKeepsFilter(cfg, states, actions, i);
    RunKeepsFilter(cfg, states, actions, j);
    var s, t := states[i], states[j];
    AtRest(cfg, s);
    AtRest(cfg, t);
    SameTable(s.refs, t.refs);
    SameTable(s.groups, t.groups);
    if s.inFlight == t.inFlight {
      SameCounts(cfg, s, t);
    }
  }

  lemma SameCounts(cfg: Config, s: State, t: State)
    requires FilterInv(cfg, s) && FilterInv(cfg, t) && s.refs == t.refs && s.inFlight == t.inFlight
    ensures s.counts == t.counts <==> s.leaked == t.leaked
  {
    hide Sum, RefWeights;
    forall x ensures At(s.counts, x) - s.leaked[x] == At(t.counts, x) - t.leaked[x] {
      assert CountsAgree(cfg, s, x) && CountsAgree(cfg, t, x);
    }
    if s.leaked == t.leaked {
      SameTable(s.counts, t.counts);
    }
    assert (forall x :: s.leaked[x] == t.leaked[x]) ==> s.leaked == t.leaked;
  }

  lemma SameTable<K>(m: map<K, nat>, n: map<K, nat>)
    requires Positive(m) && Positive(n) && forall k :: At(m, k) == At(n, k)
    ensures m == n
  {
    assert forall k :: k in m <==> At(m, k) > 0;
    assert forall k :: k in n <==> At(n, k) > 0;
  }

  // ---------------------------------------------------------------------------
  // Where it fails
  // ---------------------------------------------------------------------------

  /** Storing a freshly built group keeps the count right exactly when nobody stored one meanwhile. */
  lemma StoringGroupKeepsCountIff(cfg: Config, s: State, id: nat)
    requires Enabled(cfg, s, EndRelated(id)) && s.tasks[id].Building? && Positive(s.groups)
    requires GroupsAgree(s, s.tasks[id].p)
    ensures GroupsAgree(Apply(cfg, s, EndRelated(id)), s.tasks[id].p) <==> s.tasks[id].p !in s.groups
  {
    hide Sum, CountedWeights, Children;
    CountedEnd(s.tasks, id, s.tasks[id].p);
  }

  /** Of all runs in which clients release what they hold, the books are right throughout exactly in these. */
  lemma BooksHoldIff(cfg: Config, states: seq<State>, actions: seq<Action>)
    requires Run(cfg, states, actions) && AllOwned(states, actions)
    ensures (forall i :: 0 <= i < |states| ==> RefsBalance(cfg, states[i]) && GroupsBalance(states[i]))
       <==> NeverStoresOver(states, actions)
  {
    hide RefsBalance, Apply, Enabled, Owned;
    if NeverStoresOver(states, actions) {
      forall i | 0 <= i < |states| ensures RefsBalance(cfg, states[i]) && GroupsBalance(states[i]) {
        RunKeepsHolds(cfg, states, actions, i);
      }
    } else {
      var i :| 0 <= i < |actions| && StoresOver(states[i], actions[i]);
      RunKeepsFilter(cfg, states, actions, i);
      StoredOverIsWrong(cfg, states[i], actions[i]);
      assert states[i + 1] == Apply(cfg, states[i], actions[i]);
    }
  }

  lemma StoredOverIsWrong(cfg: Config, s: State, a: Action)
    requires Enabled(cfg, s, a) && StoresOver(s, a) && Positive(s.groups)
    ensures !(GroupsBalance(s) && GroupsBalance(Apply(cfg, s, a)))
  {
    hide GroupsAgree, Apply, Positive;
    if GroupsBalance(s) {
      assert GroupsAgree(s, s.tasks[a.id].p);
      StoringGroupKeepsCountIff(cfg, s, a.id);
    }
  }
}
