// Runs of the writer protocol that show why its conditions are there.
module WriterRuns {
  import opened Text
  import opened WriterProtocol

  ghost predicate Reaches(states: seq<State>, actions: seq<Action>, s: State) {
    Run(states, actions) && states[|states| - 1] == s
  }

  lemma Extend(states: seq<State>, actions: seq<Action>, s: State, a: Action, t: State)
    returns (states': seq<State>, actions': seq<Action>)
    requires Reaches(states, actions, s) && Enabled(s, a) && Apply(s, a) == t
    ensures Reaches(states', actions', t) && states' == states + [t] && actions' == actions + [a]
    ensures LinksLater(states, actions) && (a.Link? ==> a.p.start < s.now) ==> LinksLater(states', actions')
  {
    hide Enabled, Apply;
    states', actions' := states + [t], actions + [a];
  }

  lemma SpawnTwo(p: Process, q: Process) returns (states: seq<State>, actions: seq<Action>)
    requires p == Process(0, 1, 0) && q == Process(0, 2, 0)
    ensures Reaches(states, actions, State(0, 0, {p, q}, map[p := Starting, q := Starting], 0, None, 0, [], Idle))
    ensures LinksLater(states, actions) && forall i :: 0 <= i < |actions| ==> !actions[i].Clear?
  {
    states, actions := [INITIAL], [];
    states, actions := Extend(states, actions, INITIAL, Issue, INITIAL.(pending := 1));
    states, actions := Extend(states, actions, INITIAL.(pending := 1), Issue, INITIAL.(pending := 2));
    var s := State(0, 0, {p}, map[p := Starting], 1, None, 0, [], Idle);
    states, actions := Extend(states, actions, INITIAL.(pending := 2), Fork(p), s);
    var t := State(0, 0, {p, q}, map[p := Starting, q := Starting], 0, None, 0, [], Idle);
    states, actions := Extend(states, actions, s, Fork(q), t);
  }

  lemma ProbeHolder(p: Process, q: Process) returns (states: seq<State>, actions: seq<Action>)
    requires p == Process(0, 1, 0) && q == Process(0, 2, 0)
    ensures Reaches(states, actions,
                    State(0, 1, {p, q}, map[p := Published, q := Starting], 0, Some(p), 1, [], Reading(Some(p), false)))
    ensures LinksLater(states, actions) && forall i :: 0 <= i < |actions| ==> !actions[i].Clear?
  {
    states, actions := SpawnTwo(p, q);
    var s := State(0, 0, {p, q}, map[p := Starting, q := Starting], 0, None, 0, [], Idle);
    states, actions := Extend(states, actions, s, Tick, s.(now := 1));
    var t := State(0, 1, {p, q}, map[p := Published, q := Starting], 0, Some(p), 1, [], Idle);
    assert s.live[p := Published] == t.live;
    states, actions := Extend(states, actions, s.(now := 1), Link(p), t);
    assert q in t.live && t.live[q].Starting?;
    states, actions := Extend(states, actions, t, ReadMarker, t.(ctl := Reading(Some(p), false)));
  }

  /** The signal command compares start times but not boot ids: after a reboot it can hit a stranger. */
  lemma RebootMisdirectsSignal() returns (states: seq<State>, actions: seq<Action>)
    ensures Run(states, actions) && ClearsQuietly(states, actions) && LinksLater(states, actions)
    ensures var s := states[|states| - 1];
            SignalTarget(s).Some? && SignalTarget(s).value in s.live && s.live[SignalTarget(s).value] == Other
  {
    var p, q, other := Process(0, 1, 0), Process(0, 2, 0), Process(1, 1, 0);
    states, actions := ProbeHolder(p, q);
    var s := State(0, 1, {p, q}, map[p := Published, q := Starting], 0, Some(p), 1, [], Reading(Some(p), false));
    StatOf(s, p);
    states, actions := Extend(states, actions, s, ReadStat, s.(ctl := Seen(Some(p), true, false)));
    var t := State(1, 0, {p, q}, map[], 0, Some(p), 1, [], Seen(Some(p), true, false));
    states, actions := Extend(states, actions, s.(ctl := Seen(Some(p), true, false)), Reboot(0), t);
    var u := State(1, 0, {p, q, other}, map[other := Other], 0, Some(p), 1, [], Seen(Some(p), true, false));
    states, actions := Extend(states, actions, t, StartOther(other), u);
    StatOf(u, other);
  }

  lemma SpawnInTurn(k: Process, m: Process) returns (states: seq<State>, actions: seq<Action>)
    requires k == Process(0, 1, 0) && m == Process(0, 2, 1)
    ensures Reaches(states, actions, State(0, 1, {k, m}, map[k := Starting, m := Starting], 0, None, 0, [], Idle))
    ensures forall i :: 0 <= i < |actions| ==> !actions[i].Clear?
  {
    states, actions := [INITIAL], [];
    states, actions := Extend(states, actions, INITIAL, Issue, INITIAL.(pending := 1));
    states, actions := Extend(states, actions, INITIAL.(pending := 1), Issue, INITIAL.(pending := 2));
    var s := State(0, 0, {k}, map[k := Starting], 1, None, 0, [], Idle);
    states, actions := Extend(states, actions, INITIAL.(pending := 2), Fork(k), s);
    states, actions := Extend(states, actions, s, Tick, s.(now := 1));
    var t := State(0, 1, {k, m}, map[k := Starting, m := Starting], 0, None, 0, [], Idle);
    states, actions := Extend(states, actions, s.(now := 1), Fork(m), t);
  }

  /** The second of two spawns publishes in the tick it was started in. */
  lemma SecondLinks(k: Process, m: Process) returns (states: seq<State>, actions: seq<Action>)
    requires k == Process(0, 1, 0) && m == Process(0, 2, 1)
    ensures Reaches(states, actions,
                    State(0, 1, {k, m}, map[k := Starting, m := Published], 0, Some(m), 1, [], Idle))
    ensures !LinksLater(states, actions) && forall i :: 0 <= i < |actions| ==> !actions[i].Clear?
  {
    states, actions := SpawnInTurn(k, m);
    var n := |actions|;
    var t := State(0, 1, {k, m}, map[k := Starting, m := Starting], 0, None, 0, [], Idle);
    var u := t.(live := map[k := Starting, m := Published], marker := Some(m), linkedAt := 1);
    states, actions := Extend(states, actions, t, Link(m), u);
    assert actions[n] == Link(m) && states[n] == t;
  }

  /** A probe finds it running, and it leaves again. */
  lemma SecondLeaves(k: Process, m: Process) returns (states: seq<State>, actions: seq<Action>)
    requires k == Process(0, 1, 0) && m == Process(0, 2, 1)
    ensures Reaches(states, actions,
                    State(0, 1, {k, m}, map[k := Starting, m := Leaving], 0, None, 1, [], Seen(Some(m), true, false)))
    ensures !LinksLater(states, actions) && forall i :: 0 <= i < |actions| ==> !actions[i].Clear?
  {
    states, actions := SecondLinks(k, m);
    hide Run, LinksLater;
    var u := State(0, 1, {k, m}, map[k := Starting, m := Published], 0, Some(m), 1, [], Idle);
    assert u.live[k].Starting?;
    var v, w := u.(ctl := Reading(Some(m), false)), u.(ctl := Seen(Some(m), true, false));
    states, actions := StillLate(states, actions, u, ReadMarker, v);
    StatOf(v, m);
    states, actions := StillLate(states, actions, v, ReadStat, w);
    var s1 := w.(live := map[k := Starting, m := Writing(0)]);
    states, actions := StillLate(states, actions, w, Truncate(m), s1);
    var s2 := s1.(live := map[k := Starting, m := Leaving], marker := None);
    states, actions := StillLate(states, actions, s1, Drop(m), s2);
  }

  /** The tick matters too: without a reboot, a pid reused in the tick the probed writer was started in is hit. */
  lemma SameTickMisdirectsSignal() returns (states: seq<State>, actions: seq<Action>)
    ensures Run(states, actions) && ClearsQuietly(states, actions) && !LinksLater(states, actions)
    ensures var s := states[|states| - 1];
            && SignalTarget(s).Some? && s.ctl.marker.value.boot == s.boot
            && SignalTarget(s).value in s.live && s.live[SignalTarget(s).value] == Other
  {
    var k, m, x := Process(0, 1, 0), Process(0, 2, 1), Process(0, 1, 1);
    states, actions := SecondLeaves(k, m);
    hide LinksLater;
    var s2 := State(0, 1, {k, m}, map[k := Starting, m := Leaving], 0, None, 1, [], Seen(Some(m), true, false));
    var s3 := s2.(live := map[k := Published, m := Leaving], marker := Some(k));
    states, actions := StillLate(states, actions, s2, Link(k), s3);
    var s4 := s3.(live := map[m := Leaving]);
    assert s3.live - {k} == s4.live;
    states, actions := StillLate(states, actions, s3, Exit(k), s4);
    var s5 := s4.(used := {k, m, x}, live := map[m := Leaving, x := Other]);
    states, actions := StillLate(states, actions, s4, StartOther(x), s5);
    StatOf(s5, x);
  }

  /** A step of a run that already had a marker linked too early, and clears nothing. */
  lemma StillLate(states: seq<State>, actions: seq<Action>, s: State, a: Action, t: State)
    returns (states': seq<State>, actions': seq<Action>)
    requires Reaches(states, actions, s) && Enabled(s, a) && Apply(s, a) == t && !a.Clear?
    requires !LinksLater(states, actions) && forall i :: 0 <= i < |actions| ==> !actions[i].Clear?
    ensures Reaches(states', actions', t)
    ensures !LinksLater(states', actions') && forall i :: 0 <= i < |actions'| ==> !actions'[i].Clear?
  {
    hide Enabled, Apply;
    states', actions' := Extend(states, actions, s, a, t);
    var i :| 0 <= i < |actions| && i < |states| && actions[i].Link? && actions[i].p.start >= states[i].now;
    assert states'[i] == states[i] && actions'[i] == actions[i];
  }

  lemma StatOf(s: State, p: Process)
    requires p in s.live && forall q :: q in s.live && q.pid == p.pid ==> q == p
    ensures StatStart(s, p.pid) == Some(p.start)
  {
    assert exists r :: r in s.live && r.pid == p.pid;
  }

  /** The first writer leaves and the second publishes while the probe is under way. */
  lemma ProbeOvertaken(p: Process, q: Process) returns (states: seq<State>, actions: seq<Action>)
    requires p == Process(0, 1, 0) && q == Process(0, 2, 0)
    ensures Reaches(states, actions,
                    State(0, 1, {p, q}, map[q := Published], 0, Some(q), 1, [], Seen(Some(p), false, false)))
    ensures forall i :: 0 <= i < |actions| ==> !actions[i].Clear?
  {
    states, actions := ProbeHolder(p, q);
    var ctl := Reading(Some(p), false);
    var s := State(0, 1, {p, q}, map[p := Published, q := Starting], 0, Some(p), 1, [], ctl);
    var s1 := s.(live := map[p := Writing(0), q := Starting]);
    assert s.live[p := Writing(0)] == s1.live;
    states, actions := Extend(states, actions, s, Truncate(p), s1);
    var s2 := s1.(live := map[p := Leaving, q := Starting], marker := None);
    assert s1.live[p := Leaving] == s2.live;
    states, actions := Extend(states, actions, s1, Drop(p), s2);
    var s3 := s2.(live := map[q := Starting]);
    assert s2.live - {p} == s3.live;
    states, actions := Extend(states, actions, s2, Exit(p), s3);
    var s4 := s3.(live := map[q := Published], marker := Some(q));
    assert s3.live[q := Published] == s4.live;
    states, actions := Extend(states, actions, s3, Link(q), s4);
    states, actions := Extend(states, actions, s4, ReadStat, s4.(ctl := Seen(Some(p), false, false)));
  }

  /**
   * A probe reads the marker and then the process; a spawn that publishes in between makes the
   * controller clear a marker that is not the one it read, and the next spawn is a second writer.
   */
  lemma HastyClearAdmitsTwoWriters() returns (states: seq<State>, actions: seq<Action>, q: Process, r: Process)
    ensures Run(states, actions) && !ClearsSpare(states, actions) && !ClearsQuietly(states, actions)
    ensures var s := states[|states| - 1];
            q != r && q in s.live && r in s.live && Holds(s.live[q]) && Holds(s.live[r])
  {
    var p := Process(0, 1, 0);
    q, r := Process(0, 2, 0), Process(0, 3, 1);
    states, actions := ProbeOvertaken(p, q);
    var n := |actions|;
    var s := State(0, 1, {p, q}, map[q := Published], 0, Some(q), 1, [], Seen(Some(p), false, false));
    var s1 := s.(marker := None, ctl := Idle);
    states, actions := Extend(states, actions, s, Clear, s1);
    states, actions := Extend(states, actions, s1, Issue, s1.(pending := 1));
    var s2 := s1.(used := {p, q, r}, live := map[q := Published, r := Starting]);
    states, actions := Extend(states, actions, s1.(pending := 1), Fork(r), s2);
    states, actions := Extend(states, actions, s2, Tick, s2.(now := 2));
    var s3 := s2.(now := 2, live := map[q := Published, r := Published], marker := Some(r), linkedAt := 2);
    assert s2.live[r := Published] == s3.live;
    states, actions := Extend(states, actions, s2.(now := 2), Link(r), s3);
    assert actions[n] == Clear && states[n] == s;
  }
}
