// The raw-device writer of one run id (e2e/pkg/framework/io_workload.go, io_workload_program.go,
// io_workload_parse.go) as a state machine: writer processes that publish a marker with link(2),
// a controller that probes, clears and signals from outside, and a node that starts unrelated
// processes, reuses pids and reboots. Every step is one atomic action of one of them.
module WriterProtocol {
  import opened Text

  /** A process of the node, named for ever: start times count from boot, pids are reused. */
  datatype Process = Process(boot: nat, pid: nat, start: nat)

  datatype Phase =
    | Other                // not a process of this run
    | Starting             // forked, marker not published yet
    | Published            // marker linked, journal not yet truncated
    | Writing(next: nat)   // owns the journal; `next` is the sequence of its next beat
    | Leaving              // dropped its marker, or found one and refused to start

  /** A beat, with the process that wrote it. */
  datatype Beat = Beat(author: Process, seqno: nat)

  datatype Control =
    | Idle
    | Reading(marker: Option<Process>, quiet: bool)               // the probe has read the marker
    | Seen(marker: Option<Process>, running: bool, quiet: bool)   // ... and the marked pid's stat line

  datatype State = State(
    boot: nat,
    now: nat,                      // clock ticks since boot
    used: set<Process>,            // every process ever started
    live: map<Process, Phase>,
    pending: nat,                  // spawn commands issued whose fork is still to come
    marker: Option<Process>,       // content of the marker file
    linkedAt: nat,                 // tick at which that marker was linked
    journal: seq<Beat>,
    ctl: Control)

  datatype Action =
    | Tick
    | StartOther(p: Process)
    | Issue
    | Fork(p: Process)
    | Link(p: Process)
    | Truncate(p: Process)
    | Heartbeat(p: Process)
    | Drop(p: Process)
    | Exit(p: Process)
    | Reboot(pending: nat)
    | ReadMarker
    | ReadStat
    | Clear
    | Signal
    | Forget

  // ---------------------------------------------------------------------------
  // Observation and decision
  // ---------------------------------------------------------------------------

  /** Field 22 of /proc/<pid>/stat, when the pid is alive. */
  ghost function StatStart(s: State, pid: nat): Option<nat> {
    if exists p :: p in s.live && p.pid == pid then
      var p :| p in s.live && p.pid == pid;
      Some(p.start)
    else None
  }

  /** matchIOMarker, with the boot id read by the same probe. */
  ghost predicate MatchMarker(s: State, marker: Option<Process>) {
    marker.Some? && marker.value.boot == s.boot && StatStart(s, marker.value.pid) == Some(marker.value.start)
  }

  /** No spawn is still on its way to publishing a marker. */
  ghost predicate Quiet(s: State) {
    s.pending == 0 && forall p :: p in s.live ==> !s.live[p].Starting?
  }

  /** The process a signal command would hit: the marked pid, if it carries the expected start time. */
  ghost function SignalTarget(s: State): Option<Process> {
    if s.ctl.Seen? && s.ctl.running && s.ctl.marker.Some? && s.marker.Some?
       && StatStart(s, s.marker.value.pid) == Some(s.ctl.marker.value.start)
    then Some(Process(s.boot, s.marker.value.pid, s.ctl.marker.value.start))
    else None
  }

  // ---------------------------------------------------------------------------
  // Steps
  // ---------------------------------------------------------------------------

  /** A start gets a free pid at the current tick; a pid is not handed out twice in one tick. */
  ghost predicate Fresh(s: State, p: Process) {
    p.boot == s.boot && p.start == s.now && p !in s.used && forall q :: q in s.live ==> q.pid != p.pid
  }

  predicate Holds(phase: Phase) { phase.Published? || phase.Writing? }

  ghost predicate Enabled(s: State, a: Action) {
    match a
    case Tick => true
    case StartOther(p) => Fresh(s, p)
    case Issue => s.ctl.Idle?
    case Fork(p) => s.pending > 0 && Fresh(s, p)
    case Link(p) => p in s.live && s.live[p].Starting?
    case Truncate(p) => p in s.live && s.live[p].Published?
    case Heartbeat(p) => p in s.live && s.live[p].Writing?
    case Drop(p) => p in s.live && s.live[p].Writing?
    case Exit(p) => p in s.live
    case Reboot(pending) => pending <= s.pending
    case ReadMarker => s.ctl.Idle?
    case ReadStat => s.ctl.Reading?
    case Clear => s.ctl.Seen? && s.ctl.marker.Some? && !s.ctl.running
    case Signal => s.ctl.Seen? && s.ctl.running
    case Forget => s.ctl.Seen?
  }

  ghost function Apply(s: State, a: Action): State
    requires Enabled(s, a)
  {
    match a
    case Tick => s.(now := s.now + 1)
    case StartOther(p) => s.(used := s.used + {p}, live := s.live[p := Other])
    case Issue => s.(pending := s.pending + 1)
    case Fork(p) => s.(used := s.used + {p}, live := s.live[p := Starting], pending := s.pending - 1)
    case Link(p) =>
      if s.marker.None? then s.(marker := Some(p), linkedAt := s.now, live := s.live[p := Published])
      else s.(live := s.live[p := Leaving])
    case Truncate(p) => s.(journal := [], live := s.live[p := Writing(0)])
    case Heartbeat(p) =>
      var n := s.live[p].next;
      s.(journal := s.journal + [Beat(p, n)], live := s.live[p := Writing(n + 1)])
    case Drop(p) => s.(marker := None, live := s.live[p := Leaving])
    case Exit(p) => s.(live := s.live - {p})
    case Reboot(pending) =>
      s.(boot := s.boot + 1, now := 0, live := map[], pending := pending,
         ctl := if s.ctl.Reading? then Idle else s.ctl)
    case ReadMarker => s.(ctl := Reading(s.marker, Quiet(s)))
    case ReadStat => s.(ctl := Seen(s.ctl.marker, MatchMarker(s, s.ctl.marker), s.ctl.quiet))
    case Clear => s.(marker := None, journal := [], ctl := Idle)
    case Signal => s.(ctl := Idle)
    case Forget => s.(ctl := Idle)
  }

  const INITIAL := State(0, 0, {}, map[], 0, None, 0, [], Idle)

  /** The states of a run, one per action, from the initial state. */
  ghost predicate Run(states: seq<State>, actions: seq<Action>) {
    && |states| == |actions| + 1 && states[0] == INITIAL
    && forall i :: 0 <= i < |actions| ==>
         Enabled(states[i], actions[i]) && states[i + 1] == Apply(states[i], actions[i])
  }

  /** Clearing now would take the marker of a live process. */
  ghost predicate HitsHolder(s: State) { s.marker.Some? && s.marker.value in s.live }

  /** No clear took the marker of a live process. */
  ghost predicate ClearsSpare(states: seq<State>, actions: seq<Action>) {
    forall i :: 0 <= i < |actions| && i < |states| && actions[i].Clear? ==> !HitsHolder(states[i])
  }

  /** Stale markers were only cleared after probes begun while no spawn was on its way. */
  ghost predicate ClearsQuietly(states: seq<State>, actions: seq<Action>) {
    forall i :: 0 <= i < |actions| && i < |states| && actions[i].Clear? ==> states[i].ctl.Seen? && states[i].ctl.quiet
  }

  /** Starting the interpreter takes a writer past the clock tick it was forked in. */
  ghost predicate LinksLater(states: seq<State>, actions: seq<Action>) {
    forall i :: 0 <= i < |actions| && i < |states| && actions[i].Link? ==> actions[i].p.start < states[i].now
  }

  // ---------------------------------------------------------------------------
  // What every step keeps
  // ---------------------------------------------------------------------------

  ghost predicate ProcessesOk(s: State) {
    && (forall p :: p in s.live ==> p in s.used && p.boot == s.boot && p.start <= s.now)
    && (forall p, q :: p in s.live && q in s.live && p.pid == q.pid ==> p == q)
    && (forall p :: p in s.used ==> p.boot <= s.boot)
  }

  /** Whoever is past publication is named by the marker, and a named process that lives is past publication. */
  ghost predicate MarkerOk(s: State) {
    && (forall p :: p in s.live && Holds(s.live[p]) ==> s.marker == Some(p))
    && (s.marker.Some? ==> s.marker.value in s.used)
    && (HitsHolder(s) ==> Holds(s.live[s.marker.value]))
  }

  ghost predicate JournalOk(s: State) {
    && (forall i, j :: 0 <= i < j < |s.journal| ==>
          s.journal[i].author == s.journal[j].author && s.journal[i].seqno < s.journal[j].seqno)
    && (forall p, i :: p in s.live && s.live[p].Writing? && 0 <= i < |s.journal| ==>
          s.journal[i].author == p && s.journal[i].seqno < s.live[p].next)
  }

  /** What the controller saw still binds: the dead stay dead, and what it read was not replaced unnoticed. */
  ghost predicate ControlOk(s: State) {
    && (!s.ctl.Idle? && s.ctl.quiet ==> Quiet(s) && (s.marker.None? || s.marker == s.ctl.marker))
    && (!s.ctl.Idle? && s.ctl.marker.Some? ==> s.ctl.marker.value in s.used)
    && (s.ctl.Seen? && s.ctl.marker.Some? && !s.ctl.running ==> s.ctl.marker.value !in s.live)
    && (s.ctl.Seen? && s.ctl.running ==> s.ctl.marker.Some?)
    && (!s.ctl.Idle? && s.ctl.marker.Some? && s.ctl.marker.value in s.live ==> PastLink(s.live[s.ctl.marker.value]))
  }

  /** A process of this run that has linked its marker. */
  predicate PastLink(phase: Phase) { phase.Published? || phase.Writing? || phase.Leaving? }

  ghost predicate Inv(s: State) {
    ProcessesOk(s) && MarkerOk(s) && JournalOk(s) && ControlOk(s)
  }

  /** With markers linked after the tick of their process, start times also tell one pid's owners apart. */
  ghost predicate TicksOk(s: State) {
    && (s.marker.Some? && s.marker.value.boot == s.boot ==>
          var k := s.marker.value;
          && k.start < s.linkedAt <= s.now
          && forall t :: t in s.live && t.pid == k.pid && t != k ==> t.start >= s.linkedAt)
    && (!s.ctl.Idle? && s.ctl.marker.Some? && s.ctl.marker.value.boot == s.boot ==>
          var m := s.ctl.marker.value;
          && m.start < s.now
          && (s.marker.Some? ==> s.marker.value.boot == s.boot && m.start < s.linkedAt))
  }

  lemma StatIsIdentity(s: State, m: Process)
    requires ProcessesOk(s) && m.boot == s.boot
    ensures StatStart(s, m.pid) == Some(m.start) <==> m in s.live
  {
    if m in s.live {
      assert exists p :: p in s.live && p.pid == m.pid;
    }
  }

  lemma StepKeepsProcesses(s: State, a: Action)
    requires Inv(s) && Enabled(s, a)
    ensures ProcessesOk(Apply(s, a))
  {
  }

  lemma StepKeepsMarker(s: State, a: Action)
    requires Inv(s) && Enabled(s, a) && (a.Clear? ==> !HitsHolder(s))
    ensures MarkerOk(Apply(s, a))
  {
  }

  lemma StepKeepsJournal(s: State, a: Action)
    requires Inv(s) && Enabled(s, a) && (a.Clear? ==> !HitsHolder(s))
    ensures JournalOk(Apply(s, a))
  {
  }

  lemma StepKeepsControl(s: State, a: Action)
    requires Inv(s) && Enabled(s, a)
    ensures ControlOk(Apply(s, a))
  {
    if a.ReadStat? && s.ctl.marker.Some? && s.ctl.marker.value.boot == s.boot {
      StatIsIdentity(s, s.ctl.marker.value);
    }
  }

  lemma StepKeepsTicks(s: State, a: Action)
    requires Inv(s) && TicksOk(s) && Enabled(s, a) && (a.Link? ==> a.p.start < s.now)
    ensures TicksOk(Apply(s, a))
  {
  }

  lemma {:induction false} RunKeepsInv(states: seq<State>, actions: seq<Action>, i: nat)
    requires Run(states, actions) && ClearsSpare(states, actions) && i < |states|
    ensures Inv(states[i])
    decreases i
  {
    hide ProcessesOk, MarkerOk, JournalOk, ControlOk, Enabled, Apply, HitsHolder;
    if i == 0 {
      InitiallyFine();
    } else {
      RunKeepsInv(states, actions, i - 1);
      StepKeepsProcesses(states[i - 1], actions[i - 1]);
      StepKeepsMarker(states[i - 1], actions[i - 1]);
      StepKeepsJournal(states[i - 1], actions[i - 1]);
      StepKeepsControl(states[i - 1], actions[i - 1]);
    }
  }

  lemma InitiallyFine()
    ensures Inv(INITIAL) && TicksOk(INITIAL)
  {
  }

  lemma {:induction false} RunKeepsTicks(states: seq<State>, actions: seq<Action>, i: nat)
    requires Run(states, actions) && ClearsSpare(states, actions) && LinksLater(states, actions) && i < |states|
    ensures TicksOk(states[i])
    decreases i
  {
    hide Inv, TicksOk, Enabled, Apply, HitsHolder;
    if i == 0 {
      InitiallyFine();
    } else {
      RunKeepsTicks(states, actions, i - 1);
      RunKeepsInv(states, actions, i - 1);
      StepKeepsTicks(states[i - 1], actions[i - 1]);
    }
  }

  /** A probe begun while no spawn was on its way never leads to clearing a live process's marker. */
  lemma QuietClearSpares(s: State)
    requires Inv(s) && Enabled(s, Clear) && s.ctl.quiet
    ensures !HitsHolder(s)
  {
  }

  lemma {:induction false} QuietClearsSpare(states: seq<State>, actions: seq<Action>, n: nat)
    requires Run(states, actions) && ClearsQuietly(states, actions) && n <= |actions|
    ensures ClearsSpare(states[..n + 1], actions[..n]) && Run(states[..n + 1], actions[..n])
  {
    hide Inv, Enabled, Apply, HitsHolder;
    if n > 0 {
      QuietClearsSpare(states, actions, n - 1);
      var before, did := states[..n], actions[..n - 1];
      assert before[n - 1] == states[n - 1];
      RunKeepsInv(before, did, n - 1);
      if actions[n - 1].Clear? {
        QuietClearSpares(states[n - 1]);
      }
      assert forall i :: 0 <= i < n - 1 ==> before[i] == states[i] && did[i] == actions[i];
    }
  }

  // ---------------------------------------------------------------------------
  // Main results
  // ---------------------------------------------------------------------------

  /** At most one live process is past publication, a probe finds it running, and the journal is one author's. */
  ghost predicate OneWriter(s: State) {
    && (forall p, q :: p in s.live && q in s.live && Holds(s.live[p]) && Holds(s.live[q]) ==> p == q)
    && (forall p :: p in s.live && Holds(s.live[p]) ==> s.marker == Some(p) && MatchMarker(s, s.marker))
    && (forall j, k :: 0 <= j < k < |s.journal| ==>
          s.journal[j].author == s.journal[k].author && s.journal[j].seqno < s.journal[k].seqno)
    && (forall p, j :: p in s.live && s.live[p].Writing? && 0 <= j < |s.journal| ==> s.journal[j].author == p)
  }

  /**
   * At every point of every run, whatever is spawned twice, crashes, reboots or reuses a pid, as long as no
   * clear takes the marker of a live process: at most one live process holds the marker and may touch device
   * and journal; a probe finds it running; and the journal is one process's strictly increasing sequence,
   * the holder's own once it has started.
   */
  lemma SingleWriter(states: seq<State>, actions: seq<Action>, i: nat)
    requires Run(states, actions) && ClearsSpare(states, actions) && i < |states|
    ensures OneWriter(states[i])
  {
    RunKeepsInv(states, actions, i);
    var s := states[i];
    forall p | p in s.live && Holds(s.live[p]) ensures MatchMarker(s, s.marker) {
      StatIsIdentity(s, p);
    }
  }

  /** The controller's own way to that: clearing only after probes begun while no spawn was on its way. */
  lemma SingleWriterWhenQuiet(states: seq<State>, actions: seq<Action>, i: nat)
    requires Run(states, actions) && ClearsQuietly(states, actions) && i < |states|
    ensures OneWriter(states[i]) && ClearsSpare(states, actions)
  {
    hide OneWriter, Enabled, Apply, HitsHolder;
    QuietClearsSpare(states, actions, |actions|);
    assert states[..|actions| + 1] == states && actions[..|actions|] == actions;
    SingleWriter(states, actions, i);
  }

  /** Clearing keeps the marker's meaning iff it takes no live process's marker. */
  lemma ClearIsSafeIff(s: State)
    requires Inv(s) && Enabled(s, Clear)
    ensures MarkerOk(Apply(s, Clear)) <==> !HitsHolder(s)
  {
  }

  /**
   * And wherever a clear does take one, the next spawn can be a second writer: from every such state three
   * more steps reach two processes past publication.
   */
  lemma HittingClearAdmitsSecondWriter(s: State) returns (p: Process, s1: State, s2: State, s3: State, s4: State)
    requires Inv(s) && Enabled(s, Clear) && HitsHolder(s)
    ensures s1 == Apply(s, Clear) && Enabled(s1, Issue) && s2 == Apply(s1, Issue)
    ensures Enabled(s2, Fork(p)) && s3 == Apply(s2, Fork(p)) && Enabled(s3, Link(p)) && s4 == Apply(s3, Link(p))
    ensures var q := s.marker.value; q != p && q in s4.live && p in s4.live && Holds(s4.live[q]) && Holds(s4.live[p])
  {
    var pid := FreePid(s.used);
    p := Process(s.boot, pid, s.now);
    s1 := Apply(s, Clear);
    s2 := Apply(s1, Issue);
    s3 := Apply(s2, Fork(p));
    s4 := Apply(s3, Link(p));
  }

  lemma {:induction false} FreePid(used: set<Process>) returns (pid: nat)
    ensures forall q :: q in used ==> q.pid < pid
    decreases |used|
  {
    if used == {} {
      pid := 0;
    } else {
      var q :| q in used;
      var n := FreePid(used - {q});
      pid := if q.pid < n then n else q.pid + 1;
      assert forall r :: r in used ==> r == q || r in used - {q};
    }
  }

  /**
   * A probe is right at every point of every run: it reports the writer running iff the process named by
   * the marker it read is alive at that moment. That process is then one of this run that has published,
   * of the current boot, and never an unrelated one that got its pid.
   */
  lemma ProbeIsRight(states: seq<State>, actions: seq<Action>, i: nat)
    requires Run(states, actions) && ClearsSpare(states, actions) && i < |actions| && actions[i] == ReadStat
    ensures var s, m, seen := states[i], states[i].ctl.marker, states[i + 1].ctl;
            && seen.Seen? && seen.marker == m
            && (seen.running <==> m.Some? && m.value in s.live)
            && (seen.running ==> m.value.boot == s.boot && PastLink(s.live[m.value]))
  {
    RunKeepsInv(states, actions, i);
    var s, m := states[i], states[i].ctl.marker;
    if m.Some? && m.value.boot == s.boot {
      StatIsIdentity(s, m.value);
    }
  }

  /** What a probe saw running is alive until it exits or the node reboots. */
  lemma {:induction false} SeenStaysAlive(states: seq<State>, actions: seq<Action>, i: nat, j: nat, m: Process)
    requires Run(states, actions) && i <= j < |states| && m in states[i].live
    requires forall k :: i <= k < j ==> actions[k] != Exit(m) && !actions[k].Reboot?
    ensures m in states[j].live
    decreases j
  {
    if i < j {
      SeenStaysAlive(states, actions, i, j - 1, m);
      LivesOn(states[j - 1], actions[j - 1], m);
    }
  }

  lemma LivesOn(s: State, a: Action, m: Process)
    requires Enabled(s, a) && m in s.live && a != Exit(m) && !a.Reboot?
    ensures m in Apply(s, a).live
  {
  }

  /** A signal is sent iff the pid in the marker file is alive with the start time the probe saw running. */
  lemma SignalTargetIff(s: State, t: Process)
    requires ProcessesOk(s)
    ensures SignalTarget(s) == Some(t) <==>
            && t in s.live && s.ctl.Seen? && s.ctl.running && s.ctl.marker.Some? && s.marker.Some?
            && t.pid == s.marker.value.pid && t.start == s.ctl.marker.value.start
  {
    if t.boot == s.boot {
      StatIsIdentity(s, t);
    }
  }

  /**
   * A signal reaches the live holder of this run's marker exactly when the marker file names the
   * current boot and the expected start time. It always does when the node did not reboot since the probe
   * and every writer linked its marker after the clock tick it was started in.
   */
  lemma SignalHitsWriterIff(states: seq<State>, actions: seq<Action>, i: nat)
    requires Run(states, actions) && ClearsSpare(states, actions) && i < |states|
    requires SignalTarget(states[i]).Some?
    ensures var s, t := states[i], SignalTarget(states[i]).value;
            && t in s.live
            && (Holds(s.live[t]) <==> s.marker.value.boot == s.boot && s.marker.value.start == s.ctl.marker.value.start)
            && (LinksLater(states, actions) && s.ctl.marker.value.boot == s.boot ==> Holds(s.live[t]))
  {
    hide Run, ClearsSpare, LinksLater;
    RunKeepsInv(states, actions, i);
    var s, t := states[i], SignalTarget(states[i]).value;
    StatIsIdentity(s, t);
    if LinksLater(states, actions) {
      RunKeepsTicks(states, actions, i);
    }
  }
}
