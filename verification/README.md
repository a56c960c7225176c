# Verified models of the sds-replicated-volume algorithms and protocols

This Dafny project models the parts of sds-replicated-volume that carry real algorithms: the
line diff and the YAML-like printer behind the object watcher, the raw-device writer protocol and
its heartbeat journal, the reference-counted watches, the Prometheus and protobuf readers, the
quorum layout, the replica-name allocator, the identity wait and the firewall blockade. Each model
follows the branches of the code it cites; each main theorem is a statement over every input or
over every run.

`dafny verify dfyconfig.toml` checks everything. One module per component:

| module | component |
|---|---|
| `Diff`, `DiffLoops`, `DiffReader` | LCS table, walk, run merging, replace fusion, hunks, and reading a report back (`e2e/pkg/debug/diff.go`) |
| `YamlText`, `Yaml`, `YamlReader`, `ObjectDiff` | printer, a reader that inverts it, and printer and diff together (`e2e/pkg/debug/yaml.go`) |
| `WriterProtocol`, `WriterRuns` | marker publication, probe, clear and signal as a state machine, and runs that show its limits (`e2e/pkg/framework/io_workload*.go`) |
| `Journal`, `Stalls` | the heartbeat journal, torn records, stall policy |
| `WatchKeys`, `Matchers`, `WatchProtocol`, `WatchLeak`, `Watches` | watches, the objects they show, filter counters, related groups: as interleaved lock sections, a run that leaks, and as classes |
| `Metrics`, `LabelGrammar`, `Exposition` | Prometheus text format (`e2e/pkg/framework/controller_metrics.go`) |
| `Protobuf`, `HexDump` | varints, TypeMeta extraction, hex dumps (`e2e/pkg/debug/protobuf.go`) |
| `Quorum`, `ReplicaNames` | layout and voting, replica ids (`api/v1alpha1`) |
| `IdentityWait`, `Firewall` | waiting for a stable state, link blockade (`e2e/pkg/framework`) |
| `Text` | decimal numbers, splitting, fields |

Imperative code is modelled by methods and classes that are proved equal to a specification
function; the theorems are about those functions. What the code gets from outside is a parameter:
which texts parse as floats (`isFloat`, `float`), how the kernel firewall lists and judges its own
rules (`list`, `judge`), the breadcrumb of a line (`path`), the short name of a kind, the reads an
identity wait makes.

## Where the code falls short of its intent

Each is a lemma with a concrete run or input; next to it stands the condition under which the intent holds,
which is exact unless said otherwise.

- A map key that contains a newline is printed raw, and then different objects can print the same
  lines (`Yaml.NewlineKeysCollide`). With newline-free keys they never do (`YamlReader.LinesEqualIffObjectsEqual`);
  that is sufficient, not necessary, since some keys with newlines collide with nothing.
- A clear that takes the marker of a live process lets a second writer in, from every state in which it does
  (`WriterProtocol.HittingClearAdmitsSecondWriter`, a whole run in `WriterRuns.HastyClearAdmitsTwoWriters`).
  Without such a clear there is one writer (`WriterProtocol.SingleWriter`, `WriterProtocol.ClearIsSafeIff`), and
  clearing only after probes begun while no spawn was on its way is such a discipline
  (`WriterProtocol.SingleWriterWhenQuiet`).
- The signal command compares start times but not boot ids, so a reboot between probe and signal
  can direct it at a stranger (`WriterRuns.RebootMisdirectsSignal`); so can a pid reused within the tick the
  probed writer started and published in (`WriterRuns.SameTickMisdirectsSignal`). When it hits the writer:
  `WriterProtocol.SignalHitsWriterIff`.
- Two first `WatchRelated` calls for one parent that overlap store one group over the other, and after
  both releases a child stays watched for ever (`WatchLeak.OverlappingFirstCallsLeakAWatch`). Among runs in which
  clients release what they hold, the books are right throughout iff no group is stored over another
  (`WatchProtocol.BooksHoldIff`).
- Watching and unwatching with an empty name or label selector leaves the filter counter raised, and nothing
  else does (`WatchProtocol.WatchUnwatchLeaksIff`).
- A watch by the empty name and one by the empty label selector have one key and share the handler of the
  first, though the one shows nothing and the other everything (`Matchers.UnnamedCallsDiffer`). Any call that
  names something, by a path without `=`, has a handler decided by its key (`Matchers.KeyDecidesHandler`).
- A field matcher takes a missing field for an empty one, so the children of a parent without a name are all
  objects that name none (`Matchers.UnnamedParentMeetsIff`); of every other parent, exactly its own
  (`Matchers.ChildMeetsIff`).
- The text format allows blanks between a metric name and its labels and around an equals sign; the parser takes
  such a line of the family for broken and fails the whole scrape (`Exposition.SpacedLabelsFail`,
  `Exposition.SpacedEqualsFails`). All other blanks are read: `Exposition.ExpositionReads`.
- A length prefix of 2^63 or more passes the bounds check as a negative `int` and panics on the slice, in the
  object (`Protobuf.OverrunIsQuietIff`) and inside its TypeMeta (`Protobuf.HugeInnerLengthPanics`,
  `Protobuf.ExtractInnerOverrunIff`).
- The quorum guarantee needs FTT to exceed GMDR by at most one (`Quorum.ToleratesIff`).
- The firewall's delete loop stops after 200 rules per chain and matches the tag as a substring
  (`Firewall.RestoresIff`).

## Model

| member | source | states |
|---|---|---|
| DiffLoops.FillTable | e2e/pkg/debug/diff.go:194-209 | every cell of the table is the length of a longest common subsequence of the two tails |
| DiffLoops.FillRow | e2e/pkg/debug/diff.go:198-209 | one row filled from the row below keeps that meaning for all cells so far |
| Diff.LcsIsUpperBound | e2e/pkg/debug/diff.go:198-209 | no common subsequence, given by any pair of embeddings, is longer than the table value |
| DiffLoops.WalkTable | e2e/pkg/debug/diff.go:211-234 | the walk over a filled table is the greedy edit script |
| Diff.WalkTiles | e2e/pkg/debug/diff.go:211-234 | that script tiles both inputs and keeps exactly LCS-many lines |
| Diff.WalkDeletesFirst | e2e/pkg/debug/diff.go:219-234 | in a run of changes no deletion follows an insertion, so fusion meets every pair |
| DiffLoops.MergeRuns | e2e/pkg/debug/diff.go:240-249 | in-place extension of the last opcode is the run merge |
| Diff.MergeTiles | e2e/pkg/debug/diff.go:240-249 | merging runs preserves tiling and the number of kept lines |
| DiffLoops.FuseReplacements | e2e/pkg/debug/diff.go:251-259 | the skipping index loop is delete+insert fusion |
| Diff.FuseTiles | e2e/pkg/debug/diff.go:251-259 | fusion preserves tiling and the number of kept lines |
| Diff.FuseAlternates | e2e/pkg/debug/diff.go:251-259 | after fusion equal and changed ranges alternate strictly |
| DiffLoops.DiffOpcodes | e2e/pkg/debug/diff.go:191-262 | the imperative pipeline computes the specified opcodes, for empty inputs too |
| Diff.OpcodesTile | e2e/pkg/debug/diff.go:191-262 | opcodes tile both inputs from (0,0) to (n,m), equal ranges agree pointwise, kept lines are LCS-many, ranges alternate |
| Diff.OpcodesAreOptimal | e2e/pkg/debug/diff.go:191-262 | the kept lines are a common subsequence and no common subsequence is longer |
| Diff.OpcodesReplay | e2e/pkg/debug/diff.go:211-262 | replaying the opcodes turns a into b, and their inverses turn b into a |
| DiffLoops.GroupHunks | e2e/pkg/debug/diff.go:44-67 | the grouping loop is the specified grouping |
| Diff.GroupsAreSingletons | e2e/pkg/debug/diff.go:47-67 | every hunk is one maximal changed range |
| Diff.ChangesIffDifferent | e2e/pkg/debug/diff.go:69-71 | there is nothing to group iff the inputs are equal |
| DiffLoops.Emit | e2e/pkg/debug/diff.go:100-116 | a changed range prints all its old lines as removals and then all its new lines as additions |
| DiffLoops.EmitHunk | e2e/pkg/debug/diff.go:85-118 | a hunk is its header, or none under an unchanged breadcrumb, and its range |
| DiffLoops.EmitHunks | e2e/pkg/debug/diff.go:73-124 | all hunks in order, each header relative to the previous breadcrumb |
| DiffLoops.UnifiedDiff | e2e/pkg/debug/diff.go:40-127 | the whole report is the rendering of the changed ranges |
| Diff.UnifiedDiffReports | e2e/pkg/debug/diff.go:40-127 | empty iff the inputs are equal; "-" and "+" lines are exactly the lines outside kept ranges, once and in order; old minus removed equals new minus added equals the LCS length |
| DiffReader.ReportIsPatch | e2e/pkg/debug/diff.go:76-121 | where no line has a breadcrumb, a reader that goes by the numbers of the range headers and checks the removed lines turns the old text into the new one |
| DiffReader.PatchReadsHunk | e2e/pkg/debug/diff.go:80-90 | a hunk under such a header is read as exactly its range of old and new lines |
| DiffReader.BreadcrumbsPlace | e2e/pkg/debug/diff.go:85-91 | for any breadcrumbs, the header last seen above a changed line, repeated or not, is the breadcrumb of its range |
| YamlText.YamlString | e2e/pkg/debug/yaml.go:140-174 | the scan loop and five sequential replacements give the specified text |
| YamlText.YamlKey | e2e/pkg/debug/yaml.go:177-189 | the key scan gives the specified text |
| YamlText.SequentialEscape | e2e/pkg/debug/yaml.go:168-172 | five passes of ReplaceAll equal escaping every character once |
| YamlText.StringTextForms | e2e/pkg/debug/yaml.go:140-174 | a string prints bare or as its quoted escape, also on the reserved-word and float paths that skip escaping |
| YamlText.StringIsBareIff | e2e/pkg/debug/yaml.go:140-174 | exactly which strings print without quotes: none that is empty, a float, a reserved word in any case, starts with a dash, question mark or blank, or holds a special character |
| YamlText.KeyTextForms | e2e/pkg/debug/yaml.go:177-189 | a key prints as itself without colon, quote, bracket or space, or in quotes |
| YamlText.KeyIsBareIff | e2e/pkg/debug/yaml.go:177-189 | exactly which keys print without quotes |
| Yaml.SortedMapKeys | e2e/pkg/debug/yaml.go:191-213 | whatever order the map is ranged in, the keys come out in one order |
| Yaml.AscendingUnique | e2e/pkg/debug/yaml.go:196-211 | the comparison, conventional keys first at the top level, leaves one arrangement of a key set |
| Yaml.ConventionalKeysFirst | e2e/pkg/debug/yaml.go:196-211 | at the top level apiVersion, kind, metadata, spec and status come first, in that order, and all others behind them in byte order |
| Yaml.LexLessIff | e2e/pkg/debug/yaml.go:211 | the byte order: at the first difference the smaller byte, or a proper prefix |
| Yaml.WriteValue | e2e/pkg/debug/yaml.go:50-71 | appends the text of a value: empty containers inline, others below, scalars on the line |
| Yaml.WriteMap | e2e/pkg/debug/yaml.go:73-82 | appends the entries of a map in key order |
| Yaml.WriteEntries | e2e/pkg/debug/yaml.go:76-81 | the entry loop appends the entries that remain |
| Yaml.WriteEntry | e2e/pkg/debug/yaml.go:77-80 | appends one key line and its value |
| Yaml.WriteSlice | e2e/pkg/debug/yaml.go:84-114 | appends the items of a list |
| Yaml.WriteItem | e2e/pkg/debug/yaml.go:87-112 | appends one item: map, list or scalar behind its dash |
| Yaml.WriteMapItem | e2e/pkg/debug/yaml.go:95-105 | the first key stands on the dash, the others align with it |
| Yaml.MarshalYAML | e2e/pkg/debug/yaml.go:38-42 | the recursive writers print the specified text |
| YamlReader.ScalarReads | e2e/pkg/debug/yaml.go:116-137 | null, booleans, integers and strings are read back from their text by a reader written without the printer |
| YamlReader.StringReads | e2e/pkg/debug/yaml.go:140-174 | every string is read back, bare or quoted, escapes undone |
| YamlReader.KeyReads | e2e/pkg/debug/yaml.go:76-81 | a key line is cut again into its key and what follows, backslashes left unescaped in keys included |
| YamlReader.EntriesRead | e2e/pkg/debug/yaml.go:73-82 | printed entries, before anything less indented, are read back as exactly those keys and values, up to where they end |
| YamlReader.ItemsRead | e2e/pkg/debug/yaml.go:84-114 | so are printed items, a map whose first key stands on the dash included |
| YamlReader.MarshalReads | e2e/pkg/debug/yaml.go:38-213 | for all trees with newline-free keys, reading the printed text gives the object back |
| YamlReader.MarshalInjective | e2e/pkg/debug/yaml.go:38-213 | for all trees with newline-free keys, equal text means equal objects |
| YamlReader.LinesEqualIffObjectsEqual | e2e/pkg/debug/yaml.go:45-48 | the line lists are equal iff the objects are |
| Yaml.NewlineKeysCollide | e2e/pkg/debug/yaml.go:177-189 | two different objects, one with a newline in a key, print the same text |
| ObjectDiff.ReportedIffChanged | e2e/pkg/debug/diff.go:37-41 | printing two objects and diffing the lines reports nothing iff the object did not change |
| WriterProtocol.StatIsIdentity | e2e/pkg/framework/io_workload_parse.go:109-129 | within a boot, the pid of the marker has the start time of the marker iff the marked process is alive |
| WriterProtocol.RunKeepsInv | e2e/pkg/framework/io_workload_program.go:103-125 | every step of every run in which no clear takes a live process's marker keeps the invariant on processes, marker, journal and controller knowledge |
| WriterProtocol.ProbeIsRight | e2e/pkg/framework/io_workload_parse.go:109-129 | at every point of every such run a probe reports the writer running iff the process named by the marker it read is alive then, which is one that has published, in the current boot |
| WriterProtocol.SeenStaysAlive | e2e/pkg/framework/io_workload.go:588-601 | a process a probe saw running is alive until it exits or the node reboots |
| WriterProtocol.SingleWriter | e2e/pkg/framework/io_workload.go:476-648 | across duplicate spawns, crashes, reboots and pid reuse, in every run in which no clear takes a live process's marker, at most one live process is past publication, its marker always matches, and the journal is one author's increasing sequence |
| WriterProtocol.SingleWriterWhenQuiet | e2e/pkg/framework/io_workload.go:588-601 | clearing only after probes begun while no spawn was on its way never takes such a marker, so one writer |
| WriterProtocol.ClearIsSafeIff | e2e/pkg/framework/io_workload_program.go:299-306 | a clear keeps the marker's meaning iff it takes no live process's marker |
| WriterProtocol.HittingClearAdmitsSecondWriter | e2e/pkg/framework/io_workload.go:588-648 | from every state in which a clear takes one, a spawn leads to two processes past publication |
| WriterProtocol.SignalHitsWriterIff | e2e/pkg/framework/io_workload.go:782-799 | a signal reaches the live holder iff the marker file is of this boot and of the expected start; always so without a reboot since the probe when markers are linked after the tick of the start |
| WriterProtocol.SignalTargetIff | e2e/pkg/framework/io_workload_program.go:285-298 | a process is signalled iff it is alive under the pid in the marker file with the start time the probe saw running |
| WriterRuns.SameTickMisdirectsSignal | e2e/pkg/framework/io_workload_program.go:285-298 | a run without a reboot in which a pid reused in the tick of the start is hit |
| WriterRuns.RebootMisdirectsSignal | e2e/pkg/framework/io_workload_program.go:285-298 | a run in which the signal command would hit an unrelated process |
| WriterRuns.HastyClearAdmitsTwoWriters | e2e/pkg/framework/io_workload.go:588-601 | a run in which clearing after a probe that overlapped a spawn leads to two writers |
| Journal.ParseJournal | e2e/pkg/framework/io_workload_parse.go:250-273 | the loop reads the text line by line, tolerating a malformed last line only |
| Journal.WholeRecord | e2e/pkg/framework/io_workload_parse.go:276-348 | every record the writer appends is read back with all its values |
| Journal.BothClocksRead | e2e/pkg/framework/io_workload_parse.go:418-428 | a clock in milliseconds is read exactly iff it is at 0 or from 10^11 on, one in seconds to the second iff it is below 10^11 |
| Journal.TornRecord | e2e/pkg/framework/io_workload_parse.go:276-348 | a record cut anywhere adds a beat iff its checksum has begun, and then the written one but for the checksum; it is never a broken sequence |
| Journal.TornTermination | e2e/pkg/framework/io_workload_parse.go:303-323 | a cut failure keeps its time and loses only the end of its message, a cut stop keeps its count, other records end nothing |
| Journal.WindowLines | e2e/pkg/framework/io_workload_program.go:260-279 | the last k lines of a file of whole records and a cut one are exactly those records and the cut |
| Journal.WindowParses | e2e/pkg/framework/io_workload_parse.go:250-348 | every window of every producible journal, cut anywhere, parses into exactly the beats of its whole records and of the cut one once its checksum has begun, all as written but for that checksum |
| Journal.AcceptedBeatsIncrease | e2e/pkg/framework/io_workload_parse.go:292-301 | beats of any accepted text are in strictly increasing sequence |
| Journal.ProbeParsesWindow | e2e/pkg/framework/io_workload_parse.go:370-413 | cutting the probe output into lines and gluing it again gives the parser exactly the lines printed |
| Stalls.CollectGaps | e2e/pkg/framework/io_workload_parse.go:207-224 | the loop lists the gaps over the threshold; a gap is listed iff it is the time between two consecutive beats, from the earlier to the later, and exceeds the threshold |
| Stalls.GapsInOrder | e2e/pkg/framework/io_workload_parse.go:207-224 | oldest first and one for each beat that came that late, with the times and sequences of both beats |
| Stalls.AnyGapIff | e2e/pkg/framework/io_workload_parse.go:207-224 | some gap is listed iff some beat came more than the threshold after the one before it |
| Stalls.MaxInterBeatGap | e2e/pkg/framework/io_workload_parse.go:168-175 | no two consecutive beats are further apart than the result, and the beat named came that long after the one before it; for a non-negative threshold stalls exist iff it exceeds the threshold |
| Stalls.Workload.DeclareFreeze | e2e/pkg/framework/io_workload.go:450-472 | accepted once, and only above the heartbeat gap; otherwise nothing changes |
| Stalls.PolicyMeans | e2e/pkg/framework/io_workload.go:226-234 | undeclared, the policy holds iff no beat came later after the one before it than the heartbeat gap; declared, iff at most one did and none later than the declared bound |
| Stalls.ViolationSpreads | e2e/pkg/framework/io_workload.go:226-234 | a policy broken by a part of the gaps is broken by all of them |
| Stalls.GapsOfPart | e2e/pkg/framework/io_workload_parse.go:207-224 | the stalls of a stretch of beats are a contiguous part of all stalls, of a tail the last part |
| Stalls.ProbeShowsPart | e2e/pkg/framework/io_workload.go:657-673 | what any probe at any moment shows is a stretch of the beats written |
| Stalls.BrokenPolicyStaysBroken | e2e/pkg/framework/io_workload.go:676-695 | a policy broken in any probe is broken in every later view of the whole journal, of a writer that ended or is still appending, with or without a declared freeze |
| Stalls.FinalVerdictCovers | e2e/pkg/framework/io_workload.go:816-822 | so it is in the final verification, whose read covers journals of up to 2^20 lines |
| WatchKeys.UnwatchMatchesWatchIff | e2e/pkg/debug/debugger.go:290-328 | ending a watch lowers the counter that starting it raised iff the call named something |
| Matchers.LabelMatchesIff | e2e/pkg/debug/related.go:165-183 | a selector key=value shows an object iff its label key is value; the empty one shows all, one without a separator none |
| Matchers.SpecFieldMatcher | e2e/pkg/debug/related.go:188-205 | the walk along the path is the specified match |
| Matchers.FieldMatchesIff | e2e/pkg/debug/related.go:188-205 | for a value that is not empty, iff the field at the path is that string |
| Matchers.NameOfIs | e2e/pkg/debug/handlers.go:67-71 | the name an object goes by is the string at metadata.name; without one it is not shown |
| Matchers.KeyDecidesHandler | e2e/pkg/debug/debugger.go:171-206 | a call that names something installs a handler that shows exactly the objects that meet its key, so later watches of the key may share it |
| Matchers.UnnamedCallsDiffer | e2e/pkg/debug/debugger.go:230-260 | the calls with an empty name and an empty selector share a key; one shows nothing, the other every object |
| Matchers.ChildMeetsIff | e2e/pkg/debug/related.go:90-112 | a child watch shows exactly the objects whose label, or field at the path, is the name of the parent |
| Matchers.UnnamedParentMeetsIff | e2e/pkg/debug/related.go:188-205 | for a parent without a name a field relation shows the objects whose field is missing, no string or empty |
| Matchers.ChildrenMeetIff | e2e/pkg/debug/related.go:87-112 | over all relations of a parent: an object of a kind is shown iff it names the parent in the way some relation of that kind asks for |
| WatchProtocol.StepKeepsFilter | e2e/pkg/debug/debugger.go:290-328 | every lock section of any call keeps every filter counter accounted for and every stored counter positive |
| WatchProtocol.StepKeepsHolds | e2e/pkg/debug/related.go:56-160 | every lock section that releases what is held and stores over no group keeps references and groups accounted for |
| WatchProtocol.RunKeepsFilter | e2e/pkg/debug/filter.go:55-106 | the counters are accounted for over every run of any interleaved calls |
| WatchProtocol.RunKeepsHolds | e2e/pkg/debug/related.go:56-160 | so are references and groups while clients release what they hold and no group is stored over another |
| WatchProtocol.FilterAgrees | e2e/pkg/debug/filter.go:55-118 | at every lock-section boundary of every run of any calls each counter is the references it stands for, plus removals in flight, plus starts of watches that name nothing, none stored as zero; an object matches iff a watch is on its name, or on its kind by a label or a field, or such a removal is owed |
| WatchProtocol.RefsAreHolds | e2e/pkg/debug/related.go:56-160 | with no call half done, a watch's count is its direct holds plus, per group, the group's count times the key's multiplicity |
| WatchProtocol.BalancedCallsRestore | e2e/pkg/debug/related.go:121-160 | two moments of a run with no call half done and the same holds have the same watches and groups, and the same filter iff no watch that names nothing was started between them |
| WatchProtocol.BooksHoldIff | e2e/pkg/debug/related.go:69-118 | among runs in which clients release what they hold, references and groups are accounted for throughout iff no group is stored over another |
| WatchProtocol.WatchUnwatchLeaksIff | e2e/pkg/debug/debugger.go:159-328 | from any state, watching and unwatching leaves the counter raised iff the name or label selector was empty |
| WatchProtocol.LeaksOnlyGrow | e2e/pkg/debug/debugger.go:290-328 | such an increment is made exactly by the steps that watch what names nothing, and is never taken back |
| WatchLeak.OverlappingFirstCallsLeakAWatch | e2e/pkg/debug/related.go:69-160 | for every parent with one child, a run of two overlapping calls and both releases that ends with nothing held, half done or in flight and the child still watched |
| WatchProtocol.StoringGroupKeepsCountIff | e2e/pkg/debug/related.go:114-116 | storing a new group keeps the count right iff none was stored meanwhile |
| Watches.Filter.AddKind | e2e/pkg/debug/filter.go:55-63 | raises that counter by one and no other, and keeps the kind list exact |
| Watches.Filter.AddName | e2e/pkg/debug/filter.go:65-75 | raises that counter by one and no other, and keeps the kind list exact |
| Watches.Filter.RemoveKind | e2e/pkg/debug/filter.go:77-89 | lowers that counter unless it is zero, removes it at zero, and keeps the kind list exact |
| Watches.Filter.RemoveName | e2e/pkg/debug/filter.go:91-106 | lowers that counter unless it is zero, removes empty tables, and keeps the kind list exact |
| Watches.Filter.RebuildAllKinds | e2e/pkg/debug/filter.go:179-191 | the list is exactly the union of both key sets |
| Watches.Filter.MatchesObject | e2e/pkg/debug/filter.go:108-118 | true iff the kind or the name is counted |
| Watches.Filter.MatchesControllerName | e2e/pkg/debug/filter.go:140-149 | true iff some counted kind is the prefix of the controller's name |
| Watches.Debugger.Watch | e2e/pkg/debug/debugger.go:159-275 | raises one reference; the filter still counts exactly the references plus what watches that name nothing have leaked |
| Watches.Debugger.UnwatchByKey | e2e/pkg/debug/debugger.go:290-328 | lowers one reference, ignores an unknown key, lowers no counter for a key that names nothing, and keeps the same balance |
| Watches.Debugger.WatchRelated | e2e/pkg/debug/related.go:56-119 | one more group reference, and each watch raised by its multiplicity, on the first call and on repeats |
| Watches.Debugger.RewatchChildren | e2e/pkg/debug/related.go:74-84 | splitting stored child keys again finds the watches they came from |
| WatchKeys.CutRejoins | e2e/pkg/debug/related.go:79-82 | the two halves of a stored field filter rejoin to it |
| WatchKeys.CutJoined | e2e/pkg/debug/related.go:79-82 | a stored field filter is cut again where it was joined, for paths without an equals sign |
| Watches.Debugger.UnwatchRelated | e2e/pkg/debug/related.go:125-160 | the exact inverse: one group reference fewer, each watch lowered by its multiplicity; only the parent without a group |
| Metrics.ParseLabelValue | e2e/pkg/framework/controller_metrics.go:359-384 | the index loop is the specified unescaping and stops behind the closing quote |
| Metrics.ParseLabels | e2e/pkg/framework/controller_metrics.go:307-354 | labels, error and characters consumed are those of the specification |
| Metrics.SkipMetricSpaces | e2e/pkg/framework/controller_metrics.go:386-391 | skips exactly the leading blanks and tabs |
| Metrics.ValueRoundTrip | e2e/pkg/framework/controller_metrics.go:359-384 | an escaped value of any characters reads back, whatever follows |
| Metrics.LabelsRoundTrip | e2e/pkg/framework/controller_metrics.go:307-354 | a label map rendered in any order reads back as that map and ends exactly behind the brace |
| Metrics.ParsedNamesOk | e2e/pkg/framework/controller_metrics.go:319-325 | names of any accepted label set are non-empty and free of delimiters |
| Metrics.ParseRenderParse | e2e/pkg/framework/controller_metrics.go:307-391 | for every accepted input, rendering the result and parsing it again gives the same map |
| LabelGrammar.GrammarAccepted | e2e/pkg/framework/controller_metrics.go:307-384 | every label set of the format without blanks at an equals sign is accepted with its labels, exactly through its brace: blanks around labels, redundant escapes, repeated names and a last comma included |
| LabelGrammar.LooseRejected | e2e/pkg/framework/controller_metrics.go:319-334 | every label set of the format with a blank at an equals sign is rejected |
| LabelGrammar.AcceptedIsGrammar | e2e/pkg/framework/controller_metrics.go:307-384 | nothing else is accepted: an accepted text is such a tight label set and its labels are the ones it spells |
| Exposition.ParseMetricSampleLine | e2e/pkg/framework/controller_metrics.go:278-302 | optional labels, one or two fields, and each error in its order |
| Exposition.ParseMetricSamples | e2e/pkg/framework/controller_metrics.go:255-274 | the line loop returns the family's samples in order or the first error |
| Exposition.NothingIsDropped | e2e/pkg/framework/controller_metrics.go:245-274 | for every text, parsing succeeds iff every line of the family can be read, and then there is one sample per such line |
| Exposition.BelongsIff | e2e/pkg/framework/controller_metrics.go:259-266 | a rendered sample belongs to the family iff its whole name is the family's, never a longer or shorter one |
| Exposition.BelongsMeans | e2e/pkg/framework/controller_metrics.go:259-266 | any line at all belongs to the family iff it is no comment and is the name alone or followed by a brace or a blank |
| Exposition.RestReads | e2e/pkg/framework/controller_metrics.go:278-302 | a sample of the format, with any blanks between its tokens, is read iff none stands between name and labels or at an equals sign |
| Exposition.ReadIsSample | e2e/pkg/framework/controller_metrics.go:278-302 | nothing else is read: an accepted rest is a tight label set or none, a number that parses and at most one more field, and the sample is what they say |
| Exposition.ExpositionReads | e2e/pkg/framework/controller_metrics.go:255-391 | an exposition of the format is read iff every sample of the family is written that way, and then exactly the family's samples are returned, in order, with their labels |
| Exposition.SpacedLabelsFail | e2e/pkg/framework/controller_metrics.go:278-302 | one blank between name and labels fails the scrape of its family |
| Exposition.SpacedEqualsFails | e2e/pkg/framework/controller_metrics.go:327-329 | so does one before an equals sign |
| Protobuf.DecodeVarint | e2e/pkg/debug/protobuf.go:174-186 | the shift-and-or loop in 64 bits, at most ten bytes |
| Protobuf.VarintRoundTrip | e2e/pkg/debug/protobuf.go:174-186 | decoding inverts encoding for every 64-bit value, whatever follows |
| Protobuf.VarintMeans | e2e/pkg/debug/protobuf.go:174-186 | any bytes that decode stand for their base-128 value modulo 2^64, padded encodings included |
| Protobuf.VarintReadIff | e2e/pkg/debug/protobuf.go:176-185 | a varint is read iff one of the first ten bytes ends it, and ends there |
| Protobuf.Next | e2e/pkg/debug/protobuf.go:77-114 | every iteration that goes on consumes at least one byte |
| Protobuf.SkipField | e2e/pkg/debug/protobuf.go:97-114 | wire types 0, 1 and 5 are skipped by their size, others stop |
| Protobuf.ParseProtoTypeMeta | e2e/pkg/debug/protobuf.go:122-170 | the loop over the payload, panics included, is the specification |
| Protobuf.ExtractK8sProtobufMeta | e2e/pkg/debug/protobuf.go:71-118 | the loop over the object, panics included, is the specification |
| Protobuf.TypeMetaReads | e2e/pkg/debug/protobuf.go:122-170 | of every well-formed payload the last apiVersion and the last kind are returned |
| Protobuf.ExtractReads | e2e/pkg/debug/protobuf.go:71-118 | in every well-formed object all fields before the first length-delimited field 1 are skipped and that one is read; nothing behind it matters |
| Protobuf.ExtractNeedsMagic | e2e/pkg/debug/protobuf.go:71-75 | data that does not start with "k8s" and a zero byte gives nothing |
| Protobuf.ExtractFindsNothing | e2e/pkg/debug/protobuf.go:71-118 | without such a field the result is empty |
| Protobuf.OverrunIsQuietIff | e2e/pkg/debug/protobuf.go:88-90 | behind any well-formed fields, a length that overruns the object ends the scan quietly iff it is below 2^63, and panics otherwise |
| Protobuf.InnerOverrunIsQuietIff | e2e/pkg/debug/protobuf.go:155-158 | so it does inside the TypeMeta, giving the apiVersion and kind read so far |
| Protobuf.ExtractInnerOverrunIff | e2e/pkg/debug/protobuf.go:88-95 | seen from outside, of an object all of whose own lengths fit |
| Protobuf.HugeInnerLengthPanics | e2e/pkg/debug/protobuf.go:155-158 | such an object exists |
| HexDump.IsHexDump | e2e/pkg/debug/protobuf.go:29-40 | true iff eight hex digits and two spaces start the text |
| HexDump.HexDigitsRead | e2e/pkg/debug/protobuf.go:53-60 | the digits of either case have their values |
| HexDump.ParseHexDump | e2e/pkg/debug/protobuf.go:43-65 | the nested loops collect the bytes of all lines |
| HexDump.LineReads | e2e/pkg/debug/protobuf.go:46-62 | a dump line of up to 16 bytes gives them back: double spaces, padding, and pipe characters in the text column included |
| HexDump.DumpRoundTrip | e2e/pkg/debug/protobuf.go:42-65 | parsing the dump of any byte string gives the byte string |
| HexDump.DumpLooksLikeDump | e2e/pkg/debug/protobuf.go:27-40 | the dump of any non-empty byte string is recognised |
| Quorum.VotersRemain | api/v1alpha1/rv_types.go:165-187 | losing up to FTT members leaves at least GMDR+1 voters |
| Quorum.RedundancyIsMinimum | api/v1alpha1/rv_types.go:170-187 | some loss of FTT voters leaves exactly GMDR+1, which is qmr iff the byte does not wrap |
| Quorum.LossKeepsQuorum | api/v1alpha1/rv_types.go:189-201 | with FTT at most GMDR+1 any loss of up to FTT members, tie-breaker included, keeps quorum |
| Quorum.ToleratesIff | api/v1alpha1/rv_types.go:165-201 | every such loss keeps quorum iff FTT is at most GMDR+1 |
| Quorum.OutagesKeepQuorum | api/v1alpha1/rvr_types.go:175-182 | over any run of outages and returns with at most FTT members away, quorum is never lost, tie-breakers only maintaining it |
| Quorum.NoSplitBrain | api/v1alpha1/rvr_types.go:175-182 | no two disjoint groups have quorum, for any layout |
| Quorum.QuorumGrows | api/v1alpha1/rvr_types.go:175-182 | more reachable members never lose quorum |
| Quorum.TieBreakerIffNeeded | api/v1alpha1/rv_types.go:189-201 | one tie-breaker is assigned if without it some loss of FTT voters would lose the majority, and none otherwise |
| ReplicaNames.IdRoundTrip | api/v1alpha1/common_helpers.go:28-36 | reading the id inverts formatting for every volume name and id 0 to 31, in 8-bit wrap-around arithmetic |
| ReplicaNames.SuffixIs | api/v1alpha1/rvr_types.go:86-101 | a suffix is a dash and the decimal digits of the id in ASCII |
| ReplicaNames.FormatInjective | api/v1alpha1/rvr_types.go:87-101 | a name determines its volume and its id |
| ReplicaNames.TrailingZeros32 | api/v1alpha1/rvr_types.go:122-126 | the index of the lowest set bit, 32 only for zero |
| ReplicaNames.ReservedIds | api/v1alpha1/rvr_types.go:112-119 | bit k of the mask is set iff a replica of the same volume carries id k |
| ReplicaNames.Replica.ChooseNewName | api/v1alpha1/rvr_types.go:110-128 | fails, changing nothing, iff all 32 ids are taken; otherwise the name of the least free id |
| ReplicaNames.RoomBelow32 | api/v1alpha1/rvr_types.go:108-128 | fewer than 32 replicas always leave an id |
| ReplicaNames.StepKeeps | api/v1alpha1/rvr_types.go:110-128 | a creation or deletion keeps live names well formed and distinct |
| ReplicaNames.RunKeepsNamesDistinct | api/v1alpha1/rvr_types.go:110-128 | over any run of creations and deletions all live names stay distinct |
| IdentityWait.SamplesSpanWindow | e2e/pkg/framework/module_lifecycle.go:1056-1068 | the reads required span the window, and one fewer would not; one read iff there is nothing to span |
| IdentityWait.AwaitIdentityState | e2e/pkg/framework/llv_identity.go:208-248 | succeeds exactly at the first point where the last required reads all showed the wanted state: nothing of that name for gone, the recorded uid for same; fails at the first object found with another uid, else times out |
| IdentityWait.AcceptsIff | e2e/pkg/framework/llv_identity.go:149-158 | which reads count: not found, found with the recorded uid, found with another; never a failed one |
| IdentityWait.ReplacedIff | e2e/pkg/framework/llv_identity.go:226-241 | a read replaces the object iff it found another uid and no reincarnation is awaited |
| IdentityWait.PromisedOnce | e2e/pkg/framework/llv_identity.go:208-248 | for every sequence of reads that leaves one outcome only |
| IdentityWait.DecisionIsFinal | e2e/pkg/framework/llv_identity.go:226-241 | reads behind the deciding one change nothing |
| Firewall.InsertedVerdict | e2e/pkg/framework/drbd_link_block.go:644-658 | inserted at the head, the rules decide exactly the packets they name and every other packet is judged as before |
| Firewall.BlocksBothDirections | e2e/pkg/framework/drbd_link_block.go:108-113 | every packet of a blocked link is dropped in both directions, whichever side dialled |
| Firewall.SparesTheRest | e2e/pkg/framework/drbd_link_block.go:195-203 | traffic between other hosts, or on none of the two ports, is untouched |
| Firewall.FirstTagged | e2e/pkg/framework/drbd_link_block.go:680-681 | the number of the first listed line with the tag, none when there is none |
| Firewall.DeleteTagged | e2e/pkg/framework/drbd_link_block.go:675-686 | the bounded loop removes the first 200 tagged rules and keeps the order of the rest |
| Firewall.CountTagged | e2e/pkg/framework/drbd_link_block.go:692-702 | the count is the number of tagged lines |
| Firewall.ContainsIff | e2e/pkg/framework/drbd_link_block.go:680-681 | a line shows the tag iff the tag occurs somewhere in it |
| Firewall.RestoresIff | e2e/pkg/framework/drbd_link_block.go:625-689 | insert and remove give a chain back iff exactly 200 links were inserted, or fewer and no other rule shows the tag |
| Firewall.Node.InsertScript | e2e/pkg/framework/drbd_link_block.go:625-635 | both chains get one rule per link at the head, and the count is reported |
| Firewall.Node.RemoveScript | e2e/pkg/framework/drbd_link_block.go:675-702 | both chains are swept and the count that is left reported |
| Firewall.Blockade.Apply | e2e/pkg/framework/drbd_link_block.go:484-507 | succeeds iff nothing else on the node showed the tag |
| Firewall.Blockade.Remove | e2e/pkg/framework/drbd_link_block.go:539-567 | runs once; succeeds, and is remembered, iff no tagged rule is left |
| Firewall.BlockAndRelease | e2e/pkg/framework/drbd_link_block.go:478-567 | on a node without the tag, up to 200 links are blocked and released and both chains are as before |

## Left out

- WriterProtocol.SingleWriter: one controller per run id, boot ids that are present, no pid handed out twice in one tick, and runs up to the purge; the device check of an adopted writer is not modelled.
- WriterProtocol.SignalHitsWriterIff: the start-time check and the kill are one step.
- YamlReader.MarshalReads: numbers are 64-bit integers; fractions and numbers beyond them are left out because float formatting is abstract.
- YamlReader.MarshalInjective: numbers are 64-bit integers.
- YamlReader.LinesEqualIffObjectsEqual: numbers are 64-bit integers.
- ObjectDiff.ReportedIffChanged: numbers are 64-bit integers.
- DiffLoops.UnifiedDiff: output lines carry a kind instead of a prefix character; the context loops do nothing at context zero and are omitted.
- DiffLoops.EmitHunk: takes groups of one opcode, the only ones there are (Diff.GroupsAreSingletons).
- DiffLoops.EmitHunks: takes groups of one opcode, the only ones there are (Diff.GroupsAreSingletons).
- Watches.Debugger.Watch: informers always succeed and the short name of a kind does not change while it is watched.
- Exposition.ExpositionReads: metric and label names are letters, digits, underscores and colons, and no number starts with a brace; error messages and line numbers are not modelled.
- Protobuf.ExtractK8sProtobufMeta: requires no more bytes than a Go slice can hold.
- IdentityWait.AwaitIdentityState: takes the reads made before the deadline as given; time is not modelled.
- Stalls.FinalVerdictCovers: journals of 2^20 lines and more, of which the final read sees only the end.
- Firewall.DeleteTagged: a listing's header lines and line numbers never contain the tag, and every iptables call succeeds.
- Firewall.Blockade.Apply: an insertion that fails half way is not modelled.
- The datamesh transition engine, the scheduler and the controllers: their step logic is not part of this model.
- `Stop` of the debugger, log matching, selection of samples by labels, the spawn retry loop and the final verdict: only easy members would be added.
- The watchdog that lifts a blockade by itself, and removal racing with it.
- YAML breadcrumbs, colours, tables, snapshots and command-line plumbing.
- `hack/debug.go`: repeats the diff, printer and wire reader modelled here.
- Generated code, LINSTOR records, release notes, certificates, backup and cleaner scripts.
