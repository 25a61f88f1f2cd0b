# vitals, modelled and proved in Dafny

`vitals` samples `/proc` on a background thread, turns two samples into a table of rates, evaluates
user-written alert rules on the table, keeps short histories in ring buffers, and prints the result.
This project models its logic and proves what the program promises about it. `dafny verify
dfyconfig.toml` checks everything.

| file | what it models |
|---|---|
| `Rules.dfy`, `Automaton.dfy` | alert rules; the Inactive / Pending / Firing automaton of one rule and one subject, and a description of "firing" that speaks of the observed history only |
| `AlertEngine.dfy`, `EngineTheorems.dfy` | the engine as a class: one mutable map for all subjects, a tick counter, the mark-and-sweep of subjects not seen; that it refines one automaton per subject |
| `Procfs.dfy`, `Delta.dfy`, `SnapshotMeaning.dfy`, `Telescoping.dfy` | samples, `diff`, what every figure of a snapshot says about the two samples, and how rates add back up to counters |
| `Pipeline.dfy` | `diff` feeding the engine: what a rule is evaluated on, identity by (pid, starttime), recycled PIDs, what an active alert says |
| `Ring.dfy` | the ring buffer over a circular array |
| `Sampler.dfy`, `SamplerThread.dfy` | the sampler thread, its readers and the stop flag as a step system; and the thread's loop, statement by statement, with the step system proved to follow it whatever clock, flag and readers do in between |
| `Text.dfy`, `Decimal.dfy`, `PidStatLine.dfy`, `ProcStatText.dfy`, `Units.dfy`, `RuleText.dfy`, `RulePrinting.dfy` | the parsers, and that they undo the formats they read |
| `Json.dfy`, `Report.dfy` | a reader for RFC 8259 sections 2 to 7, and the JSON report |

Floating-point values are exact reals, unsigned counters are naturals, instants and durations are
natural numbers of nanoseconds, strings are sequences of Unicode scalar values. Iteration over a hash
map is any order. The clock, the results of scans, the readers and the stop flag are whatever a run of
the step system says they are.

Each method is proved against a specification function (or predicate) of the same step, and the main
theorems are about that function over whole runs. An engine event is logged together with the subject
it is about, because the event itself only carries a label, and labels can change.

## Where code and documentation differ

The model follows the code.

- `ClearedGone` is documented as "the process exited". It also marks a process that is still there but
  was renamed, or whose I/O has become unreadable: `Pipeline.GoneIsUnavailable` gives the exact condition
  and `Pipeline.GoneWithoutExit` a run in which it happens to a process present in every sample.
- A system rule on a process-only metric is accepted without an error and never evaluated:
  `RulePrinting.AcceptedButNeverShown` says exactly which accepted rules these are.
- Tokens after the clear value are ignored, although any other trailing token is an error:
  `RuleText.ExtraTokens` and `RuleText.TokensBeyondTen`.
- The design notes say that after an overrun the next scan is not queued immediately. It can start at
  once, and only after an overrun: `SamplerThread.OverrunScansBackToBack`. What does hold is that scans
  never start less than an interval apart: `Sampler.ScansArePaced`.
- `human_bytes` prints terabytes and petabytes, which `parse_size` does not read:
  `Units.SizeRoundTrip` holds exactly below 2^40.
- Clearing a ring does not reset its count of pushes: `RingBuffer.Ring.Clear`.

## Model

| member | source | states |
|---|---|---|
| Automaton.FiringTheorem | src/rules.rs:452-528 | for a sane rule and a clock that does not run backwards, an alert is firing if and only if there are ticks j <= s such that the value was observed and breaching at every tick of [j, s], at least the sustain window passed between them, and it was observed past the clear boundary at every tick since s |
| Automaton.SanityIsExact | src/rules.rs:260-268 | the deadband check is not just sufficient: the firing theorem holds for every history if and only if the clear boundary is on the right side of the threshold |
| Automaton.PendingMeaning | src/rules.rs:480-500 | a pending alert remembers the instant its present streak of breaching ticks began |
| Automaton.FiredReport | src/rules.rs:497-510 | a `Fired` event carries the breaching value of its tick, and its `held_for` is the time since the breaching streak began, at least the sustain window |
| Automaton.SignalMarksTheEdge | src/rules.rs:463-525 | for any rule, sane or not, an event is emitted exactly when firing turns on or off; its kind says which, and `ClearedGone` exactly when there was no value |
| Automaton.SignalsAlternate | src/rules.rs:463-525 | along any stretch of any run, from any state, events alternate Fired, cleared, Fired, ..., and the last one says whether the alert is on |
| Automaton.HeldTimesAddUp | src/rules.rs:432-436 | the `held_for` of the clearing events plus the age of a still-firing alert is the total time the alert was on |
| Automaton.FiringsUseDisjointStretches | src/rules.rs:463-511 | the sustain windows spent on the firings so far fit, without overlap, before the instant the state remembers |
| Automaton.SustainBoundsTheRate | src/rules.rs:497-511 | (number of `Fired` events) times the sustain window is at most the length of the run |
| Automaton.OneMovePays | src/rules.rs:452-461 | one tick: the move of the value pays for the crossing of the deadband that an event needs |
| Automaton.DeadbandTheorem | src/rules.rs:452-525 | while a subject stays observed, the total variation of its value is at least (number of events - 1) times the width of the deadband, on any stretch of any run |
| Automaton.NoFlappingInsideTheDeadband | src/rules.rs:456-461 | a value confined to the deadband causes no event and leaves firing as it was |
| Automaton.SignalsSplit | src/rules.rs:463-525 | the events of a history are those of its first part followed by those of the rest from the status the first part ends in, so every run theorem applies to any stretch |
| AlertEngine.Engine.constructor | src/rules.rs:326-328 | a new engine has no states and an empty history |
| AlertEngine.Engine.ActiveCount | src/rules.rs:330-332 | the number of firing subjects |
| AlertEngine.Engine.Active | src/rules.rs:334-350 | a list with one entry for each firing subject and no other, with its rule's name, its label and its age at a clock reading of its own, longest held first |
| AlertEngine.Engine.Step | src/rules.rs:442-530 | one call changes the state of its own subject only, to what that subject's automaton does, and appends that automaton's event, if any |
| AlertEngine.Engine.Sweep | src/rules.rs:417-436 | keeps exactly the subjects seen this tick, and reports `ClearedGone` once for each firing one it drops, in any order |
| AlertEngine.Engine.Evaluate | src/rules.rs:366-439 | the history of calls stays a run: each turn folds `step` over everything the snapshot shows, rule by rule and row by row, and then sweeps |
| AlertEngine.RunIsFresh | src/rules.rs:417-424 | after every tick, every state belongs to an existing rule and was seen at that very tick |
| EngineTheorems.WhoTakesPart | src/rules.rs:382-411 | a rule for processes is shown a row if and only if the row is not new, its name is the rule's pattern or the pattern is a star, and it has the rule's metric; the value is that field of the row and the label its name and PID |
| EngineTheorems.WhatTheSystemShows | src/rules.rs:352-380 | a rule for the system is shown a value if and only if its metric is one of the five of the system; the value is that figure, and the label "system" |
| EngineTheorems.AgendaIsObserved | src/rules.rs:371-412 | with distinct process keys, the loops call `step` for a subject if and only if looking that subject up directly shows a value, and with that value |
| EngineTheorems.EngineRefinesAutomata | src/rules.rs:366-530 | over every run, the state of any subject and the events about it are those of its own automaton fed with what the snapshots showed of it: the shared map is a product of independent automata |
| EngineTheorems.EngineFiringTheorem | src/rules.rs:366-530 | after every run of the engine a subject is active if and only if its observed history justifies it, in the sense of the firing theorem |
| EngineTheorems.EventsOfOneSubject | src/rules.rs:366-530 | over a run of the engine, the events of one subject alternate and end as `active` says, and each firing costs one sustain window of the run's time |
| EngineTheorems.HeldTimesOfOneSubject | src/rules.rs:366-530 | over a run of the engine, the `held_for` of the clearing events about a subject plus the age of its alert is the time the alert was on |
| EngineTheorems.StretchRefines | src/rules.rs:366-530 | the events about a subject in any stretch of a run are those of its automaton there, from the state the map held when the stretch began |
| EngineTheorems.EngineDeadbandTheorem | src/rules.rs:452-525 | in any stretch of any run of the engine in which the snapshots show a subject throughout, the total variation of its value is at least (number of events about it - 1) times the width of the deadband |
| EngineTheorems.RunsGoOn | src/rules.rs:366-439 | any run can go on with any snapshot at any instant: no theorem about runs is empty |
| EngineTheorems.StatesAreObserved | src/rules.rs:417-436 | the map holds only subjects the latest snapshot shows, under the label it shows |
| EngineTheorems.OnSinceItFired | src/rules.rs:488-511 | an alert that is on remembers the instant of its last `Fired` event, and no event has been about its subject since |
| EngineTheorems.OrderDoesNotMatter | src/rules.rs:382-436 | permuting `snap.procs`, or visiting the hash map in another order, changes neither the states nor the multiset of events |
| EngineTheorems.EventsReplayToActiveSet | src/rules.rs:330-332 | replaying all events from the empty set never fires what is on nor clears what is off, and ends in exactly the active set |
| EngineTheorems.EventsBalance | src/rules.rs:330-332 | Fired - Cleared - ClearedGone is the number of active alerts, after every tick |
| EngineTheorems.EventsAreTruthful | src/rules.rs:425-525 | every event names its own rule, metric and subject label, and carries the value that was past the threshold (`Fired`) or not past the clear boundary (`Cleared`); "gone" carries a zero and the last label |
| EngineTheorems.WhoIsNeverShown | src/rules.rs:352-403 | a rule is never evaluated, whatever the snapshots, if and only if its metric does not exist for its target |
| Delta.Diff | src/delta.rs:97-204 | one row for each process of the later sample and no other, each holding that process's rates, the table sorted, and the system rates |
| Delta.SortRows | src/delta.rs:194-201 | a permutation sorted by CPU descending, then resident size descending |
| Delta.NewMeansUnseen | src/delta.rs:149-173 | a row is new exactly when its (pid, starttime) is not in the earlier sample, and a new row claims no CPU and no I/O |
| Delta.FindRowInDiff | src/delta.rs:149-191 | looking a key up in the table finds its row exactly when the later sample has the key |
| Delta.PctInRange | src/delta.rs:81-87 | the percentage is always within [0, 100] |
| Delta.NetRatesIgnoreLoopbackAndOrder | src/delta.rs:119-135 | changing the loopback counters or permuting the interfaces changes no network figure |
| SnapshotMeaning.RowsTellTheSamples | src/delta.rs:149-191 | every row copies the fields of its own process, has resident bytes = resident pages times the page size, is new exactly when the earlier sample lacks its key, and for each of the five counters (user and kernel ticks together, bytes read, written, `rchar`, `wchar`): no rate if it is unreadable now, zero if there was none before, went back, or no time passed, and otherwise rate times nanoseconds = gain times 10^9 |
| SnapshotMeaning.SystemTellsTheSamples | src/delta.rs:97-145 | the same for the system: each figure of its own field, the error counts summed over every interface but the loopback, the three rates from their totals, and the CPU percentage of the host and of each core |
| SnapshotMeaning.RatioIsShare | src/procfs.rs:37-52 | whatever the CPU counters did: zero if the busy or the total time did not grow, 100 if busy grew at least as much as total, and otherwise the percentage times the total delta is 100 times the busy delta, the deltas being sums of the eight and six counted fields |
| SnapshotMeaning.ForwardCpuIsExact | src/delta.rs:102-105 | when the counted fields do not go backwards, 0 <= busy delta <= total delta, they differ by the idle and iowait deltas, and the clamp and both saturating subtractions do nothing |
| SnapshotMeaning.ForwardSystemCpuIsExact | src/delta.rs:102-113 | the same for the aggregate line and for every core both samples have |
| Telescoping.IncrementsCoverTheGain | src/delta.rs:89-94 | saturated increments cover the net gain of a counter, and equal it if and only if it never goes backwards |
| Telescoping.RatesTelescope | src/delta.rs:155-168 | for a process counted in every sample, the sum of rate times seconds (the CPU share in ticks, against user plus kernel ticks, and each of the four I/O rates against its counter) is at least what its counter gained, and equal if and only if the counter never goes backwards |
| Telescoping.HostRatesTelescope | src/delta.rs:119-138 | the same for bytes received and sent outside the loopback and for context switches |
| Pipeline.FedIsDistinct | src/delta.rs:149-192 | `diff` discharges what the engine theorems ask of the snapshots |
| Pipeline.ProcessRuleSees | src/rules.rs:382-403 | from /proc to the value compared: a process rule is shown a (pid, starttime) if and only if both samples have it, its present name is the pattern or the pattern is a star, and the metric exists for processes and is readable; the value then follows from the two samples' own fields |
| Pipeline.SystemRuleSees | src/rules.rs:352-361 | the same for the five metrics of the system |
| Pipeline.StatesAreInBaseline | src/sampler.rs:134-144 | every process the engine keeps state for is a key of the latest baseline sample |
| Pipeline.TrackedIsNeverNew | src/rules.rs:386-389 | so a process with state is never new in the next table |
| Pipeline.MissingMeansInactive | src/delta.rs:150-153 | a (pid, starttime) missing from either of the last two samples has no timer and no alert |
| Pipeline.RecycledPidStartsFresh | src/delta.rs:149-153 | the first tick a (pid, starttime) can be observed, only a zero sustain window can fire, with a zero held time: nothing is inherited from a predecessor under the same PID |
| Pipeline.FiredWasEarned | src/rules.rs:386-510 | a process alert that fires was earned by one (pid, starttime), present in every sample since the streak the event reports began: both samples of the diff, and at least three when there is a sustain window |
| Pipeline.GoneIsUnavailable | src/rules.rs:417-434 | a `ClearedGone` is reported for a process if and only if its alert was on and, in the latest sample, the process is missing, or has a name that is not the pattern when the pattern is not a star, or is unreadable to the metric |
| Pipeline.GoneWithoutExit | src/rules.rs:382-434 | a run that ends in `ClearedGone` about a process that every sample contains, the last included: it only changed its name |
| Pipeline.LabelsNameTheirProcess | src/rules.rs:404-411 | the label of every state is the present name of its process and the PID of its own (pid, starttime) |
| Pipeline.EventsNameTheirProcess | src/rules.rs:404-434 | and so is the subject of every event about a process; "gone" uses the name of the sample before |
| Pipeline.AlertsAreTruthful | src/rules.rs:334-350 | every entry of the active list has its rule's name, "system" or the name and PID its process has in the last sample, and as its age the time from the subject's last `Fired` event to a clock reading taken during the call |
| RingBuffer.Ring.constructor | src/ring.rs:37-42 | an empty ring; capacity zero is raised to one |
| RingBuffer.Ring.Push | src/ring.rs:61-70 | the contents become the last `capacity` values of the old contents followed by the new one; the oldest is returned when full; capacity never changes |
| RingBuffer.Ring.Get | src/ring.rs:73-85 | the slot at (start + i) % capacity holds the i-th oldest live value; none beyond the length |
| RingBuffer.Ring.Newest | src/ring.rs:88-94 | the last of the contents |
| RingBuffer.Ring.Oldest | src/ring.rs:96-98 | the first of the contents |
| RingBuffer.Ring.IterChrono | src/ring.rs:101-103 | exactly the contents, oldest first |
| RingBuffer.Ring.Clear | src/ring.rs:105-111 | empties the ring, keeps its capacity and its count of pushes |
| RingBuffer.WrapIsRemainder | src/ring.rs:64 | going round the array is the machine's remainder, for any index and any capacity |
| RingBuffer.PushHolds | src/ring.rs:61-70 | the representation invariant (not full implies head = len and empty slots beyond; the unrolled array is the last values pushed) survives a push |
| RingBuffer.RecentStep | src/ring.rs:61-70 | the last `capacity` values of a history change by one push exactly as the ring does, and what it evicts is the value that history loses |
| RingBuffer.PushesKeepEverything | src/ring.rs:61-103 | over any number of pushes into an empty ring, the values returned followed by the contents are all values pushed, in order |
| Sampler.ExecutionsKeepInv | src/sampler.rs:127-198 | the invariants of lock, atomicity, counting, stopping, pacing, engine and feed hold in every reachable state of every interleaving |
| Sampler.ReadersSeeWholeCycles | src/sampler.rs:150-174 | whoever can read sees the state after a whole number n of cycles with a turn of the engine: the latest snapshot is that of turn n; the history holds one point for each of the last turns, up to its capacity, with that turn's own percentages, receive and send rates, process count modulo 2^32 and scan microseconds modulo 2^64; the event log holds the last events; the active list has one true entry, in the sense of `AlertsAreTruthful`, for each subject on after turn n, its age read during the last cycle |
| Sampler.WorkHoldsNoLock | src/sampler.rs:130-175 | the write lock is held during the handover and at no other time, and nobody is reading then; `ticks` <= handovers <= `ticks` + 1 |
| Sampler.HandoversDescribeTurns | src/sampler.rs:160-174 | a sequence of handovers amounts exactly to the engine's turns: pushes into the history = ticks of the engine, pushes into the event ring = events emitted |
| Sampler.HandoverShows | src/sampler.rs:150-174 | one handover: a snapshot becomes the latest and its point, field by field, the newest of the history, a cycle without one leaves both alone, and every alert is passed on with its rule, subject and age |
| Sampler.StopIsBounded | src/sampler.rs:127-186 | once the stop flag is up at most one more cycle starts, exactly when the flag went up between the load that found it down and the start of that cycle, and at most one more handover completes |
| Sampler.LateScan | src/sampler.rs:127-131 | there is a run in which a scan starts with the flag already up |
| Sampler.NapsAreShort | src/sampler.rs:183-188 | in every reachable state a sleeping thread is due to wake, and so to look at the flag, within 50 ms, and not after its deadline |
| Sampler.ScansArePaced | src/sampler.rs:177-197 | consecutive cycles start at least an interval apart even after overruns, n scans span at least n - 1 intervals; each measured work time reaches from the start of its own cycle past the listing of its alerts and not beyond the start of the next cycle, and `overruns` counts exactly those that took the interval or longer, but for one not yet counted |
| Sampler.IntervalsAreExact | src/delta.rs:96-98 | in every reachable state, `diff` has always been given the earlier sample first, as it asks, so the interval of every snapshot is the plain difference of its two instants |
| Sampler.SampledAlertsAreJustified | src/sampler.rs:134-144 | in every reachable state, a subject is active if and only if what was sampled justifies it, and a tracked process is in the baseline |
| SamplerThread.Board.constructor | src/sampler.rs:104-110 | the initial shared state |
| SamplerThread.Board.HandOver | src/sampler.rs:160-174 | the locked block does to the shared state exactly what one whole handover of the step system does; the new history point shows its own snapshot and the active list its own alerts, field by field |
| SamplerThread.Thread.Cycle | src/sampler.rs:130-174 | a good scan becomes the baseline and, if there was one, is diffed and evaluated; a failed scan leaves baseline and engine alone; either way the board receives exactly that, with the active alerts, once |
| SamplerThread.Thread.Pass | src/sampler.rs:127-198 | refinement: one pass of the loop, from the load of the flag to the end of the sleep, with any moves of the clock, the flag and the readers between its steps, leaves the step system in a reachable state with the same baseline, engine history, shared state and counters; unless the flag is up it starts exactly one cycle and hands over exactly one outcome, with this scan's error or none, and it ends the loop only if the flag is up |
| SamplerThread.Run | src/sampler.rs:127-198 | and so does any number of passes, in any surroundings, with any results of the scans: while the loop runs, one handover for each |
| SamplerThread.CycleIsAnExecution | src/sampler.rs:130-174 | conversely, from any reachable start of a scan, whoever is reading, any outcome a cycle may compute is handed over by some run |
| SamplerThread.PathsExtendExecutions | src/sampler.rs:127-198 | so the theorems about executions apply to it |
| SamplerThread.OverrunScansBackToBack | src/sampler.rs:177-197 | a run whose second scan starts the moment the work of its first cycle is measured exists if and only if that work took an interval or longer |
| SamplerThread.BackToBackRun | src/sampler.rs:191-196 | such a run, whatever the first scan gave |
| SamplerThread.SleepOut | src/sampler.rs:182-189 | the nap loop terminates; it returns early only for the stop flag, otherwise never before the deadline, and after at most rest / 50 ms, rounded up, naps |
| SamplerThread.PaceCycle | src/sampler.rs:177-197 | unless stopped, the next cycle begins an interval or more after this one; the overrun counter moves exactly when the work took the interval or longer |
| PidStatLine.PidStatRoundTrip | src/procfs.rs:163-188 | for every record in range and every name, spaces and parentheses included, and any further fields free of a closing parenthesis, parsing the printed line gives exactly that record |
| PidStatLine.AcceptedExactly | src/procfs.rs:163-188 | a text is accepted if and only if it falls into a number, a parenthesised name and at least 22 words after its last closing parenthesis, the eight that are read being numbers of their types (the state any word) |
| ProcStatText.ParseProcStat | src/procfs.rs:82-104 | the loop folds the effect of one line over the lines of the file |
| ProcStatText.CpuLineParses | src/procfs.rs:55-70 | any number of columns is read back: the first ten in order, missing ones, words that are no number and numbers beyond 64 bits as zero, further ones ignored |
| ProcStatText.LinesParse | src/procfs.rs:82-104 | for any sequence of aggregate, core, counter and unknown lines, whatever stands where a number is expected and whatever blanks surround a counter, parsing the printed file gives what the lines say, the cores in order |
| Units.HumanBytes | src/units.rs:86-102 | the loop divides down to the unit in which the size is below 1024, or the last unit |
| Units.ScaleCases | src/units.rs:92-96 | which unit a size is printed in, and how much of it, in closed form |
| Units.HumanTextForm | src/units.rs:86-102 | the text of every size: bytes below 1024, else in the largest of five units that does not exceed it, rounded to a tenth below a hundred of them and to a whole number from there |
| Units.SizeRoundTrip | src/units.rs:86-130 | parsing a printed size succeeds if and only if it is below 2^40, and then differs by at most a twentieth plus one byte |
| Units.SizeMeaning | src/units.rs:112-130 | for every printed decimal x and each of the eight endings (none, B, K, KB, M, MB, G, GB), the size read is x times 1, 1024, 1024^2 or 1024^3 bytes, rounded down and capped at 64 bits; nothing if x is negative |
| Units.DurationMeaning | src/units.rs:133-151 | for every printed decimal x, `x` and `xs` are x seconds, `xms` thousandths of one, `xm` minutes and `xh` hours, rounded down to milliseconds and capped; nothing if x is negative |
| Units.SpacingDoesNotMatter | src/units.rs:112-146 | white space before, after and between a number and its unit changes nothing |
| Decimal.ParseRealText | src/rules.rs:153-160 | a decimal survives printing and parsing |
| RuleText.ParseRules | src/rules.rs:162-274 | the loop collects, in line order, the rules and the numbered errors of the lines |
| RuleText.ErrorsPointAtTheirLines | src/rules.rs:166-180 | the errors of a file are exactly the line number, the text and the reason of each refused line |
| RuleText.FirstDefectIsReported | src/rules.rs:182-271 | a line is accepted if and only if it meets thirteen demands on its words, and otherwise refused for the first one it does not meet, with that demand's reason |
| RuleText.BlankLines | src/rules.rs:168-171 | a line counts as blank if and only if there is nothing but white space before its first comment mark |
| RuleText.LayoutDoesNotMatter | src/rules.rs:168-172 | the width and kind of the gaps, white space around a line and a comment after it never change the verdict |
| RuleText.AcceptedIsSane | src/rules.rs:246-271 | every accepted rule has its clear boundary on the right side, so breaching implies still active |
| RuleText.ExtraTokens | src/rules.rs:246-258 | after the eight fields of an accepted line, the line is refused for trailing tokens if and only if they are not `clear` and at least one more; only the first two of them matter |
| RuleText.TokensBeyondTen | src/rules.rs:246-258 | nothing after the tenth token is looked at, on any line |
| RuleText.EveryLineCountsOnce | src/rules.rs:166-271 | every line that is neither blank nor a comment yields exactly one rule or one error, and no other line does |
| RuleText.LinesAreIndependent | src/rules.rs:166-179 | the result of a line does not depend on the other lines, but for its number |
| RuleText.FilesConcatenate | src/rules.rs:162-274 | parsing two files one after the other gives the rules of both, and the errors of both with the second's line numbers shifted |
| RuleText.RuleRoundTrip | src/rules.rs:162-274 | printing a sane rule and parsing the line gives the rule back |
| RuleText.LaidOutRule | src/rules.rs:162-274 | and so does any line that says the rule, in any layout: with either spelling of the metric, a threshold as a number or as a size with any of the endings, a sustain in any of the five units (`for 5s` is 5 seconds), with or without a comment |
| RuleText.FileRoundTrip | src/rules.rs:162-274 | the same for whole files: all rules, in order, and no error |
| RulePrinting.PrintingIsComplete | src/rules.rs:162-274 | a rule is what some line is accepted as if and only if it is sane and printable: the round trip covers every rule the parser can produce |
| RulePrinting.ScientificNotation | src/rules.rs:153-160 | in a number, a plus sign changes nothing and an exponent after `e` or `E`, with or without a plus, is a power of ten |
| RulePrinting.AcceptedButNeverShown | src/rules.rs:205-215 | among the accepted rules, exactly the system rules on process metrics are never evaluated |
| RulePrinting.SuchARuleExists | src/rules.rs:352-361 | and there are such lines |
| Json.NumeralThenRest | src/bin/vitals.rs:279-285 | section 6 of RFC 8259: a number stays the number read, whatever follows it that does not look like more of it |
| Json.QuotedReads | src/bin/vitals.rs:261-277 | decoding an escaped string by section 7 of RFC 8259 gives the string back, for every string |
| Json.TextRoundTrip | src/bin/vitals.rs:287-335 | every JSON value, written compactly, is read back by a reader of sections 2 to 7 of RFC 8259 |
| Json.PrintIsPrintable | src/bin/vitals.rs:261-335 | written JSON holds no control character, so no line break |
| Report.JStr | src/bin/vitals.rs:261-277 | the loop writes the escaped string |
| Report.ThreeDecimals | src/bin/vitals.rs:279-285 | a finite number is written as its sign, an integer part, a point and three digits, together the nearest thousandth |
| Report.NumberSurvives | src/bin/vitals.rs:279-285 | a number printed with three decimals is read back within half a thousandth |
| Report.IntSurvives | src/bin/vitals.rs:295-319 | an integer is read back exactly |
| Report.RenderJson | src/bin/vitals.rs:287-335 | the text is the compact form of one JSON object with the system, the first `top` processes and the active alerts of the shared state, in order |
| Report.ReportIsReadable | src/bin/vitals.rs:287-335 | whatever the names hold, the report is one well-formed JSON text on one line, from which the system figures, every listed process (pid, name and the rest) and every alert can be read back |
| Report.ReportsShowWholeCycles | src/bin/vitals.rs:106-114 | a report made under the read lock, at any moment of any run of the sampler, shows the last snapshot of a whole number of engine turns, and one true entry for each alert that was on after those very turns |
| Report.SystemRulesMatchTheReport | src/rules.rs:352-361 | reading the report recovers, under the name of a metric, the value a system rule on that metric is evaluated on |
| Report.ProcessRulesMatchTheReport | src/rules.rs:390-403 | and, in the row of each listed process, the value a process rule is evaluated on |

## Left out

- Rounding, overflow, NaN and the infinities of `f64`: values are exact reals. In particular the
  tokens `inf`, `infinity` and `nan`, which Rust's number parser accepts in a rule file, are rejected
  here; `Report.JNum` alone has a case for a number that is not finite.
- Overflow of unsaturated 64-bit sums (`CpuTimes.Total`, process ticks, network sums, the push and
  tick counters): they are unbounded naturals. The casts that truncate in a history point and that
  saturate in `parse_size` and `parse_duration` are modelled.
- Thread creation and joining, lock poisoning and relaxed atomics: the lock is ideal, and each load and
  store of the flag and the counters is one step.
- Ties: the order of equal rows in the table and of equal ages in the active list is left open, as is
  the order of `ClearedGone` events within a tick.
- `Delta.Insert`: stands for the library's sort; its stability is not modelled, since the rows come from a hash map.
- Error texts: a rule error carries its line number, its line and one of thirteen reasons; its wording,
  and that of a failed scan, is not modelled.
- The text rendering, sparklines, colours, `human_rate` and command-line arguments: user interface.
- Reading files and directories, permissions, vanished processes, socket counting, and the parsers of
  meminfo, net/dev, pid/io, net/tcp and the auxiliary vector: a sample is data, and these would only
  add simple column lookups.
- Clock ticks per second and page size are positive constants.
