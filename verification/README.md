# A verified model of the monitoring framework

The monitoring framework runs an agent on each node. The agent reads an INI file, loads its
plugins, samples them in one thread each and sends the results in bulks to a server. A user
library samples single processes and publishes data files, and a ventilation simulator is the
sample application that is monitored. This project models the parts that carry state or
arithmetic of their own, in Dafny, and proves what they are for. `dafny verify dfyconfig.toml`
checks all of it.

Code that works in place is modelled in place (character buffers and value tables are arrays,
plugins, branches and stores are classes); each such method is proved equal to a function, and
the theorems are about the functions.

- `CString.dfy`, `Ini.dfy`: NUL-terminated strings in buffers, and the INI reader with its
  200-character line buffer and two 50-character name buffers. A pointer is an index, and every
  access is proved in range. `IniLines.dfy` says what single lines mean in any layout,
  `IniTheorems.dfy` proves the round trip of whole files, `IniEdits.dfy` that meaningless lines do
  not matter and that the result is the first malformed line.
- `Lines.dfy`: when the pieces `fgets` delivers are the lines of a text.
- `ConfigStore.dfy`: the two-level store filled from the reader's events.
- `Solver.dfy`, `Network.dfy`, `Conservation.dfy`, `BranchEnergy.dfy`: the ventilation simulator,
  its in-place loops, its conservation law over whole runs, its reflection symmetry and the exact
  energy balance of its Euler step. `Sums.dfy` has the finite
  sums the law needs.
- `Publisher.dfy`: the ten-line batches of `publish_file` and the capacity of its buffer.
- `Plugins.dfy`, `Bulk.dfy`, `Shutdown.dfy`, `ShutdownTrace.dfy`: discovery and registration, one
  plugin thread, the shutdown protocol over all interleavings with its termination, and the exact
  log of every run. `Rendering.dfy` places items in bracketed lists.
- `Search.dfy`, `ParameterScanner.dfy`: `strstr`, and the scanner that inverts the printer of
  the server's parameters.
- `SysPower.dfy` with `SysPowerLaws.dfy`, `RaplPower.dfy`, `BoardPower.dfy` with `BoardRuns.dfy`, `PowerMonitor.dfy`: four
  sampling accumulators. `Unsigned.dfy` is 64-bit arithmetic, `Wrappers.dfy` an option type.

What the environment supplies is a parameter: file texts, directory listings, results of loading
a library, hook results, outcomes of posts, counter readings and the clock. Floating-point
numbers are exact reals; where the code divides or wraps integers, so does the model.

Places where the code does something other than what its comments or names say are kept as they
are, and the exact condition under which it does what is meant is proved.

- The hook table matches the plugin names if and only if every library that is tried registers
  one hook when its init function succeeds and none when it fails.
- A published file's lines are its own if and only if it holds no NUL, ends in a newline and has
  no line of more than 318 characters. An unterminated tail loses its last character, and a
  longer line is split, loses a character and may leave an empty record.
- The 3200-character message suffices if and only if each group of ten lines needs less.
- A message is a lone `]` instead of an array if and only if every hook call of its round
  returned NULL.
- A library opened is closed again if and only if it has its init function.
- The RAPL walk ends at the end of its table if and only if the last known metric asked for is not
  `total_power` or the slot behind the table does not mention `dram_power`. The table is allocated
  without being cleared, so with `total_power` last that slot is a stale one; if it does mention
  it, the walk fills one more block behind the table.
- A RAPL slot holds the power its name promises if and only if its metric comes there for the
  first time or its energy did not move.
- A Board_power report is about the buffers of its own call if and only if nothing was left over
  from a call that failed.
- Whole lines can be inserted anywhere in an INI file without harm if and only if the reader takes
  each of their pieces of 199 characters for a blank or a comment line. A longer comment line need
  not be one: its tail is read as a line of its own.
- Of a compact response with distinct names and quoted values made of digits and dots, the scan
  succeeds if and only if every value has at most 15 characters.
- A commented entry `n = v ;c` is read as that pair if and only if there is a value; without one the
  comment becomes the value.
- The accessor `getB` returns A, so the laws of the solver are stated for any friction
  coefficient. The outlet flow is read one position past the last cell; that reading is the input
  `past`, and the conservation law has a version for any reading and one for the reading meant.

## Model

| member | source | states |
|---|---|---|
| CString.RStrip | src/parser/libs/ini/ini.c:24-30 | writing NULs from the end leaves exactly the string without its trailing blanks, and touches nothing else |
| CString.LSkip | src/parser/libs/ini/ini.c:33-38 | the returned pointer is the string without its leading blanks, still inside the buffer |
| CString.FindCharOrComment | src/parser/libs/ini/ini.c:43-51 | stops at the first wanted character or at the first `;` after a blank, never past the NUL |
| CString.FindIs | src/parser/libs/ini/ini.c:43-51 | the search result is characterised by being the first stop |
| CString.TrimRightIs | src/parser/libs/ini/ini.c:24-30 | the trimmed text is the one prefix that ends in no blank and cuts only blanks |
| CString.CutText | src/parser/libs/ini/ini.c:119-140 | a NUL written at the stop of a search splits the text into the part before and the part after |
| CString.StrNCpy0 | src/parser/libs/ini/ini.c:54-59 | the destination ends up terminated and holds the text, truncated to fit |
| CString.Fgets | src/parser/libs/ini/ini.c:91 | one read takes up to a newline or to the room of the buffer |
| CString.ChunksOfLines | src/parser/libs/ini/ini.c:91 | text made of whole short lines is read back as those lines, whatever follows |
| Lines.ChunksConcat | src/parser/libs/ini/ini.c:91 | reading in pieces loses and repeats nothing |
| Lines.ChunksAreLinesIff | src/publisher/src/publisher.c:133 | every read takes a whole line if and only if the text ends in a newline and no line is too long for the buffer |
| Ini.Reader.ParseSection | src/parser/libs/ini/ini.c:115-127 | the in-place section branch: new truncated section and no continuation name, or the first error |
| Ini.Reader.SplitPair | src/parser/libs/ini/ini.c:130-141 | in-place cuts leave a trimmed name and a trimmed, uncommented value as two strings in one buffer |
| Ini.Reader.ParsePair | src/parser/libs/ini/ini.c:128-152 | the pair branch: continuation name, event and error |
| Ini.Reader.Strip | src/parser/libs/ini/ini.c:94-102 | the byte-order mark and outer blanks are skipped; the pointer moves exactly when the line counts as indented |
| Ini.Reader.ParseLine | src/parser/libs/ini/ini.c:92-152 | the whole loop body refines the line function on strings: same events, section, continuation name and error |
| Ini.ParseFile | src/parser/libs/ini/ini.c:62-165 | the whole reader, lines longer than its buffer included, refines the function on file texts |
| IniLines.EntryReadsBackIff | src/parser/libs/ini/ini.c:104-152 | `name = value` is read back as that pair if and only if name and value are readable |
| IniLines.LaidOutEntry | src/parser/libs/ini/ini.c:128-152 | with any blanks, either separator and any comment behind it, a readable entry comes back as its name and value in every state |
| IniLines.CommentedReadsBackIff | src/parser/libs/ini/ini.c:137-141 | an entry with a comment comes back if and only if its value is not empty |
| IniLines.EmptyValueKeepsComment | src/parser/libs/ini/ini.c:137-141 | without a value the comment is read as one |
| IniLines.HeaderRead | src/parser/libs/ini/ini.c:115-122 | a header begins its section, the first 49 characters of the title, whatever stands behind the bracket |
| IniLines.ContinuationRead | src/parser/libs/ini/ini.c:108-113 | an indented line is one more value of the name before it |
| IniLines.NameContinued | src/parser/libs/ini/ini.c:144 | that name is the entry's first 49 characters |
| IniLines.MissingSeparator | src/parser/libs/ini/ini.c:148-151 | a line without separator is an error with its own number |
| IniLines.UnclosedSection | src/parser/libs/ini/ini.c:123-126 | so is a section without its bracket |
| IniLines.RejectedEntry | src/parser/libs/ini/ini.c:145-146 | and an entry its handler rejects |
| IniTheorems.RoundTrip | src/parser/libs/ini/ini.c:62-165 | a well-formed configuration printed in any layout, comments included, is read with error 0 as its entries in order |
| IniEdits.ChunksSplit | src/parser/libs/ini/ini.c:91 | reading in pieces of 199 characters respects every line boundary |
| IniEdits.InsertIgnoredText | src/parser/libs/ini/ini.c:102-152 | whole lines whose pieces are blank or comment lines, inserted at any boundary, change no event and only shift the errors behind them |
| IniEdits.InsertIgnoredLines | src/parser/libs/ini/ini.c:102-152 | so it is for blank and comment lines that fit the line buffer |
| IniEdits.HarmlessIff | src/parser/libs/ini/ini.c:91-152 | no other whole lines can be inserted everywhere without harm |
| IniEdits.LongCommentIsRead | src/parser/libs/ini/ini.c:91-106 | a comment of more than 199 characters whose tail becomes a setting |
| IniEdits.BomIsSkipped | src/parser/libs/ini/ini.c:95-101 | a byte-order mark in front of a first line that fits beside it changes nothing |
| IniEdits.FirstError | src/parser/libs/ini/ini.h:29-31 | 0 if and only if no line is malformed, otherwise the least malformed line number |
| IniEdits.ReadingGoesOn | src/parser/libs/ini/ini.h:29-31 | an error changes nothing of what is read afterwards |
| ConfigStore.Store.Parse | src/parser/src/mf_parser.c:43-60 | the new store depends on the file alone, never on the old store; an unreadable file leaves it empty |
| ConfigStore.Store.SetValue | src/parser/src/mf_parser.c:71-87 | sets one key of one section; nothing happens before the first parse |
| ConfigStore.Store.GetValue | src/parser/src/mf_parser.c:90-108 | the stored value, or the caller's buffer as it was |
| ConfigStore.Store.GetDataFiltered | src/parser/src/mf_parser.c:111-146 | exactly the keys whose value passes the filter, each once |
| ConfigStore.LookupFindsLast | src/parser/src/mf_parser.c:71-87 | a lookup gives the value of the last event for that section and key |
| ConfigStore.LookupIsLast | src/parser/src/mf_parser.c:71-87 | a lookup finds a value if and only if the last event for that section and key has it |
| ConfigStore.LastValueIs | src/parser/src/mf_parser.c:90-108 | that value belongs to an event, and is missing exactly when there is none |
| ConfigStore.TableRoundTrip | src/parser/src/mf_parser.c:43-87 | any well-formed table, printed in any order and layout and parsed, is rebuilt exactly with result 0 |
| ConfigStore.Printable | src/parser/src/mf_parser.c:71-87 | every well-formed table has such a printed form |
| Solver.SimulateBranch | src/api/app_alexy/Solver.h:57-70 | the two in-place loops are a simultaneous flow update followed by a simultaneous interior pressure update |
| Solver.StepMirrors | src/api/app_alexy/Solver.h:62-70 | reversing a branch commutes with a step |
| Solver.RunMirrors | src/api/app_alexy/Solver.h:62-70 | and with any run, whatever pressures drive the two ends |
| Solver.DriveFollowsPressure | src/api/app_alexy/Solver.h:63-66 | a cell at rest starts to flow from the higher to the lower pressure, in proportion |
| Solver.FrictionOpposesFlow | src/api/app_alexy/Solver.h:63-66 | friction takes the square of a flow off it, whichever way it goes |
| BranchEnergy.EnergyBalance | src/api/app_alexy/Solver.h:57-70 | one step changes a quadratic energy by exactly the work at the two ends less the loss by friction, for any number of cells |
| BranchEnergy.FrictionlessKeepsEnergy | src/api/app_alexy/Solver.h:57-70 | so a frictionless branch between ends without pressure keeps it for ever |
| Network.Branch.constructor | src/api/app_alexy/Elements.h:166-180 | a branch starts with all its cells at zero |
| Network.Branch.SimulateBranchFlow | src/api/app_alexy/Elements.h:182-195 | a branch object makes the solver's step on its own arrays |
| Network.Vertex.ComputeVertexPressure | src/api/app_alexy/Elements.h:270-275 | pressure grows by the gathered flow over the step |
| Network.Simulation.constructor | src/api/app_alexy/Ventilation_2D_compbased.cpp:38-131 | the objects built share no state and hold the initial network |
| Network.Simulation.PropagateBoundary | src/api/app_alexy/Ventilation_2D_compbased.cpp:143-150 | the nested loops write each branch the pressures the incidence matrix names, the last writer winning |
| Network.Simulation.SimulateBranches | src/api/app_alexy/Ventilation_2D_compbased.cpp:155-157 | stepping the branches one after another steps each exactly once |
| Network.Simulation.GatherFlows | src/api/app_alexy/Ventilation_2D_compbased.cpp:159-207 | internal vertexes gather what enters minus what leaves; external ones keep what they had |
| Network.Simulation.SimulationLoop | src/api/app_alexy/Ventilation_2D_compbased.cpp:133-213 | one turn over the objects refines the step on values |
| Conservation.RunLoops | src/api/app_alexy/Ventilation_2D_compbased.cpp:253-259 | the program's loop over the objects is a run over values, so the laws below are about it |
| Conservation.Telescope | src/api/app_alexy/Solver.h:67-70 | interior pressures gain what the first flow brings minus what the last takes |
| Conservation.BranchGain | src/api/app_alexy/Solver.h:63-70 | so does a branch in a network, whatever its friction and its ends |
| Conservation.VertexGain | src/api/app_alexy/Elements.h:270-275 | the internal vertexes together gain what the branches hand over |
| Conservation.ColumnSum | src/api/app_alexy/Ventilation_2D_compbased.cpp:172-199 | summed over the internal vertexes, a branch hands over its outlet reading and takes its first flow |
| Conservation.StepConserves | src/api/app_alexy/Ventilation_2D_compbased.cpp:133-213 | one turn changes the total content by exactly the external flows and the error of the outlet readings |
| Conservation.RunConserves | src/api/app_alexy/Ventilation_2D_compbased.cpp:253-259 | the same over any number of turns |
| Conservation.ExactRunConserves | src/api/app_alexy/Ventilation_2D_compbased.cpp:253-259 | when outlets read the last flow only flows across external vertexes remain |
| Conservation.ClosedNetworkConserves | src/api/app_alexy/Ventilation_2D_compbased.cpp:253-259 | a network without external vertexes keeps its total for ever |
| Conservation.EndsPropagated | src/api/app_alexy/Ventilation_2D_compbased.cpp:143-150 | after propagation a branch carries the pressures of its own two vertexes at its ends |
| Conservation.ExternalPressuresStay | src/api/app_alexy/Ventilation_2D_compbased.cpp:159-212 | external vertexes never change their pressure |
| Conservation.ExternalPressuresAsBuilt | src/api/app_alexy/Elements.h:251-256 | and so show the value they were built with all through a run |
| Conservation.TestNetIsIncidence | src/api/app_alexy/Ventilation_2D_compbased.cpp:38-59 | the program's own matrix is an incidence matrix, so every law applies to it |
| Publisher.ReadLine | src/publisher/src/publisher.c:133-134 | the next line without its last character |
| Publisher.AddLine | src/publisher/src/publisher.c:135-159 | the switch: a line joins the batch in the buffer, the tenth closes and posts it |
| Publisher.PublishFile | src/publisher/src/publisher.c:106-177 | the posted bodies are the lines in groups of ten; when post k fails exactly the earlier ones were delivered and the result is FAILED |
| Publisher.BatchesOfTen | src/publisher/src/publisher.c:132-173 | body g holds lines 10g to 10g + 9, only the last is shorter, none is empty |
| Publisher.LinesReadBack | src/publisher/src/publisher.c:133-134 | newline-terminated lines of up to 318 characters are read as written; an unterminated tail loses one character |
| Publisher.ReadAsWrittenIff | src/publisher/src/publisher.c:133-134 | for every file: the lines published are its own if and only if it holds no NUL, ends in a newline and has no line of more than 318 characters |
| Publisher.LongLineSplits | src/publisher/src/publisher.c:133-134 | every line of 319 characters is published as one that lost a character and an empty one |
| Publisher.LineInBody | src/publisher/src/publisher.c:135-163 | every line of a batch stands in its body, at its place and in its record |
| Publisher.BodyWidth | src/publisher/src/publisher.c:135-163 | the exact length of a posted body |
| Publisher.FitsIff | src/publisher/src/publisher.c:115 | the message buffer suffices if and only if each group of ten lines, and the last, needs less than its 3200 characters |
| Publisher.ShortLinesFit | src/publisher/src/publisher.c:115 | with at most 314 characters for the fixed text and a line the buffer never overflows |
| Publisher.LongerLinesOverflow | src/publisher/src/publisher.c:115 | and with a group of ten lines of 315 it does |
| Plugins.LibraryNames | src/agent/plugin_discover.c:71-79 | a plugin's name is what stands between the last slash and `.so` |
| Plugins.TriedIff | src/agent/plugin_discover.c:76-91 | a directory entry is tried if and only if it ends in `.so` and the last setting for its name, if any, is not `off` |
| Plugins.RunAgent | src/agent/thread_handler.c:73-117 | from the text of the configuration file to the end: exactly those libraries are opened |
| Plugins.LoadedEntries | src/agent/plugin_discover.c:70-110 | loaded are exactly the libraries not switched off whose init function succeeds, in listing order |
| Plugins.QueueIsAligned | src/agent/plugin_manager.c:38-47 | the queue holds one hook for each loaded plugin, in order, if and only if every library tried registers one hook on success and none on failure |
| Plugins.FailingPluginShifts | src/agent/plugin_discover.c:164-169 | a concrete pair of plugins that breaks this and shifts the table |
| Plugins.PluginManager.GetHook | src/agent/plugin_manager.c:50-66 | the oldest registered hook, or none |
| Plugins.Discovery.LoadPlugin | src/agent/plugin_discover.c:140-173 | what each way of failing leaves behind: hooks registered, library open or closed |
| Plugins.Discovery.DiscoverPlugins | src/agent/plugin_discover.c:58-120 | count, name table, handle list and hook queue all describe the same plugins after the scan |
| Plugins.Discovery.TakeHooks | src/agent/thread_handler.c:87-90 | each plugin gets the next hook, NULL once the queue is empty, and the rest stays in the queue |
| Plugins.Discovery.CleanupPlugins | src/agent/plugin_discover.c:123-135 | closes each loaded library once, the latest first |
| Plugins.Discovery.StartPlugins | src/agent/thread_handler.c:87-90 | whatever fails, count, names and handles agree; `hooks[t]` is the one hook of the plugin named by `plugins_name[t]`, with none left over, if and only if the plugins behave |
| Plugins.Discovery.RunPlugins | src/agent/thread_handler.c:73-117 | from discovery to clean-up each library opened is closed exactly once if and only if it has its init function, and no other is closed |
| Plugins.OpenedAndClosed | src/agent/plugin_discover.c:140-173 | after any part of the scan, each library opened with its init function is closed at once or in the handle list, exactly once |
| Plugins.MissingInitStaysOpen | src/agent/plugin_discover.c:155-160 | a library without its init function is opened and left open |
| Bulk.RoundEnds | src/agent/thread_handler.c:176-189 | a bulk ends early exactly at its first interrupted sleep |
| Bulk.FillBulk | src/agent/thread_handler.c:176-189 | the buffer holds the bulk's results in order and is large enough |
| Bulk.CloseBulk | src/agent/thread_handler.c:190-191 | overwriting the last character closes the array |
| Bulk.GatherMetric | src/agent/thread_handler.c:159-203 | the messages a thread publishes are the bulks of its run |
| Bulk.ObjectOf | src/agent/thread_handler.c:178-182 | each result that is not NULL becomes one object, behind the fixed text and closed by a brace |
| Bulk.ResultInMessage | src/agent/thread_handler.c:174-197 | the result of turn k of round r stands in message r, at its place |
| Bulk.NothingLost | src/agent/thread_handler.c:174-197 | every result that is not NULL is in exactly one bulk, in order, also after interrupted sleeps |
| Bulk.BulksAreBounded | src/agent/thread_handler.c:176 | no bulk exceeds the configured size |
| Bulk.EmptyBulkIsNoArray | src/agent/thread_handler.c:190 | message r of a run is a lone `]` if and only if every hook call of its round returned NULL |
| Bulk.SilentPlugin | src/agent/thread_handler.c:174-197 | a plugin that never has a result publishes only such messages |
| Bulk.RoomIs | src/agent/thread_handler.c:166-168 | the exact length of a message the two buffers allow |
| Shutdown.Kept | src/agent/thread_handler.c:92-121 | every step of the main thread, the signal handler and the plugin threads keeps the invariant |
| Shutdown.ShutdownIsSafe | src/agent/thread_handler.c:109-117 | in every run no hook is called and nothing is published once the clean-up has begun, and libraries are closed only then |
| Shutdown.FewAfterStop | src/agent/thread_handler.c:174-197 | after the signal each plugin thread publishes at most once more and calls its hook at most `bulk_size` times |
| ShutdownTrace.StepStands | src/agent/thread_handler.c:174-197 | every step keeps a thread's part of the log what its place and its sleeps say |
| ShutdownTrace.RunIsTraced | src/agent/thread_handler.c:174-197 | in every run a thread's part of the log is exactly its bulks: one message each, after one hook call for each turn, of the lengths its interrupted sleeps give |
| ShutdownTrace.ExitedThreadPublished | src/agent/thread_handler.c:174-202 | once it has exited it has made whole bulks and nothing else |
| ShutdownTrace.QuietBulksAreFull | src/agent/thread_handler.c:176 | without interruptions every bulk has `bulk_size` calls |
| ShutdownTrace.MainIsTraced | src/agent/thread_handler.c:109-117 | the clean-up is logged once, each library closed once and in order, and every signal |
| Shutdown.StepsRunOut | src/agent/thread_handler.c:109-121 | after the signal every step but another signal brings the end nearer |
| Shutdown.ShutdownEnds | src/agent/thread_handler.c:109-121 | so every schedule is finite, repeated signals apart |
| Shutdown.NeverStuck | src/agent/thread_handler.c:109-121 | and none is stuck before the main thread is done |
| Shutdown.WorkIsBounded | src/agent/thread_handler.c:174-197 | the bound on the steps that are left, in numbers |
| ParameterScanner.GetConfigParameters | src/api/src/mf_api.c:274-316 | which slots are written with which texts, and where the scan stops |
| ParameterScanner.FindValue | src/api/src/mf_api.c:295-306 | the pointers and the length of one name's value |
| ParameterScanner.NamesApart | src/api/src/mf_api.c:26-29 | no parameter name occurs inside another |
| ParameterScanner.ScanInvertsPrint | src/api/src/mf_api.c:285-309 | in a printed response, in any order and with any names missing, the scan finds exactly the printed values |
| ParameterScanner.ScanSucceedsIff | src/api/src/mf_api.c:292-309 | of a printed response the whole scan succeeds if and only if every value has at most 15 characters |
| ParameterScanner.SixteenCharacters | src/api/src/mf_api.c:292-307 | every value of 16 characters makes it fail |
| SysPower.OrBit | src/plugins/Linux_sys_power/src/mf_Linux_sys_power_connector.c:360-361 | setting a metric's bit adds that metric and no other |
| SysPower.LinuxSysPower.FlagInit | src/plugins/Linux_sys_power/src/mf_Linux_sys_power_connector.c:352-376 | the flag holds exactly the known names asked for; failure if and only if there is none |
| SysPower.LinuxSysPower.Init | src/plugins/Linux_sys_power/src/mf_Linux_sys_power_connector.c:128-216 | the name table follows the flag and every counter it needs has its baseline |
| SysPower.LinuxSysPower.Sample | src/plugins/Linux_sys_power/src/mf_Linux_sys_power_connector.c:222-312 | both branches fill the same table with each metric's own power and move every baseline once |
| SysPower.LinuxSysPower.SampleIo | src/plugins/Linux_sys_power/src/mf_Linux_sys_power_connector.c:293-306 | memory is computed before the disk baseline moves |
| SysPower.LinuxSysPower.SampleRun | src/agent/thread_handler.c:174-189 | over a run of samples the powers of each slot times their intervals add up to the energy sum of its metric, which the following laws are about |
| SysPower.LinuxSysPower.ToJson | src/plugins/Linux_sys_power/src/mf_Linux_sys_power_connector.c:333-347 | what is printed, in table order |
| SysPower.ReportIsExact | src/plugins/Linux_sys_power/src/mf_Linux_sys_power_connector.c:333-347 | printed are exactly the metrics asked for whose power is not negative |
| SysPower.EachNameOnce | src/plugins/Linux_sys_power/src/mf_Linux_sys_power_connector.c:333-347 | and no name is printed twice |
| SysPower.MetricIndependence | src/plugins/Linux_sys_power/src/mf_Linux_sys_power_connector.c:222-312 | the value reported for a metric does not depend on what else is asked for |
| SysPower.ReportedTotalIsSum | src/plugins/Linux_sys_power/src/mf_Linux_sys_power_connector.c:259-260 | a printed total is the sum of the four printed components, whichever configurations print them |
| SysPower.DiskEnergyAddsUp | src/plugins/Linux_sys_power/src/mf_Linux_sys_power_connector.c:496-510 | disk energies of a run sum to the energy from its first to its last counters |
| SysPower.NetEnergyAddsUp | src/plugins/Linux_sys_power/src/mf_Linux_sys_power_connector.c:479-493 | so do network energies |
| SysPower.RoundingLoss | src/plugins/Linux_sys_power/src/mf_Linux_sys_power_connector.c:251-253 | over n samples rounding loses at most n - 1 cache lines and never gains one |
| SysPower.MemoryEnergyLoss | src/plugins/Linux_sys_power/src/mf_Linux_sys_power_connector.c:293-305 | the same bound on the memory energy itself |
| SysPower.TotalEnergyLoss | src/plugins/Linux_sys_power/src/mf_Linux_sys_power_connector.c:259-260 | so the totals reported over a run miss the total between its ends by at most that |
| SysPowerLaws.DiskPrice | src/plugins/Linux_sys_power/src/mf_Linux_sys_power_connector.c:496-510 | over a run each kilobyte read costs 0.0556 mJ and each written 0.0438 mJ |
| SysPowerLaws.NetPrice | src/plugins/Linux_sys_power/src/mf_Linux_sys_power_connector.c:479-493 | and each received and sent its own price |
| SysPowerLaws.MemoryPriceOf | src/plugins/Linux_sys_power/src/mf_Linux_sys_power_connector.c:251-252 | 6.688 nJ for each access, counted misses and 256-byte lines of disk traffic |
| SysPowerLaws.PrintedInFull | src/plugins/Linux_sys_power/src/mf_Linux_sys_power_connector.c:222-347 | a name is printed with a value if and only if it is asked for, it is one of the five, and the value is its price over the interval and not negative |
| SysPowerLaws.FirstReport | src/plugins/Linux_sys_power/src/mf_Linux_sys_power_connector.c:128-347 | so says the plugin from its configuration to its first report |
| SysPowerLaws.TableOrder | src/plugins/Linux_sys_power/src/mf_Linux_sys_power_connector.c:138-206 | the order of the table |
| RaplPower.NamesDiffer | src/plugins/RAPL_power/src/mf_RAPL_power_connector.c:181-194 | different slots have different names |
| RaplPower.DomainsOfMore | src/plugins/RAPL_power/src/mf_RAPL_power_connector.c:180-195 | which names ask for a block |
| RaplPower.NameTellsDomain | src/plugins/RAPL_power/src/mf_RAPL_power_connector.c:91-98 | the substring test recognises a slot's own metric and not the other one |
| RaplPower.SlotsAre | src/plugins/RAPL_power/src/mf_RAPL_power_connector.c:179-196 | the table has a whole block for each metric and names only real sockets |
| RaplPower.RaplPlugin.Init | src/plugins/RAPL_power/src/mf_RAPL_power_connector.c:56-70 | set up if and only if counters, sockets and known metrics are there, with baselines at the first reading |
| RaplPower.RaplPlugin.RaplInit | src/plugins/RAPL_power/src/mf_RAPL_power_connector.c:179-196 | lays the table out in blocks and leaves the slots behind it as they were |
| RaplPower.RaplPlugin.WalkIf | src/plugins/RAPL_power/src/mf_RAPL_power_connector.c:91-104 | from one block boundary to the next, or nothing |
| RaplPower.RaplPlugin.Turn | src/plugins/RAPL_power/src/mf_RAPL_power_connector.c:90-105 | one turn advances, and only past the table's end is it done |
| RaplPower.RaplPlugin.Sample | src/plugins/RAPL_power/src/mf_RAPL_power_connector.c:76-110 | whatever the slot behind the table holds: the walk ends at the table's end if and only if `Stops` holds, otherwise one block behind it, always stands at a block boundary and fills every slot |
| RaplPower.AlwaysStopsIff | src/plugins/RAPL_power/src/mf_RAPL_power_connector.c:98 | a configuration keeps the walk inside its table whatever is behind it if and only if its last known metric is not `total_power` |
| RaplPower.StaleNameOverruns | src/plugins/RAPL_power/src/mf_RAPL_power_connector.c:98 | `total_power` alone with a stale name behind it does not |
| RaplPower.OverrunsTable | src/plugins/RAPL_power/src/mf_RAPL_power_connector.c:90-105 | that run on the objects: it ends one block behind the table |
| RaplPower.ValuesAreAligned | src/plugins/RAPL_power/src/mf_RAPL_power_connector.c:89-105 | with distinct metrics each slot holds the power of the socket and domain its name gives |
| RaplPower.AlignedIff | src/plugins/RAPL_power/src/mf_RAPL_power_connector.c:89-105 | in general a slot does so if and only if its metric comes first there or its energy did not move |
| RaplPower.RepeatedMetricShowsNothing | src/plugins/RAPL_power/src/mf_RAPL_power_connector.c:92-96 | the second block of a metric asked for twice reads zero |
| BoardPower.ValueIsMean | src/plugins/Board_power/src/mf_Board_power_connector.c:316-334 | after every prefix of a stream in step each channel holds the mean of its absolute samples |
| BoardPower.ScansAreInStep | src/plugins/Board_power/src/mf_Board_power_connector.c:325-331 | scans that begin with channel 0 are such streams, unfinished scans included |
| BoardPower.FindIsFirst | src/plugins/Board_power/src/mf_Board_power_connector.c:291-305 | the search finds the first channel, device by device, with the label |
| BoardPower.ReportIsScaledMean | src/plugins/Board_power/src/mf_Board_power_connector.c:368-388 | an event reports the mean times the scale of that channel |
| BoardPower.Board.PrintSample | src/plugins/Board_power/src/mf_Board_power_connector.c:316-334 | the in-place update follows the stream of samples |
| BoardPower.Board.CreateEventSets | src/plugins/Board_power/src/mf_Board_power_connector.c:285-312 | accepts the events if and only if every one is some channel's label |
| BoardPower.Board.Filter | src/plugins/Board_power/src/mf_Board_power_connector.c:368-388 | every event gets its channel's report, unknown ones keep their value |
| BoardPower.Board.ResetMyChannelsValue | src/plugins/Board_power/src/mf_Board_power_connector.c:391-401 | all channels are as if nothing had been sampled |
| BoardPower.Board.SampleAll | src/plugins/Board_power/src/mf_Board_power_connector.c:87-106 | a call reports what it read and leaves nothing; a buffer that cannot be refilled ends it, reports nothing and leaves what was read |
| BoardRuns.SampleCalls | src/plugins/Board_power/src/mf_Board_power_connector.c:87-106 | over any run of calls, which samples each report is about |
| BoardRuns.OwnBuffersIff | src/plugins/Board_power/src/mf_Board_power_connector.c:91-105 | a report is about its own buffers if and only if nothing was left over |
| BoardRuns.ReportsAreIndependent | src/plugins/Board_power/src/mf_Board_power_connector.c:91-105 | so it is after a successful call |
| BoardRuns.FailedCallMixes | src/plugins/Board_power/src/mf_Board_power_connector.c:93-96 | after a failed one it mixes two buffers |
| BoardRuns.RunReportsMeans | src/plugins/Board_power/src/mf_Board_power_connector.c:87-106 | with buffers of whole scans every report of a run is the scaled mean of the samples since the last successful call |
| PowerMonitor.CpuEnergy | src/api/src/power_monitor.c:268-298 | the accumulation over all CPUs, at most sixteen rows each |
| PowerMonitor.TableIsLine | src/api/src/power_monitor.c:287-293 | the energy is exactly the straight line from the highest power in the first row to the lowest in the last, over their times |
| PowerMonitor.EnergyBounds | src/api/src/power_monitor.c:287-293 | a table's energy lies between lowest and highest power over its time |
| PowerMonitor.TotalBounds | src/api/src/power_monitor.c:268-298 | so does the energy of all CPUs |
| PowerMonitor.EnergyGrows | src/api/src/power_monitor.c:290-293 | more time in any row never means less energy |
| PowerMonitor.TotalGrows | src/api/src/power_monitor.c:268-298 | nor does it over all CPUs |
| PowerMonitor.Monitor.CalculateAndUpdate | src/api/src/power_monitor.c:124-142 | accepts if and only if both clocks moved; otherwise nothing changes |
| PowerMonitor.Monitor.Watch | src/api/src/power_monitor.c:44-52 | the sampling loop: what it reports and where its baseline stands, rejected samples included |
| PowerMonitor.IncrementsAddUp | src/api/src/power_monitor.c:126-140 | the reported increments of every counter sum, modulo 2^64, to last accepted minus first, whatever is rejected on the way |
| PowerMonitor.IncrementsModulo | src/api/src/power_monitor.c:126-140 | in numbers: up to a multiple of 2^64 |
| PowerMonitor.EnergyAddsUp | src/api/src/power_monitor.c:138-140 | the energy increments sum exactly |
| PowerMonitor.ClocksAdvance | src/api/src/power_monitor.c:126-129 | every report moves both clocks of the baseline strictly forward |

## Left out

- Floating-point rounding: reals are exact, and `atof`, `atoi`, `%.3f` and other number texts are abstract.
- libcurl, APR pools, dlopen, PAPI, libiio, hwloc, perf counters, `/proc` and the clock: their results are inputs.
- Fixed array limits of the agent: 256 plugins, 256 keys of a filtered query, 32 events of a Board_power table, the 20-character value buffers and the 200-character library path.
- The 256-character URL and response buffers of `get_config_parameters`: the response is any string.
- `checkConf` and `init_timings`: the configuration thread appears only as a thread that is created and never joined, so shutdown safety is about plugin threads.
- The hook queue's own concurrency: it is a FIFO; the queue is an external library.
- `main.c`, `publish_json`, `query_json`, the experiment functions of the publisher and the thin plugin wrappers.
- The connectors CPU_perf, CPU_temperature, NVML and Linux_resources: the same patterns with fewer cases.
- The text reading of the frequency, network and disk statistics, and their failures.
- Board_power's search for the device and the label texts of channels: a sample names its channel.
- Shutdown.Next: a signal that arrives before the handler is installed ends the process and is not a step of the model; hook calls and publications are single steps.
- Shutdown.FewAfterStop: counts steps of the threads, not time; how long a hook runs is not modelled.
- Ini.ParseFile: blanks are those of the C locale, the handler is a function of the events so far, and `INI_USE_STACK`, multi-line and byte-order-mark support are on, as built.
- IniEdits.InsertIgnoredLines: a byte-order mark must stay at the start of the file, since the reader only knows it on line 1.
- IniTheorems.RoundTrip: excludes empty names, lines of more than 199 characters, sections of 50 or more and a comment without a value, which the reader treats differently.
- IniEdits.BomIsSkipped: the first line must leave room for the mark in the line buffer.
- Publisher.ReadLine: excludes a piece that begins with a NUL, for which the code writes in front of its buffer.
- Publisher.PublishFile: excludes the same, and demands that every batch fits the 3200-character message; what happens on an overflow is not modelled.
- Bulk.FillBulk: demands that messages fit their buffers and that the bulk size is at least 1; with size 0 the code writes outside an empty buffer.
- Bulk.GatherMetric: demands the same.
- Network.Simulation.constructor: takes the branches' coefficients and the outside pressures as parameters; the numbers of the program are not part of this model.
- Conservation.StepConserves: the value read past the last flow is an arbitrary input.
- ParameterScanner.ScanInvertsPrint: is about quoted values made of digits and dots; a copy that leaves the 16-character buffer or its NUL is the outcome `Fault` and nothing is said beyond it.
- PowerMonitor.CpuEnergy: excludes a frequency table of exactly one row, for which the code divides by zero.
- RaplPower.RaplPlugin.Init: at most four sockets and a table of at most 32 slots, as many as the code has room for.
- RaplPower.RaplPlugin.RaplInit: the same.
- RaplPower.RaplPlugin.Sample: demands the same as `Turn`, and an interval that is not zero; readings are arbitrary, although the code resets the counters after each read and still subtracts.
- RaplPower.RaplPlugin.Turn: a stale slot is NULL or points to a text, and the walk must stay inside the 32 slots.
- RaplPower.RaplPlugin.WalkIf: demands the same.
- SysPower.LinuxSysPower.Sample: excludes an interval of zero, and every reading succeeds.
- BoardPower.Board.SampleAll: demands that each buffer begins with channel 0, for the same reason as PrintSample.
- BoardPower.Board.PrintSample: demands that channel 0 of a device is sampled first, since the count it divides by starts there.
