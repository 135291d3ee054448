# yamake, modelled in Dafny

yamake is a family of small build tools. They install game mods as a stack of "layers". Each one reads a build
file of named targets. A target may `depend` on other targets, may `provide` other (often abstract) targets, and
may name a file whose presence and timestamp say whether it is already installed. The tools then turn a request
for some targets into an ordered build queue. Several generations of the tool share that idea:

- `jsonmake.py` and `tinymake.py` keep their targets in class attributes of a `Target` class. They classify
  targets into bases (providers of `base`) and stocks (providers of `stock`). They choose one base. A recursive
  `queue` walk records a dependency depth per target, and the queue is flattened deepest first. A stock target
  with no timestamp goes to the front of the queue.
- `jsonmake-witcher3.py` and `tinymake-witcher3.py` are the Witcher 3 plugins of those two tools. They supply
  the base choice and the placement of the stock.
- `yamake.py` and `yamake_builder.py` hold their targets in a `Builder` object. After the build file is loaded,
  they check it: unknown names, dependency and provides cycles, base families, bases and stocks. The request is
  then grown to a fixpoint. Abstract dependencies are resolved to one provider by a cascade of candidate sets.
- `yamake/core.py` is the decorator-based library. A `TargetIndex` is filled by `@target`, `@default`,
  `@provides`, `@essential` and `@clean`. `run_targets` resolves the dependencies of a request, orders them and
  runs the actions in order (as written, the build mode raises on any target with depends; see "Left out").

The Dafny modules follow those files:

- `Util` holds the shared sequence and set helpers.
- `MakeEngine` and `MakeQueue` hold what `jsonmake.py` and `tinymake.py` share:
  - the target record and the `Registry` of class attributes;
  - `finalizeInit`, `check_timestamp` and the base classification;
  - the recursive `queue` walk;
  - flattening by depth, and stock placement.
- `Jsonmake`, `JsonmakeWitcher3`, `Tinymake` and `TinymakeWitcher3` hold what differs per file.
- `YamakeTargets` holds what `yamake.py` and `yamake_builder.py` share:
  - the target record and `finalizeInit`;
  - the cycle checks, providers and base families;
  - the per-target checks;
  - the steps of the queueing fixpoint.
- `YamakeFixpoint` holds the fixpoint loop itself and the strategies for resolving an abstract dependency:
  `FirstResolvable` for `yamake.py`; `LastCandidate` for `yamake_builder.py` as written, which its `Enqueue`
  runs; and `SingleFound`, the same strategy with the marking corrected (see "## Findings").
- `Yamake` and `YamakeBuilder` hold the two `Builder` classes.
- `YamakeCore` is `yamake/core.py`.

How Python behaviour appears in the model:

- Targets are named by their keys in maps.
- A Python `set` iterated in an arbitrary order becomes a sequence picked without a stated order
  (`Util.SetToSeq`).
- `sys.exit` becomes a `Halt` value.
- An exception the program would raise becomes a `Fault` or `Raised` value.
- The mutable `Registry` and `Builder` objects are Dafny classes whose methods assign their fields.
- Loops are `while` loops with invariants.

`queue` in `jsonmake.py` and `tinymake.py` has no cycle guard. Its recursion is bounded by `fuel`, and running out
of fuel gives `Halt.RecursionLimit`, the counterpart of Python's recursion limit. On a graph with no cycle among
the steps the walk takes (`MakeQueue.Ranked`: some rank falls along every single-provider and dependency step) and
requested targets ranked below `fuel`, the walk never runs out of fuel and never meets a self-dependency: it ends
normally or stops at an older dependency of a target with no timestamp. The ordering guarantee
(`MakeQueue.DependenciesFirst`) holds for every dependency that the walk follows.

In `yamake.py` and `yamake_builder.py`, `finalizeInit` replaces `depends` and `provides` by sets of `Target`
objects. `JSONOutput` therefore meets a `TypeError` from `json.dumps` at the first target whose `depends` or
`provides` is non-empty. The model reports that target (`Encodable`) and emits what was printed before it.

## Model

| member | source | states |
|---|---|---|
| Util.SetToSeq | yamake_builder.py:375 | a list built from a set has each element of the set exactly once and nothing else |
| Util.KnownNames | jsonmake.py:289 | the names kept are declared targets, every declared name among the arguments is kept, and all-known arguments are kept as given |
| Util.KnownNamesFilters | jsonmake.py:289 | the names kept are the arguments with exactly the undeclared ones left out: a subsequence of the arguments, each declared name as often as it was given |
| Util.AddProvider | yamake.py:173-176 | registering a target's provided names adds exactly those names as keys of the providers map |
| Util.ProviderStep | yamake/core.py:338-344 | one pass of the closure loop only grows the set, and leaves it unchanged exactly when the set is closed under the providers map |
| Util.ProviderStepMonotone | yamake/core.py:338-344 | a pass from a subset of a closed set stays inside that closed set, so the loop never leaves the least closure |
| Util.DepthBuckets | yamake.py:232-251 | one bucket per depth from the greatest down to 0, each holding exactly the targets recorded at that depth; no depths give no buckets |
| MakeEngine.Blank | jsonmake.py:334-355 | a freshly declared target has only its name: no file, no depends, no provides, no base, timestamp 0, not needed |
| MakeEngine.GetLayers | jsonmake.py:376-379 | the layers are the declared ones, or the target's own name when none are declared; never empty |
| MakeEngine.Registry.constructor | jsonmake.py:71-78 | the class attributes start empty: no targets, no bases, no stocks, base and stock unset |
| MakeEngine.Registry.Declare | jsonmake.py:334-337 | declaring a target indexes it under its name and appends the name to the declaration order |
| MakeEngine.Registry.DeclareAll | jsonmake.py:90-91 | declaring each build-file entry in turn appends every name in file order, indexes every entry and leaves earlier targets in place |
| MakeEngine.Registry.Set | jsonmake.py:129-155 | the classification results replace the index, base, stock, bases and stocks; the declaration order is unchanged |
| MakeEngine.FinalizeInit | jsonmake.py:358-367 | it succeeds exactly when every depends and provides name is declared; otherwise it names an undeclared name that some target uses |
| MakeEngine.Stamp | jsonmake.py:456-465 | a target with a non-empty file that is present takes the file's time as its timestamp and is marked needed; any other target is unchanged |
| MakeEngine.MarkBases | jsonmake.py:135-142 | bases are the providers of `base` and stocks the providers of `stock` (when `stock` is declared), in declaration order; every target is stamped and a base provider becomes its own base |
| MakeEngine.MarkAll | jsonmake.py:135-142 | every target is stamped and marked, and no target is added or removed |
| MakeEngine.Marked | jsonmake.py:136-142 | a provider of `base` becomes its own base; `check_timestamp` gives a target whose file exists that file's time and marks it needed, and leaves any other target's timestamp and needed flag; name, file, depends, provides, layers and parameters are unchanged |
| MakeEngine.AssignBases | jsonmake.py:149-155 | a target depending on more than one base stops the program and is named; otherwise every target with exactly one base dependency takes that base |
| MakeEngine.Based | jsonmake.py:149-155 | a single base dependency becomes the target's base; with zero or several the target is unchanged |
| MakeEngine.Classify | jsonmake.py:129-155 | the classification of the declared targets: undeclared names or several bases on a target stop it; otherwise bases, stocks and the preset base or stock follow the counts |
| MakeEngine.ClassifiedBases | jsonmake.py:135-138 | the bases are distinct and are exactly the providers of `base`; a base with no base dependency is its own base |
| MakeQueue.ProviderChoiceCases | jsonmake.py:390-399 | `ProviderChoice`: the providers followed for an abstract target are those compatible with the selected base, narrowed to those on the base, then to those providing on it, when that leaves exactly one |
| MakeQueue.Queue | jsonmake.py:381-454 | the walk only raises recorded depths; it keeps dependencies deeper than their dependents; it stops with a recursion error when out of fuel or on a self-dependency; on a ranked graph with the target ranked below the fuel it ends normally or at an older dependency, changes only targets ranked no higher, and a recordable target ends at the deeper of its old depth and its priority |
| MakeQueue.Delegate | jsonmake.py:401-424 | an abstract target's single provider, or its dependencies, are walked at the next priority; recorded depths only grow and the ordering is kept; on a ranked graph only targets ranked below it change and the walk does not run out of fuel |
| MakeQueue.Settle | jsonmake.py:426-452 | a recordable target is recorded at least at its priority, at the deeper of its old depth and its priority on a ranked graph, and each dependency it follows ends deeper than it |
| MakeQueue.QueueEach | jsonmake.py:414-423 | each dependency other than the target itself is walked at the next priority, keeping the ordering and the stock choice; on a ranked graph only lower-ranked targets change |
| MakeQueue.QueueDepends | jsonmake.py:426-446 | every dependency the walk follows is recorded deeper than the priority of its dependent; on a ranked graph only lower-ranked targets change and only an older dependency can stop it |
| MakeQueue.QueueDepend | jsonmake.py:427-446 | one dependency: a self-dependency or an older one under a target with no timestamp stops the walk; otherwise a followed dependency ends deeper than the current priority |
| MakeQueue.QueueAll | jsonmake.py:180-181 | every requested target is walked from priority 0; all recorded depths are below the fuel and the ordering holds; on a graph ranked with every requested target below the fuel, only an older dependency can stop it |
| MakeQueue.Flatten | jsonmake.py:183-202 | the queue holds every recorded target exactly once, deepest first |
| MakeQueue.DependenciesFirst | jsonmake.py:174-202 | in the flattened queue, every dependency the walk followed comes before the target that depends on it |
| MakeQueue.ScheduledDependenciesFirst | jsonmake.py:174-218 | after the stock is placed, dependencies other than the stock still come before their dependents |
| MakeQueue.DirectProviders | jsonmake.py:244-247 | the map from each provided name to exactly the set of targets that provide it |
| MakeQueue.Without | jsonmake.py:215 | removing a name drops every copy of it and keeps every other element with its multiplicity |
| MakeQueue.PlaceCases | jsonmake.py:215-218 | `Place`: the stock is moved to the front exactly once when it has no timestamp, or dropped when it has one; other names keep their place and count |
| MakeQueue.PickStockCases | jsonmake.py:204-212 | `PickStock`: several stocks in the queue stop with too many stocks; none with `stock` declared and none preset stops with no stock; a single one becomes the stock |
| MakeQueue.Unfiled | jsonmake.py:261 | the queued targets with no file, without repeats |
| MakeQueue.Report | jsonmake.py:296-314 | with no ambiguous providers it reports success and one entry per queued target; otherwise one line per ambiguous name with its providers |
| MakeQueue.PlaceScheduled | jsonmake.py:204-218 | placing the stock in the flattened queue gives the scheduled queue |
| MakeQueue.Walk | jsonmake.py:180-202 | the requested targets are walked and the recorded depths flattened deepest first; on a graph with no cycle and no walk as deep as the fuel, only an older dependency can stop the walk |
| Jsonmake.PropagateTimestamps | jsonmake.py:165-172 | only timestamps of targets with no file change, only upwards and only to the target's timestamp; afterwards the target and every target raised have each capability with no file at that timestamp or newer |
| Jsonmake.PassOn | jsonmake.py:169-172 | a capability with no file and an older timestamp is raised to the timestamp and propagated from; afterwards it is at that timestamp or newer, and every raised target has passed the timestamp on |
| Jsonmake.BuildQueue | jsonmake.py:177-220 | the queue holds every recordable requested target in dependency order with the stock placed; several queued stocks or a missing stock stop the program; on a graph with no cycle and no walk as deep as the fuel, nothing else but an older dependency stops it |
| Jsonmake.Enqueue | jsonmake.py:223-276 | requested targets are marked needed; the base is chosen (several candidates stop with `TooManyBases`, none declines); the queue is built on it and the ambiguous names are collected |
| Jsonmake.QueueOn | jsonmake.py:243-276 | with the base selected, the queue and the ambiguous names it leaves |
| Jsonmake.EnqueuedKnown | jsonmake.py:249-261 | every queued name is a declared target |
| Jsonmake.RunCommand | jsonmake.py:281-314 | no targets on the command line gives the usage error; otherwise it succeeds exactly when no provider is ambiguous, and prints the base line, then each queued target with its file and layers, or each ambiguous name with its potential providers |
| Jsonmake.ClassifiedInitialized | jsonmake.py:130-155 | a successful classification leaves the class attributes in the state that queueing expects |
| Jsonmake.Initialize | jsonmake.py:82-155 | the build file's entries are declared in order and classified; on success the class attributes hold the classification |
| Jsonmake.Run | jsonmake.py:281-314 | the command run on the class attributes: only the index, base and stock change, as `Enqueue` decides |
| Jsonmake.SavedKeys | jsonmake.py:320-323 | the saved keys are the listed ones that are set: layers, depends and provides when non-empty, the others when given |
| Jsonmake.JSONOutput | jsonmake.py:317-329 | an opening brace, one entry per declared target in order with its saved keys, and a closing brace |
| JsonmakeWitcher3.Initialize | jsonmake-witcher3.py:57-82 | the hook classifies the targets as `jsonmake.py` does; on a stop the class attributes are unchanged |
| JsonmakeWitcher3.EnqueueTargets | jsonmake-witcher3.py:86-103 | with a base set it passes the targets on; otherwise it succeeds exactly when one base is stamped or needed, and that base is selected |
| JsonmakeWitcher3.BuildQueue | jsonmake-witcher3.py:106-120 | several queued stocks or a missing stock stop the program; a stock with no timestamp is put in front without being removed from the queue |
| JsonmakeWitcher3.BuildQueueRepeatsStock | jsonmake-witcher3.py:117-118 | a queued stock with no timestamp appears twice in the hook's queue but once in `jsonmake.py`'s own |
| Tinymake.StockTarget | tinymake.py:105 | the pre-created `stock` target provides `base` and nothing else |
| Tinymake.StampAll | tinymake.py:136 | every target is stamped by `check_timestamp`, and no target is added or removed |
| Tinymake.Classify | tinymake.py:113-144 | undeclared names or several bases on a target stop the program; otherwise bases, stocks and the single stock follow the counts |
| Tinymake.ClassifiedInitialized | tinymake.py:113-144 | a successful classification leaves the class attributes in the state that queueing expects |
| Tinymake.Precreate | tinymake.py:104-105 | `base` and `stock` are declared first, blank and as the `base` provider, unless the build file declares them |
| Tinymake.Initialize | tinymake.py:96-144 | pre-created targets, then the build file's entries in order, then classification; on success the class attributes hold it |
| Tinymake.BuildQueue | tinymake.py:150-188 | no base chosen stops the program; otherwise the queue holds every recordable requested target in dependency order, with the stock placed by the plugin; on a graph with no cycle and no walk as deep as the fuel, only an older dependency stops the walk |
| Tinymake.Enqueue | tinymake.py:191-215 | requested targets are marked needed; the queue is built and the ambiguous names are collected |
| Tinymake.EnqueuedKnown | tinymake.py:191-215 | every queued name is a declared target |
| Tinymake.BuildQueueCLI | tinymake.py:220-249 | no targets gives the usage error; otherwise it succeeds exactly when no provider is ambiguous, and prints the base line, then each queued target with its file and layers, or each ambiguous name with its potential providers |
| Tinymake.Run | tinymake.py:220-249 | the command run on the class attributes: only the index, base and stock change |
| Tinymake.SavedKeys | tinymake.py:255-260 | the saved keys: the target file when set, layers, depends and provides when non-empty, the others when given |
| Tinymake.Written | tinymake.py:258-259 | every declared name except `base` and `stock` is written |
| Tinymake.JSONOutput | tinymake.py:252-266 | an opening brace, one entry per declared target other than `base` and `stock`, and a closing brace |
| TinymakeWitcher3.PluginBuildQueueCases | tinymake-witcher3.py:61-71 | `PluginBuildQueue`: the hook always succeeds; the stock is removed and put in front exactly once when it has no timestamp; every other name keeps its count |
| TinymakeWitcher3.WithoutKeepsOrder | tinymake-witcher3.py:66 | removing the stock keeps each other name's relative position |
| TinymakeWitcher3.WithoutMonotone | tinymake-witcher3.py:66 | removing the stock keeps the order of the other names |
| TinymakeWitcher3.PluginChooseBase | tinymake-witcher3.py:74-91 | it succeeds exactly when no base is set and exactly one base is stamped or needed, which becomes the base; otherwise the base is unchanged |
| YamakeTargets.Blank | yamake.py:109-112 | a target created for an undeclared name is abstract (`IsAbstract`, yamake.py:612-615: no `exists`, no actions, no layers) and has no depends, provides or base |
| YamakeTargets.GetLayers | yamake.py:576-579 | the declared layers, or the target's own name for an abstract target; never empty |
| YamakeTargets.FinalizeInit | yamake.py:562-567 | it succeeds exactly when every name used is declared; otherwise it names an undeclared name that some target uses |
| YamakeTargets.CheckDependencyCycle | yamake.py:159-170 | the check passes exactly when the depends walk never reaches the target and has emptied by its ninth step, before the counter gives up at 10 |
| YamakeTargets.DependsRejected | yamake.py:159-170 | reaching the target, or a frontier still non-empty after nine steps, is a rejection |
| YamakeTargets.AcyclicAccepted | yamake.py:159-170 | an empty frontier that never held the target is an acceptance |
| YamakeTargets.CheckProvideCycle | yamake.py:172-185 | no cycle exactly when the provides walk empties without reaching the target; a cycle is reported when it reaches the target or stops changing |
| YamakeTargets.ProvidesRejected | yamake.py:172-185 | reaching the target through provides is a rejection |
| YamakeTargets.ProvidesAccepted | yamake.py:172-185 | an empty provides frontier that never held the target is an acceptance |
| YamakeTargets.DeltaClosure | yamake.py:190-199 | the full providers of a name are the least set containing its direct providers and closed under providers |
| YamakeTargets.FullProviders | yamake.py:187-201 | the closure is computed for every provided name, and for nothing else |
| YamakeTargets.FamilyOf | yamake.py:136-144 | following a base's base dependencies ends at a base with no other base, or the fuel runs out |
| YamakeTargets.Families | yamake.py:133-144 | every base maps to a family root that has no other base and that a walk through provided bases reaches from it; a root maps to itself; a base is reported stuck only when a walk of `fuel` steps from it still has another base to go to |
| YamakeTargets.WalksOnCycle | yamake.py:136-144 | a family walk still going after as many steps as there are bases has met a cycle of bases, the only way the `while` runs for ever |
| YamakeTargets.CheckTarget | yamake.py:148-185 | a target that passes every check gets its base and family assigned; a failing one names the fault the source raises |
| YamakeTargets.NextProviders | yamake.py:173-176 | adding one target's provides to the providers map gives the providers over the larger set of targets |
| YamakeTargets.CheckTargets | yamake.py:148-185 | all targets pass and get their base assigned, and the providers map is complete; or the first fault is reported |
| YamakeTargets.Start | yamake.py:337-346 | the initial queue holds every concrete requested target; abstract ones become pending dependencies |
| YamakeTargets.ProvidesLoop | yamake.py:360-365 | the provides closure only grows and, when it runs, ends at the names the full set enables |
| YamakeTargets.DependsLoop | yamake.py:371-375 | the depends closure only grows and, when it runs, ends at the step of the depends set |
| YamakeTargets.FirstSingleton | yamake.py:402-406 | the first candidate set in the cascade with exactly one member, or none when no set has one |
| YamakeTargets.FallbackIsOverlap | yamake.py:408-425 | the fallback test accepts a provider exactly when its depends meet the full set |
| YamakeTargets.Fallback | yamake.py:408-425 | a provider that the fallback test accepts, or none when the test rejects every provider |
| YamakeTargets.ChooseProvider | yamake.py:388-433 | a provider is chosen exactly when the cascade of the seven candidate sets (`TestSets`, yamake.py:392-400) or the fallback can resolve the abstract dependency, and it is the one they pick |
| YamakeTargets.Expand | yamake.py:357-379 | one expansion only grows the provides set and keeps the queue |
| YamakeTargets.Settle | yamake.py:437-461 | the queue grows by the chosen providers and by the dependencies whose own depends are already in the full set; pending depends stay disjoint from the queue |
| YamakeTargets.AssignedKeeps | yamake.py:148-185 | assigning bases keeps every target's depends and provides |
| YamakeFixpoint.ResolveFirstAbstract | yamake.py:385-433 | the first resolvable abstract dependency is resolved to the chosen provider and moved from depends to provides; with none, nothing changes |
| YamakeFixpoint.FindProviders | yamake_builder.py:375-415 | for each candidate dependency, a provider exactly when the cascade can resolve it, and it is the chosen one |
| YamakeFixpoint.LastFound | yamake_builder.py:375-415 | the last candidate that found a provider, if any |
| YamakeFixpoint.MarkLastCandidate | yamake_builder.py:417-423 | as written: with exactly one provider found, the LAST candidate is the dependency marked as provided |
| YamakeFixpoint.MarkFoundFor | yamake_builder.py:417-423 | corrected: with exactly one provider found, a candidate for which it was found is marked |
| YamakeFixpoint.LeakedDependMarked | yamake_builder.py:375-423 | a concrete input where the as-written marking and the corrected one differ |
| YamakeFixpoint.FoundNotSingle | yamake_builder.py:414-423 | when `lFoundTargets` is not a single provider, no candidate is resolvable or two different candidates are given different providers |
| YamakeFixpoint.ResolveLastCandidate | yamake_builder.py:371-423 | as written: no provider is returned only when no candidate is resolvable or two different candidates can be given different providers (`NoneResolvable`, `Disagree`), so a round with a single resolvable candidate resolves; it is chosen for some candidate and agrees with every resolvable one, and the last candidate tried is moved to provides |
| YamakeFixpoint.ResolveSingleFound | yamake_builder.py:371-423 | corrected: no provider is returned only when no candidate is resolvable or two different candidates can be given different providers; it agrees with every resolvable candidate, and a dependency it was chosen for is moved to provides |
| YamakeFixpoint.ResolveAbstract | yamake.py:385-433 | the resolution strategy of the file: a candidate moves to provides with a provider chosen for some candidate (for the one moved, except as written in `yamake_builder.py`); an unresolved round changes nothing and happens only when no candidate is resolvable (in `yamake.py`) or, in `yamake_builder.py`, when two different candidates can be given different providers |
| YamakeFixpoint.Round | yamake.py:357-475 | one round grows the queue and provides; every newly queued target is the chosen provider or has its depends in the full set; the chosen provider provides some candidate, the one marked except as written in `yamake_builder.py` |
| YamakeFixpoint.Resolve | yamake.py:350-475 | at most ten rounds; fewer than ten means nothing is pending; every queued target was requested, chosen as a provider, or has its depends satisfied; every chosen provider provides some name, a provided one except as written in `yamake_builder.py` |
| YamakeFixpoint.Request | yamake.py:261-271 | the named targets, or the depends of `default` when no targets are named; an empty request is refused |
| YamakeFixpoint.TargetSet | yamake.py:276-279 | the request plus the depends of `any` when `any` is declared |
| YamakeFixpoint.Fixpoint | yamake.py:337-478 | the outcome is the queue and the open dependencies of a state the rounds reach from the start state (`Fixed`): no round runs exactly when the start is not pending, fewer than ten rounds leave nothing pending, and every target the rounds queue was a chosen provider or had its depends provided; the queue holds every concrete name of the request and of the depends of `any` |
| Yamake.StockCheck | yamake.py:277-290 | several stocks stamped or requested is too many stocks; none, with other than exactly one declared, is no stock; otherwise it passes |
| Yamake.ChooseBase | yamake.py:305-323 | one stamped-or-requested base is taken; several with exactly one stamped keeps the current one; none with one declared base is the unindexable case |
| Yamake.SelectBase | yamake.py:305-325 | an already selected base stays; a chosen base is one of the bases; failure declines or raises |
| Yamake.FamilyFor | yamake.py:327-333 | the family of the selected base, or none without a base |
| Yamake.Decide | yamake.py:257-333 | a go decision carries the request, the target set, a base among the bases, and the family |
| Yamake.DecideStops | yamake.py:257-333 | each way of stopping corresponds exactly to its cause: no request, a stock fault, a declined base or the unindexable base |
| Yamake.DecideBase | yamake.py:305-333 | without a preset base, the base chosen is the single candidate or none, and its family follows |
| Yamake.ClassOf | yamake.py:125-128 | a class is the root plus exactly the targets that provide it |
| Yamake.SavedKeys | yamake.py:208-213 | the saved keys are the listed ones that are set |
| Yamake.Builder.constructor | yamake.py:66-76 | the builder starts with no targets, bases, stocks or families, and no base |
| Yamake.Builder.Declare | yamake.py:541-544 | declaring a target indexes it and appends it to the order; nothing else changes |
| Yamake.Builder.Initialize | yamake.py:100-201 | the entries are declared and checked; the result is the fault found or the checked targets with their classes and families; each family is reached from its base by a walk, and a `Diverges` rejection names a base whose walk still goes on after as many steps as there are bases |
| Yamake.Builder.SetChecked | yamake.py:146-201 | the checked targets, bases, stocks and families replace the builder's; the order and base stay |
| Yamake.Builder.Enqueue | yamake.py:257-478 | a stop leaves the base unchanged with its cause; otherwise the base and family are set and the outcome is the fixpoint queue of the rounds (`Fixed`, resolving the first resolvable dependency) |
| Yamake.Builder.BuildCLI | yamake.py:483-526 | the decision on the known command-line targets, the fixpoint queue of the rounds when it goes on (`Fixed`), and a report that succeeds exactly when the queue is built |
| Yamake.Builder.JSONOutput | yamake.py:203-218 | one entry per target in order between braces; at the first target with depends or provides, only the opening brace and that target |
| Yamake.CauseOf | yamake.py:501-513 | an ambiguous name is listed with its providers, or as having none when it has no providers, file or actions |
| Yamake.Existing | yamake.py:515-518 | the queued targets that name an existing path |
| Yamake.MakeReport | yamake.py:483-526 | success exactly when the outcome is a queue with no ambiguities, with the report for it |
| Yamake.ListAmbiguous | yamake.py:501-513 | one row per ambiguous name with its cause |
| Yamake.ListLayers | yamake.py:515-526 | one layer row per queued target, or per existing one when only those are asked for |
| Yamake.PostParse | yamake.py:117-201 | bases and stocks are the classes of `base` and `stock`; families and checks follow; the result is prepared or names the fault; each family is reached from its base by a walk, and a `Diverges` rejection for a family names a base whose walk still goes on after as many steps as there are bases |
| Yamake.CheckAll | yamake.py:146-201 | every target is checked with the families; the result is prepared (with the walked families it is given) or names a fault the target checks find |
| Yamake.DivergesOnCycle | yamake.py:133-144 | a `Diverges` rejection that no target check explains comes from a cycle of bases |
| YamakeBuilder.NoEssentialsAssignNothing | yamake_builder.py:131-154 | with no essentials, the base assignment changes no target |
| YamakeBuilder.NoMultipleEssentials | yamake_builder.py:149-151 | with no essentials, the multiple-bases fault cannot arise |
| YamakeBuilder.CheckDeclared | yamake_builder.py:117-198 | the declared targets are checked and left unchanged; the result is vetted or names the fault |
| YamakeBuilder.SavedKeys | yamake_builder.py:204-209 | the saved keys are the listed ones that are set |
| YamakeBuilder.Builder.constructor | yamake_builder.py:66-73 | the builder starts with no targets |
| YamakeBuilder.Builder.Declare | yamake_builder.py:484-487 | declaring a target indexes it and appends it to the order |
| YamakeBuilder.Builder.Initialize | yamake_builder.py:97-198 | the entries are declared and checked; the index is the declared targets |
| YamakeBuilder.Builder.Enqueue | yamake_builder.py:252-469 | no request raises no targets; otherwise the outcome is the fixpoint queue of the rounds (`Fixed`), resolved with the marking as written |
| YamakeBuilder.Builder.JSONOutput | yamake_builder.py:200-213 | one entry per target in order between braces, or nothing when a target has depends or provides |
| YamakeCore.Decorated | yamake/core.py:193-210 | a decorated target has its name and is concrete, because it has an action (`IsAbstract`, yamake/core.py:185-189: flagged abstract, or neither an artifact nor an action) |
| YamakeCore.NeedsUpdate | yamake/core.py:169-183 | a rebuild is needed exactly when the target is stale (`Stale`): it has no artifact path, its artifact is missing, or some dependency's time is newer than the artifact's |
| YamakeCore.RemoveAll | yamake/core.py:286 | removing every `clean_` never lengthens a name |
| YamakeCore.RemoveAllAbsent | yamake/core.py:286 | a name without `clean_` is unchanged |
| YamakeCore.TargetIndex.constructor | yamake/core.py:44-48 | the index starts empty |
| YamakeCore.TargetIndex.Register | yamake/core.py:50-59 | the target is stored under its name, overwriting; it joins the essentials or defaults when flagged |
| YamakeCore.TargetIndex.Get | yamake/core.py:61-63 | the target of that name, or none when it is not registered |
| YamakeCore.TargetIndex.GetTargets | yamake/core.py:65-67 | every registered target once, in registration order |
| YamakeCore.TargetIndex.TargetsNamed | yamake/core.py:353-354 | the targets of the given names, each exactly once |
| YamakeCore.TargetIndex.GetDefaultTargets | yamake/core.py:69-71 | exactly the default targets |
| YamakeCore.TargetIndex.GetEssentialTargets | yamake/core.py:73-75 | exactly the essential targets |
| YamakeCore.TargetIndex.Clear | yamake/core.py:77-82 | the index is empty again |
| YamakeCore.TargetIndex.TargetDecorator | yamake/core.py:193-210 | a target with the given or function name is registered with its depends and provides, and appended to the order when new |
| YamakeCore.TargetIndex.DefaultDecorator | yamake/core.py:218-239 | an existing target is flagged default without joining the default set; a new one is registered as default and appended to the order |
| YamakeCore.TargetIndex.ProvidesDecorator | yamake/core.py:242-257 | an existing target's provides grow by the artifacts; otherwise nothing changes |
| YamakeCore.TargetIndex.EssentialDecorator | yamake/core.py:260-281 | an existing target is flagged essential without joining the essential set; a new one is registered as essential and appended to the order |
| YamakeCore.TargetIndex.CleanDecorator | yamake/core.py:284-297 | the target named by the function name without `clean_` gets a clean action; otherwise nothing changes |
| YamakeCore.FullProvidersOf | yamake/core.py:333-346 | the least set containing the start and closed under providers |
| YamakeCore.DirectProviderMap | yamake/core.py:324-329 | each registered name someone provides maps to exactly the targets providing it (`DirectProviders`) |
| YamakeCore.CalculateProviders | yamake/core.py:321-348 | direct providers for every declared provided name (the `DirectProviders` map), and their full closures |
| YamakeCore.ResolveDependencies | yamake/core.py:395-429 | the result contains the request (and the essentials when triggered), is closed under depends and abstract providers, and is the least such set |
| YamakeCore.Worklist | yamake/core.py:405-429 | the worklist ends with the least closed set containing the seeds |
| YamakeCore.Concrete | yamake/core.py:392 | the concrete targets of a layer, without repeats |
| YamakeCore.OrderByDependencies | yamake/core.py:351-392 | the build order holds the concrete requested essentials and the requested targets whose depends the essentials provide; essentials come first |
| YamakeCore.ReadyRounds | yamake/core.py:380-389 | the ready rounds add exactly the pending targets whose depends are handled; at most one round adds anything |
| YamakeCore.OrderDropsDependentTarget | yamake/core.py:383 | a target depending on a non-essential target is never ready, so it is dropped from the order |
| YamakeCore.RunTargets | yamake/core.py:432-506 | no targets and no defaults fails; the request resolves to the least closed set holding its seeds (`Resolution`); it fails, building nothing, exactly when that set names unknown targets, and reports exactly those; otherwise the steps are those of a `BuildOrder` of that set, stopping at the first failure |
| YamakeCore.ExecuteSteps | yamake/core.py:482-504 | one message per step up to and including the first failure; success exactly when every step succeeds |

## Left out

- Reading the YAML or JSON build files, the configuration files and the command-line options. The model starts
  from the parsed target entries and the requested names.
- File-system probes. Which target files exist and their times are given as a `present` map or a `stamped` set.
  The stat calls, `is_dir` and the path handling are not modelled.
- The scans of the layers directory: `jsonmake.py` 95-127, the scan at the start of `Initialize` in
  `jsonmake-witcher3.py`, and `PluginInitialize` in `tinymake-witcher3.py`. They list directories, which is I/O.
- Plugin loading (`importlib`, `load_plugin`). `tinymake.py` loads a plugin and calls its hooks; the model passes
  `plugin` to say whether `tinymake-witcher3.py` is loaded. `jsonmake.py` never loads or calls a plugin;
  the hooks of `jsonmake-witcher3.py` receive the `Target` class as a parameter, and are modelled standalone on the
  class attributes of `jsonmake.py`. `yamake.py`'s `PluginChooseBase`/`PluginChooseStock` hooks are not modelled.
- Printing, colours and column widths. Output is modelled as a sequence of line values.
- Execution of build actions and clean actions in `yamake/core.py`, the `dry_run`/`clean_mode`/`debug` branches and
  the `functools.wraps` wrappers. An action's outcome is a `status` function given as a parameter.
- `jsonmake.py`'s `build()` and `clean()`, which nothing calls.
- `yamake.py`'s `AttemptQueue` (621-700), which nothing calls.
- Util.DepthBuckets: `MakeBuildDependencyDepths` calls an undefined `attemptQueue` on an undefined `builder`, so only
  its bucketing of depths is modelled.
- MakeQueue.Queue: the recursion of `queue` is bounded by `fuel`, standing for Python's recursion limit. On a
  cyclic graph, or one whose walks are at least `fuel` calls deep, the model only promises a `WalkHalt` stop.
- YamakeTargets.FamilyOf: the walk along base families is bounded by `fuel`; a cycle of bases is reported as stuck
  rather than looping.
- YamakeTargets.CheckProvideCycle: the provides-cycle walk is bounded by `fuel`, called with the number of targets,
  and the `Undecided` result covers the case where it has not settled. The source's frontier may take longer to
  reach a fixed point, where yamake.py:181 raises `CYCLIC PROVIDE`; the model then gives `Undecided` (and the check
  reports `Diverges`). The source compares the new frontier list with the old one; the model compares them as sets,
  ignoring the order and repeats of the lists.
- MakeEngine.Stamp: `check_timestamp` recurses into depends, which only re-stamps targets that are stamped anyway.
  The recursion is modelled by that effect. A depends cycle among targets with no file would hit Python's
  recursion limit; that case is not modelled.
- Object identity. A target re-declared after being pre-created (tinymake's `base`/`stock`) is modelled by name, so
  two distinct `Target` objects with one name are not distinguished. In `yamake.py` and `yamake_builder.py` a
  re-declared `base`, `stock`, `all` or `clean_all` leaves the pre-created object in `lTargets`, and `JSONOutput`
  (yamake.py:206-212) writes it as an empty entry; the model writes the re-declared target in both places.
- `tinymake.py`'s call to `PluginFinalize` (116-117) uses an undefined `lQueue`. It is only reached with a plugin
  that defines `PluginFinalize`, and `tinymake-witcher3.py` does not.
- `jsonmake-witcher3.py` calls `sys.exit` without importing `sys`, so it stops with a `NameError` instead. It is
  modelled as the same halt.
- The `lProvided` lists that `Enqueue` computes in `jsonmake.py` and `tinymake.py` and never uses.
- JsonmakeWitcher3.Initialize: requires `lBases`, `lStocks`, `base` and `stock` to be empty on entry, which is how a
  fresh run starts. A second call would append to lists that are already filled.
- YamakeBuilder.Builder.Enqueue: `return False, lOutput` with an undefined `lOutput` raises `NameError`. It is
  modelled as the `NoTargets` fault it is meant to report; `yamake.py` 271 has the same line.
- Yamake.Builder.Enqueue, Yamake.Builder.BuildCLI: `CheckTimeStamp` (yamake.py:581-590) reads `check_mtime`, which
  `Target.__init__` only sets when the entry declares it, so a target whose `exists` file is present and that
  declares no `check_mtime` raises `AttributeError` before any queueing. The model takes the stamped targets as the
  `stamped` input and does not model that exception.
- YamakeFixpoint.Fixpoint: the outcome is tied to the state the rounds end in through what `Resolve` promises of it
  (growth, why each queued target joined, when the loop stops), not to a trace of the individual rounds.
- YamakeCore.RunTargets: in build mode, yamake/core.py:491 calls `is_abstract()` on each member of `target.depends`,
  which are name strings (`Target.resolve_dependencies`, 120-123, is never called), so any ordered target with
  depends raises `AttributeError`. The step outcome is the `status` oracle, and that exception is not modelled.
- YamakeBuilder.Builder.Initialize: `lEssentials` is never filled by the build-file loader, so no essential bases
  are ever assigned. The model follows that code rather than the documented intent.

## Findings

| source | as written | input that shows it | evidently intended | confidence | as-written member | corrected member |
|---|---|---|---|---|---|---|
| yamake_builder.py:375-423 | after the loop over abstract dependencies, the leaked loop variable `depend` is marked as provided and removed from depends | candidates `a`, `b` in that iteration order, where only `a` finds provider `p`: `b` is marked and `a` stays pending | mark the dependency for which the single provider was found | not executed | YamakeFixpoint.ResolveLastCandidate (with YamakeFixpoint.MarkLastCandidate and YamakeFixpoint.LeakedDependMarked) | YamakeFixpoint.ResolveSingleFound (with YamakeFixpoint.MarkFoundFor) |
