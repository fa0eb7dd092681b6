# Loader, bundler, style sheet and keyring logic, modelled and proved in Dafny

Four pieces of this repository hold logic that is easy to get wrong and hard to see through by
reading: the AMD module manager, the source-map bundler of the playground, the rewriting of urls in
style sheets, and the keyring storage of the command line tool. This project models each of them in
the form the program has (classes whose methods update fields, loops, buffers) and proves what they
are for. `dafny verify dfyconfig.toml` checks all of it.

## How the project is laid out

| files | models |
|---|---|
| `Graphs`, `LoaderState`, `LoaderSteps`, `LoaderTraces`, `Searches`, `LoadErrors`, `LoaderTheorems`, `DefinitionOrder`, `ScriptRuns`, `WakeOrder`, `ModuleManager`, `LoaderRuns` | `Module` and `ModuleManager` of `Source/vs/loader.js` |
| `ScriptLoads` | `OnlyOnceScriptLoader` and the path retries of `_loadModule` in the same file |
| `PathSegments`, `Normalizer` | `ModuleIdResolver` in the same file |
| `Bytes`, `Vlq`, `SourceMapFormat`, `SourceMapMerge`, `SourceMapNames`, `SourceMapBuilder` | `DynamicBuffer`, `Source` and `SourceMapBuilder` of `scripts/playground-server.ts` |
| `Bundler`, `ModuleLoading`, `BundleCache`, `LiveBundle` | `bundleWithDependencies`, `ModuleLoader` and `CachedBundle` of the same file |
| `CssPaths` | `CSSPluginUtilities` of `Source/vs/css.build.ts` |
| `Keyring` | `KeyringStorage` of `cli/Source/auth.rs` |

**The module manager.** The state of the class is also given as a value (`S()`), and one invariant of
that value (`LoaderState.Inv`) holds before and after every method, in the middle of `_resolve` and of
a cascade too. Work that the calls on the stack have begun and not finished (decrements still to be
made, modules whose dependencies are being examined, ids about to be requested) is the ghost argument
`Context`; between events it is `IDLE`. The invariant says that each counter is exactly what is still to
come for the module, that the waits-on relation is ranked, that factories ran in dependency order but
for edges broken to leave a cycle, and that nothing is waited for that was not asked for. A module keeps
its declared dependencies as history, since the program drops its list on completion. Scripts are
values: a script makes named definitions, may make an anonymous one, and loads or fails; it may arrive
while it is being requested or later. `ModuleManager.Run` takes any sequence of events.

**Where modules come from.** The definitions made are kept in order as history (`defined`), those of ids that
had a module already included. Each of them is one of the world's scripts, or came with an event, dependencies and
errorback included (`DefinitionsOk`); the first one of an id makes its module, and every module is made so
(`FirstDefinitionMakes`, `FirstsMake`). What a script does is said in terms of that history (`ScriptRuns`): it made
all its definitions in turn, the anonymous one last, or an exception ended it and the paths that were left were
tried.

**Exceptions that get out of the manager.** Two things throw through it: a factory, unless `catchError`
is set (it is not by default), and the call of a plugin's `load` when what the plugin exports has no
such function, as after a load error or a caught exception of its factory. Every method says whether an
exception `escaped`. The invariant holds then as well, for a context `left` that has more unfinished
work than the callers': decrements that are never made, dependencies that are never examined. A run goes
on after an exception, with all that work lost. A second invariant (`LoaderTraces.Traced`) keeps the
account of where modules, errors and exceptions come from, so that "no error" and "no exception" follow
from what the world did. A script loader may catch what comes out of a script while it runs, as the one of
web workers does (Source/vs/loader.js:694-723): that fails the path, the paths that are left are tried
(`TryNext`), and the manager goes on with the work lost. What comes out of the callback behind the script
gets out in any case: the callbacks are gone by then, and calling the errorbacks throws in turn. Each
exception that was thrown got out or was caught, and is counted (`Escapes`).

**Source maps.** `SourceMapFormat` is a reader of the "Mappings" field as Source Map Revision 3
(ECMA-426) describes it, written apart from the program. What the builder writes is read with it.
Numbers follow JavaScript's 32-bit shifts. An index that the input map does not have becomes
`undefined` in the program and `NaN` in its arithmetic; the model has no value there, and writes what
the program's shifts make of it.

**Where the code does less than its comments or a reader might expect.** Each of these has its exact
condition proved, not just an example.

- A load error never touches a module that completed with success, except the failed id itself, which
  a late failure marks although it was complete (`LoadErrorsSpareSuccess`).
- A module whose dependency has already failed fails at once and without a cascade, so those that wait
  for it wait on: `WaitChainEnds` has "a module that failed" as one of its ends.
- An exception is thrown through the manager exactly if a factory that ran throws with `catchError` off,
  or a resource is asked of a plugin that has no `load` (`EscapesAreExact`). The module is complete and has no
  error, but its wait list stays, and who stands on it never runs (`CrashStrandsWaiters`): `LostWakeUp` is
  a run with every dependency defined, no error, and a module that waits for ever. Wake-ups that were on
  their way are lost (`LostWakeUpStrands`), also if the script loader catches the exception. Without exceptions and errors everything completes
  (`EverythingCompletes`, `RunInPeace`).
- `_hasDependencyCycle` misses cycles that only go through the names `exports`, `module` or `require`
  (the ids 0, 1 and 2). Without errors it is right whenever a declared cycle implies one of ordinary
  dependencies (`FlagIsExact`). So it is right in every order of definitions exactly if their declared
  cycles imply ordinary ones: then no order hides a cycle (`NoOrderHidesCycle`), and otherwise one does
  (`OrderHidesCycle`), which `DefineInOrder` carries out and `ReservedNameHidesCycle` runs on an example.
- A merged source map always says what its parts say, up to the last source. The next source keeps its
  meaning, whatever it is, exactly if the mappings of this one end in time (`EndsInTime`,
  `NextKeepsMeaning`): a segment on the line after the last, or one line too many, and there is a next
  source that loses a mapping or has it moved.
- A VLQ number reads back exactly if its absolute value is below 2^30, and a sequence of them exactly if
  all are.
- A rewritten style sheet url keeps its target exactly (`KeepsTarget`) if the new file has no protocol, and
  the target is from the root, or the new file is in no folder, or the target is no web address, goes
  through all climbs and empty folders of the new file's path, and is not an empty folder directly inside
  the new file's own. So behind `../` a file only keeps targets that climb as far
  (`ClimbingFileKeepsTarget`). This is for a new file whose path is in normal form; behind `./` every
  relative target is lost (`DottedFileLosesTarget`).
- The promise of a file is rejected exactly if something it needs is missing or cannot be parsed;
  otherwise it waits for ever exactly if it needs files that wait for each other (`Outcome`,
  `LoadedAll`), in whatever order reads end. A bundle cache keeps both: as long as the entry's promise is
  not settled, a change to any file that was not loaded as a module changes nothing (`Watch`), and that
  includes mending the very file that is in the way.
- Of the changes it does take in, a bundle cache misses exactly those that turn a needed file which was
  no module into something else (`Appears`).
- The same with files that change and calls that wait while others are read (`LiveBundle`): whatever the
  order of events, once every change was told about and taken in, each answer is a bundle of the files as
  they are, until one changes again. A change is told in vain exactly if the file appears, its promise was
  rejected and would not be the same, or its new text cannot be parsed (`CallContinues`).
- A secret reads back from the keyring exactly if its length is not a multiple of the step, its last
  chunk does not end with the marker, and no cut falls inside a character (`Survives`).

## Model

| member | source | states |
|---|---|---|
| ModuleManager.Module.constructor | Source/vs/loader.js:1097-1109 | a new module waits for all it declares, has examined none of it, and has the errorback it was given |
| ModuleManager.Module.Complete | Source/vs/loader.js:1139-1168 | completing runs the factory; a caught exception becomes the module's error, and list and handlers are dropped; one that is not caught leaves a complete module that still has all of them |
| ModuleManager.Module.OnDependencyError | Source/vs/loader.js:1172-1179 | the module is complete with that error, and the answer says whether an errorback heard of it |
| ModuleManager.ModuleManager.constructor | Source/vs/loader.js:1233-1253 | an empty manager keeps the invariant |
| ModuleManager.ModuleManager.HasDependencyPath | Source/vs/loader.js:1505-1541 | true if and only if a non-empty path of dependencies still held leads from the first id to the second; each id queued at most once, so it ends |
| ModuleManager.ModuleManager.QueueDependencies | Source/vs/loader.js:1523-1536 | one element's dependencies: stops at the goal, or queues exactly those defined and not queued before |
| ModuleManager.ModuleManager.WalkElement | Source/vs/loader.js:1518-1538 | one turn of the walk keeps the frontier invariant and lowers its measure |
| ModuleManager.ModuleManager.FindCyclePath | Source/vs/loader.js:1548-1568 | never null when a path exists; what it returns runs backwards along dependencies from the start, to the goal or for 51 ids |
| ModuleManager.ModuleManager.DefineModule | Source/vs/loader.js:1352-1370 | the definition is noted; a second one of an id changes nothing else; a first one makes a module of just these dependencies and this errorback, keeps the invariant in any context and undoes nothing, or an exception leaves more work undone; with all dependencies there and nobody waiting no other module appears, nothing is asked for and no cycle is found |
| ModuleManager.ModuleManager.Resolve | Source/vs/loader.js:1658-1721 | the invariant holds after every dependency and at all three exits, an exception included; only this module's own examination moves |
| ModuleManager.ModuleManager.ResolveDependency | Source/vs/loader.js:1662-1716 | one dependency: stops only with an error taken over, ends with an exception, or one more is examined and the invariant kept; one whose factory has run disturbs nothing |
| ModuleManager.ModuleManager.BreakOrAwait | Source/vs/loader.js:1685-1716 | a dependency that is not complete is broken off if a path leads back, and waited for otherwise |
| ModuleManager.ModuleManager.UseOutcome | Source/vs/loader.js:1676-1684 | a complete dependency passes its error on, or is counted as resolved |
| ModuleManager.ModuleManager.CountAsResolved | Source/vs/loader.js:1663-1684 | exactly one down, and `exports` remembered, when the dependency is a reserved object or complete |
| ModuleManager.ModuleManager.BreakCycle | Source/vs/loader.js:1685-1695 | the edge is broken and the flag raised only when a path leads back, and the invariant records which edge it was |
| ModuleManager.ModuleManager.AwaitModule | Source/vs/loader.js:1696-1698 | the module stands once more on the dependency's list, and the waits-on relation stays ranked |
| ModuleManager.ModuleManager.AwaitDependency | Source/vs/loader.js:1696-1716 | what is waited for has been asked for when this returns, even if the answer came at once, or an exception left it owed |
| ModuleManager.ModuleManager.RequestPlugin | Source/vs/loader.js:1705-1713 | a resource waits for its plugin, and the plugin has been asked for, or an exception left it owed |
| ModuleManager.ModuleManager.LoadModule | Source/vs/loader.js:1591-1633 | an id that is known or defined changes nothing; any other is requested, once over the run, and then its paths answer: with a script that runs, or later, or with a load error that has failed it |
| ModuleManager.ModuleManager.LoadPluginDependency | Source/vs/loader.js:1640-1653 | a resource is asked for once; it is defined, without dependencies, when its plugin delivers it at once, and the call throws exactly if the plugin has no `load`, after which the resource counts as known |
| ModuleManager.ModuleManager.AskPlugin | Source/vs/loader.js:1645-1652 | an exception exactly if the plugin's exports cannot load, and the account of what was asked of whom |
| ModuleManager.ModuleManager.RunScript | Source/vs/loader.js:1443-1450 | the script makes its definitions in turn, the first one at once, and its anonymous one under the id it was loaded for; a module that was new is made of its definition; a failed script has failed that id, and without definitions changes exactly what the load error reaches; an exception ends it, and gets out or is caught and the paths that are left are tried |
| ModuleManager.ModuleManager.RunNamed | Source/vs/loader.js:1803-1811 | the named definitions of a script are made one after the other, each with the dependencies and errorback it has, up to an exception |
| ModuleManager.ModuleManager.EndScript | Source/vs/loader.js:1443-1450 | behind them the anonymous definition is made with its dependencies, or the load has failed, or nothing happens |
| ScriptRuns.AnsweredMeansTried | Source/vs/loader.js:1603-1632 | an answer from which no exception got out has run a path, or one after it, or has failed the module when none was left |
| ScriptRuns.MadeNext | Source/vs/loader.js:1803-1811 | one more definition behind those made in turn is made in turn |
| ScriptRuns.HandledStays | Source/vs/loader.js:1352-1450 | what an event brought about stays so |
| ModuleManager.ModuleManager.RunAnswer | Source/vs/loader.js:1603-1632 | the paths of a module answer one after the other, as long as what comes out of their scripts is caught: later, which changes nothing, or with a script, or with none left, and then exactly what the load error reaches has failed |
| ModuleManager.ModuleManager.TryNext | Source/vs/loader.js:715-723 | what came out of a script was caught: it counts as caught, the next path is tried, which runs, or fails the module if none is left, and the lost work is kept on account |
| ModuleManager.ModuleManager.OnModuleComplete | Source/vs/loader.js:1722-1787 | a module with nothing left to wait for is complete afterwards, and every wake-up it owes is delivered through any depth of recursion, in the order in which the waits began, or left undone by an exception and counted as such |
| ModuleManager.ModuleManager.CompleteModule | Source/vs/loader.js:1761-1764 | the wait list moves into flight: what was owed by the list is owed by the cascade, nothing lost or doubled; with an exception the list stays, and this is so exactly if the factory throws uncaught |
| ModuleManager.ModuleManager.WakeAll | Source/vs/loader.js:1765-1776 | the whole flight is delivered, one at a time and in turn, whatever completes in between: who waited for nothing else has run or failed, and ran before those behind it; an exception leaves exactly a context that covers what was not delivered |
| WakeOrder.NextInTurn | Source/vs/loader.js:1768-1775 | waking one more keeps that order, since who has a wake-up still to come has not run |
| ModuleManager.ModuleManager.WakeAndLoad | Source/vs/loader.js:1765-1786 | wake-ups first, then the resources of a plugin, with the invariant at each of the exits |
| ModuleManager.ModuleManager.Decrement | Source/vs/loader.js:1768-1775 | one wake-up in flight becomes exactly one decrement, of a module that exists, and never below zero |
| ModuleManager.ModuleManager.LoadResources | Source/vs/loader.js:1777-1786 | every resource that waited for the plugin has been asked for, unless an exception left the rest owed |
| ModuleManager.ModuleManager.OnLoadError | Source/vs/loader.js:1464-1498 | exactly the failed id and the modules it reaches through wait lists become complete with that one error, each errorback called once, the global handler if and only if there was none |
| ModuleManager.ModuleManager.SpreadError | Source/vs/loader.js:1469-1494 | the walk ends and has failed exactly what the error reaches |
| ModuleManager.ModuleManager.SpreadStep | Source/vs/loader.js:1478-1494 | one element: it has failed, its waiters are queued once, and the measure falls |
| ModuleManager.ModuleManager.FailModule | Source/vs/loader.js:1481-1483 | one module becomes complete with the error and nothing else changes but its errorback's call |
| ModuleManager.ModuleManager.Handle | Source/vs/loader.js:1352-1450 | one event from outside: a definition is made as it says, dependencies and errorback included, unless its id was defined before; a script makes its definitions in turn and fails its module if it fails, or its exception is dealt with as `RunScript` says; the world answers for exactly these definitions, and every exception thrown got out or was caught |
| ModuleManager.ModuleManager.StateIsSound | Source/vs/loader.js:1658-1787 | in any state, exceptions or not: no circle of waits, and every module what the first definition of its id says; without errors a cycle flag that is right whenever declared cycles imply ordinary ones; and without lost work everything complete once all is defined |
| ModuleManager.ModuleManager.Run | Source/vs/loader.js:1352-1787 | the same after any sequence of definitions, arriving or failing scripts and delivered resources, going on after exceptions; exceptions got out or were caught if and only if a factory crashed or a plugin refused on the way, and one got out if and only if there were more than were caught |
| ModuleManager.ModuleManager.RunInPeace | Source/vs/loader.js:1352-1787 | a run of successful scripts and quiet factories crashes nothing; without a refusal it has no error and completes everything once all is defined; where nothing is caught, an exception gets out exactly if a resource is asked of a plugin that exports no `load` |
| ModuleManager.ModuleManager.DefineInOrder | Source/vs/loader.js:1352-1370 | definitions made after all they depend on all complete, ask for nothing and leave the cycle flag down, whatever reserved names they use |
| LoaderTheorems.CountersAreExact | Source/vs/loader.js:1658-1776 | a counter is what was not examined, its occurrences with multiplicity in all wait lists, and the wake-ups on their way or lost; of an incomplete module it is not zero |
| LoaderTheorems.FirstDefinitionMakes | Source/vs/loader.js:1352-1370 | the first definition of an id, by a script of the world or from outside, makes its module: it declares just that, and has its errorback until its factory has run |
| LoaderTheorems.ModuleIsDefined | Source/vs/loader.js:1352-1370 | every module was made by such a definition |
| LoaderTheorems.NewIsMade | Source/vs/loader.js:1352-1370 | a definition of an id that had no module has made it, whatever happened since |
| LoaderTheorems.EdgesAre | Source/vs/loader.js:1215-1230 | dependencies on modules and resources are ordinary; the three reserved names are the ids 0, 1 and 2 and need nothing |
| LoaderSteps.ExamineFields | Source/vs/loader.js:1663-1668 | `exports` is remembered exactly when it is among the dependencies examined |
| LoaderSteps.RunFields | Source/vs/loader.js:1139-1168 | a module keeps its errorback until its factory has run, and beyond if its exception gets out |
| LoaderTheorems.WaitsHaveNoCycle | Source/vs/loader.js:1685-1698 | the recorded waits-on relation has no cycle in any reachable state |
| LoaderTheorems.WaitChainEnds | Source/vs/loader.js:1658-1776 | every incomplete module waits, in the end, for an id not yet there, for a module that failed, for one whose factory's exception got out, or for one whose own work such an exception took away |
| LoaderTheorems.EverythingCompletes | Source/vs/loader.js:1658-1776 | without errors and lost work and with all dependencies defined, every module is complete |
| LoaderTheorems.EscapesAreExact | Source/vs/loader.js:1131-1136 | an exception was thrown if and only if a factory that ran throws uncaught or a resource was asked of a plugin without `load` |
| LoaderTheorems.CrashStrandsWaiters | Source/vs/loader.js:1760-1764 | who waits for a module whose factory's exception got out still does so after any further steps, and never runs |
| LoaderTheorems.LostWakeUpStrands | Source/vs/loader.js:1768-1775 | a module that lost a wake-up never runs |
| LoaderRuns.LostWakeUp | Source/vs/loader.js:1131-1168 | a run with `catchError` off that ends with every dependency defined, no error, and a module waiting for ever for one that is complete |
| LoaderTheorems.PeaceMeansNoErrors | Source/vs/loader.js:1139-1168 | errors come only from failing loads and throwing factories |
| LoaderTheorems.PeaceMeansNoRefusals | Source/vs/loader.js:1640-1653 | with quiet factories, a plugin refuses if and only if it exports no `load` |
| LoaderTheorems.NobodyCatches | Source/vs/loader.js:715-723 | nothing is caught where no script loader catches |
| LoaderState.ThrownGrows | Source/vs/loader.js:1131-1136 | an exception got out or was caught if and only if one more was thrown |
| LoaderTheorems.FactoriesRunInOrder | Source/vs/loader.js:1676-1727 | each factory runs at most once, after those of all ordinary dependencies but the ones whose edge was broken because a path led back |
| LoaderTheorems.LoadErrorsSpareSuccess | Source/vs/loader.js:1464-1498 | a load error reaches a successful module if and only if it is the failed id itself |
| LoaderTheorems.FlagMeansCycle | Source/vs/loader.js:1685-1695 | the flag is raised only for a declared cycle, and for every cycle of modules without error, in any order of arrival |
| LoaderTheorems.FlagIsExact | Source/vs/loader.js:1685-1695 | without errors, a cycle of ordinary dependencies is flagged, and the flag is raised if and only if the declared dependencies have a cycle whenever such a cycle implies an ordinary one |
| LoaderTheorems.PlainCyclesAreOrdinary | Source/vs/loader.js:1663-1675 | that is so when no module is defined under a reserved id |
| LoaderTheorems.OrderLeavesFlagDown | Source/vs/loader.js:1676-1716 | if all factories of its dependencies ran before a module was defined, for every module, no flag was raised and nothing was ever asked for |
| DefinitionOrder.StaysCalm | Source/vs/loader.js:1352-1370 | one more definition in order leaves everything complete, unflagged and without exceptions |
| DefinitionOrder.NextIsAwaitedByNobody | Source/vs/loader.js:1696-1716 | the next of the definitions in order finds its dependencies run, and nobody waiting for it |
| DefinitionOrder.OrderExists | Source/vs/loader.js:1663-1716 | definitions without a cycle of ordinary dependencies can be put into an order in which each stands after all it depends on |
| DefinitionOrder.OrderHidesCycle | Source/vs/loader.js:1663-1716 | definitions with a declared cycle and none of ordinary dependencies have an order in which making them ends with the cycle declared and the flag down |
| DefinitionOrder.NoOrderHidesCycle | Source/vs/loader.js:1685-1695 | definitions whose declared cycles imply ordinary ones have the right flag once all are made, in whatever order and with whatever else happening, if nothing failed |
| LoaderRuns.ReservedNameHidesCycle | Source/vs/loader.js:1663-1675 | a run of two definitions through the class's own methods that ends with a declared cycle through `exports`, no error and no flag |
| LoaderTheorems.TurnFalls | Source/vs/loader.js:1676-1698 | while no flag is raised, the order of completion followed by the ranks of the waits lowers along every dependency |
| LoadErrors.WalkIsComplete | Source/vs/loader.js:1477-1494 | what a finished walk took off its queue is exactly what the error reaches |
| LoadErrors.FailsOneMore | Source/vs/loader.js:1479-1483 | failing one more module keeps the account of who failed and who was told |
| Searches.FrontierEnds | Source/vs/loader.js:1515-1540 | an empty queue means the goal is out of reach and all within reach was seen |
| Searches.FrontierMoves | Source/vs/loader.js:1517-1537 | taking one element off and queueing its new neighbours keeps the frontier, with fewer unseen or a shorter queue |
| LoaderSteps.WaitKeeps | Source/vs/loader.js:1685-1698 | recording a wait keeps the whole invariant, because no path leads back |
| LoaderSteps.WaitRanked | Source/vs/loader.js:1685-1698 | a new wait that closes no path leaves a ranking of all waits |
| LoaderSteps.BreakKeeps | Source/vs/loader.js:1685-1695 | breaking an edge keeps the invariant and leaves a declared cycle behind |
| LoaderSteps.CompleteKeeps | Source/vs/loader.js:1761-1764 | completing a module keeps the invariant, with its wait list in flight |
| LoaderSteps.CrashKeeps | Source/vs/loader.js:1131-1141 | so does an exception of its factory that nobody catches, with the wait list where it was |
| LoaderSteps.DecrementKeeps | Source/vs/loader.js:1770-1771 | a delivered wake-up keeps the invariant |
| LoaderSteps.FailKeeps | Source/vs/loader.js:1172-1179 | a load error keeps the invariant |
| LoaderTraces.RunTraced | Source/vs/loader.js:1139-1168 | a factory that ran keeps the account: it crashed if and only if it throws uncaught, and if what it throws is caught its module has an error that names it |
| LoaderTraces.AskTraced | Source/vs/loader.js:1640-1653 | asking a plugin keeps the account: refused if and only if it has no `load` |
| LoaderTraces.RequestTraced | Source/vs/loader.js:1700-1716 | a script is requested only for a module, or a plugin, that a dependency calls for whose factory had not run; the resource of a plugin is only asked of the plugin |
| LoaderTraces.BreakTraced | Source/vs/loader.js:1685-1695 | an edge is broken only for a dependency whose factory had not run when the module was defined |
| LoaderTraces.CaughtTraced | Source/vs/loader.js:715-723 | what is caught is accounted for by a script loader that catches |
| ScriptLoads.ScriptLoading.LoadModule | Source/vs/loader.js:1591-1596 | a module that is known or defined is not loaded; a new one ends or waits, and nothing that happened is undone |
| ScriptLoads.ScriptLoading.LoadNextPath | Source/vs/loader.js:1603-1632 | the next path in order is tried, or the module ends when there is none |
| ScriptLoads.ScriptLoading.Load | Source/vs/loader.js:551-582 | a pair for a script being loaded stands behind those before it and nothing else happens; otherwise it begins one load, and one only, and waits for its answer, or is called with it if it comes at once |
| ScriptLoads.ScriptLoading.Begin | Source/vs/loader.js:580-581 | the environment is never asked for a script it is still loading |
| ScriptLoads.ScriptLoading.Fire | Source/vs/loader.js:583-596 | a pair of callbacks that was never called has now had exactly this side called |
| ScriptLoads.ScriptLoading.Trigger | Source/vs/loader.js:583-596 | the pairs of the script are called in order with the same side, none twice, whatever they ask for in turn: all of them, or those up to the one that threw, and the rest are lost |
| ScriptLoads.ScriptLoading.OnEnd | Source/vs/loader.js:1443-1498 | a module ends once, as loaded or failed, and what it asks for is known or defined before this returns; a throwing end throws |
| ScriptLoads.ScriptLoading.Handle | Source/vs/loader.js:551-596 | a requested module is known or defined afterwards; an answer calls the pairs that waited for the script, with the side it says |
| ScriptLoads.ScriptLoading.Run | Source/vs/loader.js:1591-1633 | after any run every known module has ended, waits for the load of the path it is at, or lost its callbacks; an exception came out if and only if a module ended that throws; without one and with no load outstanding all have ended |
| ScriptLoads.EveryModuleSettles | Source/vs/loader.js:1603-1632 | loaded at its first path that loads, failed only after all, or waiting, or lost, with all before failed |
| ScriptLoads.RegisteredKeeps | Source/vs/loader.js:576-581 | handing over the callbacks of the next path keeps the invariant |
| ScriptLoads.FiredKeeps | Source/vs/loader.js:583-596 | calling one side removes the pair for good, and a failure makes its module the one to go on |
| Normalizer.NormalizeModuleId | Source/vs/loader.js:1061-1078 | the rewriting loops end and give what one pass with a stack gives, for every string, empty segments included: a normal form with the last segment untouched |
| Normalizer.FolderLeaves | Source/vs/loader.js:1071 | the alternation matches exactly the names that are neither empty nor `..` |
| Normalizer.NormalIsSettled | Source/vs/loader.js:1061-1078 | the result has no `.` and no `..` behind a segment it could take away, and its last segment is untouched |
| Normalizer.SettledIsNormal | Source/vs/loader.js:1061-1078 | an id is its own normal form if and only if there is nothing to take away |
| Normalizer.NormalOnce | Source/vs/loader.js:1061-1078 | normalising again changes nothing |
| Normalizer.RemovalKeepsNormal | Source/vs/loader.js:1063-1077 | taking out `.`, or a folder and the `..` behind it, leaves the normal form as it was |
| Normalizer.ModuleIdResolver.constructor | Source/vs/loader.js:1049-1057 | the path kept has exactly the folders of the module's id |
| Normalizer.ModuleIdResolver.ResolveModule | Source/vs/loader.js:1082-1090 | an id that starts with `./` or `../` walks on from those folders and keeps its name; any other is left alone |
| Vlq.VlqRoundTrip | scripts/playground-server.ts:849-868 | the decoder's own steps read back what was written for a number, and stop behind it, if and only if it is below 2^30 in absolute value |
| Vlq.NumbersRoundTrip | scripts/playground-server.ts:770-787 | a sequence of numbers written one behind the other reads back, up to what follows, if and only if all of them are below 2^30 |
| Vlq.ShiftIsExact | scripts/playground-server.ts:772 | a digit shifted on 32 bits is multiplied exactly as long as the number stays below 2^31 |
| Vlq.ShiftStartsAgain | scripts/playground-server.ts:772 | a shift distance counts modulo 32 |
| Vlq.Int32IsCongruent | scripts/playground-server.ts:772 | what is left of a number is its one 32-bit value |
| Vlq.DigitsRead | scripts/playground-server.ts:770-787 | digits are read back from any partial value and shift |
| Vlq.DigitIsWritten | scripts/playground-server.ts:821-824 | the digits written are those of the base 64 alphabet, in its order, and separators are `;`, `,` and the newline |
| Vlq.DigitIsRead | scripts/playground-server.ts:816-824 | the table reads exactly that alphabet, `=` as 64, and every other byte as no digit |
| SourceMapFormat.VlqDecodes | scripts/playground-server.ts:849-868 | the format's reader finds the number written as its next field |
| SourceMapFormat.DecodeConcat | scripts/playground-server.ts:816-824 | reading is one byte after the other: a text may be cut anywhere |
| SourceMapMerge.DigitFollows | scripts/playground-server.ts:770-787 | the program's decoder holds after each digit what the format's reader holds |
| SourceMapMerge.ReadableBytes | scripts/playground-server.ts:758-769 | mappings are refused exactly for a byte that is neither a separator nor in the table |
| SourceMapMerge.SegmentDecodes | scripts/playground-server.ts:741-757 | the re-encoded segment is read as the remapped original position, whatever was written last |
| SourceMapMerge.MissingIndexIsNoStep | scripts/playground-server.ts:749-755 | an index that the map does not have is written as a step of zero, and so is the next one |
| SourceMapMerge.ByteInStep | scripts/playground-server.ts:758-789 | one input byte keeps reader of the input and reader of the output in step |
| SourceMapMerge.MergePreservesMeaning | scripts/playground-server.ts:716-795 | reading all that was written gives the earlier mappings followed by the source's own, moved down and remapped, for every map that reads; the reader is at the start of the line after the source's last if and only if the mappings end in time |
| SourceMapMerge.NextKeepsMeaning | scripts/playground-server.ts:716-795 | every source that may come next keeps its meaning if and only if the mappings of this one end in time |
| SourceMapMerge.LateLosesNext | scripts/playground-server.ts:790-794 | behind mappings that do not, one line whose start is mapped is read otherwise, or not at all |
| SourceMapNames.MovedKeepsNames | scripts/playground-server.ts:720-728 | a remapped index names the source it named in the input map |
| SourceMapNames.InternedKeeps | scripts/playground-server.ts:720-728 | the table of sources only grows at its end and stays without duplicates |
| SourceMapNames.InternedInTurn | scripts/playground-server.ts:720-728 | names come into the table one by one, each at its end, unless it is there |
| SourceMapNames.SourceCountsLines | scripts/playground-server.ts:758-794 | a source gets a semicolon for each of its lines, or as many as its map has if those are more |
| SourceMapBuilder.MakeSource | scripts/playground-server.ts:680-697 | the text is the given one, with a newline added exactly if it has text and does not end with one; it has as many newlines as the lines it counts |
| SourceMapBuilder.DynamicBuffer.EnsureCapacity | scripts/playground-server.ts:835-842 | room for what is asked, and the contents carried over a reallocation |
| SourceMapBuilder.DynamicBuffer.AddByte | scripts/playground-server.ts:844-847 | the contents and one byte behind them |
| SourceMapBuilder.DynamicBuffer.AddBuffer | scripts/playground-server.ts:870-881 | the contents and all the bytes behind them |
| SourceMapBuilder.DynamicBuffer.AddVLQ | scripts/playground-server.ts:849-868 | the contents and the digits of the number, least first, on 32 bits; for a number that is none, the digit of zero |
| SourceMapBuilder.SourceMapBuilder.AddLine | scripts/playground-server.ts:710-714 | one line more in text and map, and what the map says unchanged; every name stays once in the table, and text and map keep as many lines as each other if the text is one line |
| SourceMapBuilder.SourceMapBuilder.AddSource | scripts/playground-server.ts:716-795 | fails if and only if a byte is no digit; otherwise text, table and line ends grow as they should, the map says by name what it said and then what the source's map says, below the lines before, and it is ready for the next source if and only if that map ends in time |
| SourceMapBuilder.SourceMapBuilder.InternSources | scripts/playground-server.ts:720-728 | every source of the input has the place of its name in the table |
| SourceMapBuilder.SourceMapBuilder.AddMappingByte | scripts/playground-server.ts:759-788 | the loop's variables and the buffers hold what the specified writer holds after the byte |
| SourceMapBuilder.SourceMapBuilder.CommitOrigin | scripts/playground-server.ts:749-755 | the three fields relative to the position written last, which is then this one |
| SourceMapBuilder.SourceReads | scripts/playground-server.ts:716-795 | what alignment and meaning of the whole map become when a source is added, in time or not |
| Bundler.Bundle.Visit | scripts/playground-server.ts:505-514 | the visit ends on every graph and adds each module it enters once, after its dependencies unless they depend on it in turn, in the order of a depth-first walk that takes requests first to last |
| Bundler.Bundle.Emit | scripts/playground-server.ts:513 | one module's source is added to text, map and names |
| Bundler.BundleWithDependencies | scripts/playground-server.ts:501-525 | exactly the modules the entry needs, each once and in the order of the depth-first walk, with the joined text, each source's name once, as many semicolons as lines, and a map that says of each line what its module's map said, the last source ending in time or not; no result if and only if a needed map cannot be read |
| Bundler.VisitIsComplete | scripts/playground-server.ts:505-516 | a finished visit has emitted a module if and only if the entry reaches it |
| Bundler.FirstRequestedFirst | scripts/playground-server.ts:510-513 | all that the first requests of the entry need stands before what only a later one needs |
| Bundler.PostOrderAdds | scripts/playground-server.ts:505-514 | a walk adds exactly what is needed and was not visited, and leaves no dependency out |
| Bundler.PostOrderConcat | scripts/playground-server.ts:510-513 | a list of visits may be cut anywhere |
| Bundler.AcyclicOrder | scripts/playground-server.ts:505-514 | on graphs without cycles every module stands after all its dependencies |
| Bundler.LeaveOrdered | scripts/playground-server.ts:510-513 | adding a module whose dependencies were visited keeps the order |
| ModuleLoading.ModuleLoader.AddModuleAndDependencies | scripts/playground-server.ts:551-588 | reads and promises may move in any order: when nothing moves any more, exactly what the entry needs was asked for, and each promise is rejected, settled or waits for ever as its files decide |
| ModuleLoading.ModuleLoader.Read | scripts/playground-server.ts:557-563 | a read that ends rejects the promise, settles it with no module, or asks for all requested files, also those behind one that fails; exactly what was asked for anew is to be read |
| ModuleLoading.ModuleLoader.React | scripts/playground-server.ts:564-583 | the promise is rejected if one that it waits for was, and settles otherwise, when all have, with exactly the dependencies that are modules |
| ModuleLoading.LoadedAll | scripts/playground-server.ts:551-588 | every promise has come to what the disk says it comes to: rejected if something needed fails, else waiting if something needed waits for itself, else the module |
| ModuleLoading.RequestedByName | scripts/playground-server.ts:565-575 | a file is requested exactly by the names that are not `require`, `exports` or `module` and resolve to it |
| ModuleLoading.ReservedNeedNothing | scripts/playground-server.ts:565-567 | a file that requests only those three needs nothing else, and comes to a module without dependencies |
| ModuleLoading.ReservedNeverResolve | scripts/playground-server.ts:565-567 | projects that differ only in how they resolve those names load alike, whatever the disk |
| ModuleLoading.DependenciesConcat | scripts/playground-server.ts:564-574 | dependencies stand in the order of their requests |
| ModuleLoading.DependencyOf | scripts/playground-server.ts:564-574 | one request gives its file, if it is a module, and none if its name is reserved or does not resolve |
| ModuleLoading.FileDecides | scripts/playground-server.ts:557-563 | a file that is missing or does not parse is rejected, and one that is no module settles without one |
| Graphs.WaitsForCycle | scripts/playground-server.ts:564-573 | among finitely many that each wait for another, everyone waits for a circle |
| ModuleLoading.NothingBroken | scripts/playground-server.ts:564-573 | what still waits at the end needs nothing that fails |
| ModuleLoading.RejectedForGood | scripts/playground-server.ts:551-585 | a rejection is final whatever the files not read yet will say |
| ModuleLoading.SettledForGood | scripts/playground-server.ts:551-585 | so is a settled promise, and all it needs is settled |
| ModuleLoading.LoadingAlike | scripts/playground-server.ts:541-549 | files that were read may change as long as they request the same: the load, with the new sources, is one of the new files |
| ModuleLoading.ModuleLoader.UpdateContent | scripts/playground-server.ts:536-549 | a new text is taken over if and only if it is a module with the same requests, and its links stay; it throws if and only if parsing does |
| BundleCache.LoadedHasNoCycle | scripts/playground-server.ts:563-583 | what can be loaded has no cycle of dependencies |
| BundleCache.NeededAlike | scripts/playground-server.ts:541-543 | if all needed files request the same, the same files are needed, along the same paths |
| BundleCache.OutcomeAlike | scripts/playground-server.ts:541-549 | and every promise comes to the same, but for the new source of a module |
| BundleCache.NotLoadedStaysCurrent | scripts/playground-server.ts:491-492 | a change to a file that is not needed, or is not loaded as a module and stays what it is, leaves the loaded graph right |
| BundleCache.UpdatedStaysCurrent | scripts/playground-server.ts:536-549 | an update in place gives the graph that loading from scratch would give |
| BundleCache.AppearsIsMissed | scripts/playground-server.ts:491-492 | a needed file that was no module and is something else now leaves the loaded graph wrong |
| BundleCache.BreaksIsMissed | scripts/playground-server.ts:536-539 | so does a loaded module whose new text cannot be parsed |
| BundleCache.CachedBundle.Bundle | scripts/playground-server.ts:471-485 | for every disk: what was promised before is kept; from a fresh cache the answer is a bundle of what the disk holds now, every module after all its dependencies, or it fails, or it waits for ever, exactly as the files decide; an entry that waits or was rejected stays so |
| BundleCache.CachedBundle.SetModuleContent | scripts/playground-server.ts:487-498 | returns, throws or never returns exactly as the file's promise and the new text decide, and changes nothing unless it returns; the loader is dropped exactly for changed requests or a module that is none any more; when it returns, the cache is as good as a rebuild if and only if no needed file has just stopped being no module |
| BundleCache.CachedBundle.Watch | scripts/playground-server.ts:471-498 | from a fresh cache, over any sequence of changes that can be taken in, every bundle is of what the disk then holds; an entry that waits or was rejected answers the same for ever, as long as no file loaded as a module changes |
| LiveBundle.LiveBundle.FileChanges | scripts/playground-server.ts:31-36 | a file that changes before it is read needs no telling; one that was read is accounted for as untold |
| LiveBundle.LiveBundle.SetModuleContent | scripts/playground-server.ts:487-491 | a call waits for the promise of a file that was asked for, behind those made before, with the text there is now, and for nothing else |
| LiveBundle.LiveBundle.Bundle | scripts/playground-server.ts:472-484 | a promise that is there is kept; a loader that is not is made, and asked for the entry |
| LiveBundle.LiveBundle.ReadEnds | scripts/playground-server.ts:557 | the file is read, with the text there is now: its promise is rejected, settles with no module, or all it requests is asked for, and nothing else changes; the load stays one of the files as they are seen |
| LiveBundle.LiveBundle.PromiseMoves | scripts/playground-server.ts:564-583 | a promise that can move is rejected if one that it waits for was, and else settled with what its file says, and nothing else changes |
| LiveBundle.LiveBundle.BundleEnds | scripts/playground-server.ts:479-481 | the bundle is answered, with one of the files as they are seen, even while files that no longer matter are being read |
| LiveBundle.LiveBundle.CallContinues | scripts/playground-server.ts:491-497 | a call goes on as the promise and its text decide, and takes the loader, the promised bundle and the calls behind it exactly where they go; its text is taken in, or told in vain exactly when it does not request what was read |
| LiveBundle.LiveBundle.StrayCallContinues | scripts/playground-server.ts:491-497 | a call left over from a dropped loader forgets the promised bundle, throws, or drops the loader, exactly as what it finds and its text decide |
| LiveBundle.LiveBundle.UpToDate | scripts/playground-server.ts:471-498 | with all changes told about and taken in, answers are bundles of the files as they are, and at rest all promises are what these files decide |
| LiveBundle.LiveBundle.Happen | scripts/playground-server.ts:471-498 | one event does exactly what it does (`Effect`); and when the bundle was asked for, all reads have ended and nothing can move, its end answers it unless the entry waits for ever |
| LiveBundle.LiveBundle.AwaitBundle | scripts/playground-server.ts:471-485 | a bundle that was asked for is answered after finitely many reads and promises, in any order, exactly if the entry does not wait for ever, and then is one of the files as they are seen |
| LiveBundle.LiveBundle.EndsWhenQuiet | scripts/playground-server.ts:551-588 | at rest the entry's promise is still to come exactly if it waits for ever |
| LiveBundle.LiveBundle.Run | scripts/playground-server.ts:471-498 | each event of any sequence of changes, calls, reads and promises has exactly its effect; after it, with everything told about and taken in, an answer is a bundle of the files as they are, and that lasts until a file changes |
| LiveBundle.BundlesElsewhere | scripts/playground-server.ts:471-485 | what was joined stays a bundle of the files when one changes that was not read |
| LiveBundle.CallKeeps | scripts/playground-server.ts:487-498 | taking in a text keeps load, calls and promise coherent |
| LiveBundle.CallAccounted | scripts/playground-server.ts:487-498 | and the account of what differs from the files: untold, on its way, or in vain |
| CssPaths.JoinPaths | Source/vs/css.build.ts:245-306 | the stack machine over pieces, behind protocol and host: joining to an address joins to its path and leaves protocol and host alone; from a folder without protocol, a normal form that joining again leaves alone |
| CssPaths.HostStays | Source/vs/css.build.ts:246-264 | for each of the three protocols, every host and every path from the root: only the path is walked |
| CssPaths.HostAlone | Source/vs/css.build.ts:250-254 | a host without a slash behind it is a name like any other, which a climb leaves |
| CssPaths.PushPath | Source/vs/css.build.ts:288-296 | the pieces of a path are pushed in order, and a normal form stays one |
| CssPaths.PushPiece | Source/vs/css.build.ts:266-286 | one piece is ignored, pops, or is pushed, and a normal form stays one |
| CssPaths.JoinedIsSettled | Source/vs/css.build.ts:240-306 | a joined path is a normal form, and joining it to nothing changes nothing |
| CssPaths.CommonPrefix | Source/vs/css.build.ts:308-316 | the longest string both start with |
| CssPaths.CommonFolderIsLongest | Source/vs/css.build.ts:318-325 | a folder path both start with, and every other such is a start of it |
| CssPaths.RelativePath | Source/vs/css.build.ts:327-347 | absolute targets are kept; others get one `../` for each slash behind the common folder |
| CssPaths.RelativeParts | Source/vs/css.build.ts:337-346 | in pieces: the shared folders, one climb for each own folder, and the rest of the target |
| CssPaths.RewrittenUrlKeepsTarget | Source/vs/css.build.ts:206-218 | joining the rewritten url to the new file's path gives the target back, if and only if `KeepsTarget`: for every new file in normal folders, plain, climbing, empty, from the root or with a protocol |
| CssPaths.OrdinaryUrlKeepsTarget | Source/vs/css.build.ts:206-218 | urls and files without empty folders keep their targets, climbing above the root included |
| CssPaths.RootedUrlKeepsTarget | Source/vs/css.build.ts:206-218 | urls from the root keep their targets for every new file without a protocol |
| CssPaths.ClimbingFileLosesTarget | Source/vs/css.build.ts:337-346 | a new file that climbs loses every relative target that does not climb as far, whatever its folders are |
| CssPaths.ClimbingFileKeepsTarget | Source/vs/css.build.ts:337-346 | in plain folders behind climbs, exactly the targets from the root and those that share the climbs and meet the condition for plain folders are kept |
| CssPaths.ClimbsAreAnchor | Source/vs/css.build.ts:266-286 | what no climb gets past in such a path are its climbs, and in plain folders nothing |
| CssPaths.AnchorIsKept | Source/vs/css.build.ts:266-306 | everything joined to a normal path starts with it up to its last climb or empty folder |
| CssPaths.DottedFileLosesTarget | Source/vs/css.build.ts:337-346 | a new file whose path starts with `./` moves every relative target one folder up, so that the condition is one for normal forms |
| CssPaths.AddressLosesTarget | Source/vs/css.build.ts:245-306 | a new file with a protocol loses every target of a file without |
| CssPaths.AddressStays | Source/vs/css.build.ts:327-334 | next to a file with a protocol every url becomes an absolute address, which relativising leaves as it is |
| CssPaths.RewriteUrl | Source/vs/css.build.ts:206-218 | the composition of the two, with the exact condition under which the target is kept; next to an address the url is joined to its path, and protocol and host stay |
| Keyring.KeyringStorage.GetNextEntry | cli/Source/auth.rs:295-306 | the entry of that number, opened if it was not |
| Keyring.KeyringStorage.Read | cli/Source/auth.rs:309-329 | what following the markers gives, and exactly the entries it went through are opened |
| Keyring.KeyringStorage.Store | cli/Source/auth.rs:331-353 | the chunks over whatever was there, each within the limit and all but the last filling it; a secret that survives reads back; stopped if and only if a cut falls inside a character |
| Keyring.KeyringStorage.Clear | cli/Source/auth.rs:355-365 | nothing can be read afterwards; it succeeds if and only if every entry that is open after reading is there, and has then deleted just those; else it has deleted those before the first that is missing |
| Keyring.ReadAfterStore | cli/Source/auth.rs:309-353 | a secret reads back over every stale content if and only if it survives |
| Keyring.ReadChunks | cli/Source/auth.rs:309-329 | from any entry on: the secret if it survives, nothing if it does not and no stale entry follows |
| Keyring.SurvivesStep | cli/Source/auth.rs:335-347 | surviving, chunk by chunk |
| Keyring.ChunksFit | cli/Source/auth.rs:221-226 | every written entry fits the limit, and all but the last fill it |
| Keyring.BoundaryEndsPrefix | cli/Source/auth.rs:340-344 | a cut is allowed exactly where some of the first characters end, as UTF-8 encodes them |
| Keyring.MarkerText | cli/Source/auth.rs:226 | the marker is the text `<MORE>` |
| Keyring.ContinuesMeansMarked | cli/Source/auth.rs:319-320 | a chunk continues exactly if it ends with the marker, and what is read of it is what stands before |

## Left out

- Ids are numbers below a bound fixed for the run: interning of names and `ModuleIdProvider` are not part of this model.
- Factories, errorbacks, `require` callbacks and plugin bodies are opaque: they do not re-enter the manager, and of `exports` only whether it has a `load` function is modelled. Which factories throw is a function of the module. Errorbacks, the error handler and a plugin's own `load` return normally.
- `_currentAnonymousDefineCall`: an anonymous definition is handed to the load of its own script, so a mix-up between two scripts, or two anonymous definitions in one, cannot happen here.
- Failures that a plugin reports through `load.error`, configuration, the recorder, build information, console messages and the `config` of a module.
- ModuleManager.ModuleManager.LoadModule: tries of several paths are not in this method; they are modelled in `ScriptLoads`, where a loaded module asks for others through a function of the world instead of through the manager.
- ScriptLoads: which modules an ending module defines and asks for, and whether it throws, are functions of the world; `empty:` in a build counts as a load answered at once; the choice of the environment's script loader, and paths as strings computed by the configuration.
- LoaderTheorems.FlagIsExact: says nothing about runs with errors beyond `FlagMeansCycle`, because a module that failed stops examining its dependencies.
- Normalizer: characters are those of Dafny's strings; surrogate pairs are single characters, which no pattern tells apart.
- SourceMapMerge.MergePreservesMeaning: requires maps that can be read, of segments with one, four or five fields and positions below 2^30; a fifth field, a name, is dropped as the program drops it, and double precision beyond 2^53 is not modelled.
- SourceMapBuilder.SourceMapBuilder.AddLine: bytes stand for the text; its encoding is not modelled.
- Bundler.BundleWithDependencies: the JSON and base64 text of the map is a function of map and names that the model leaves open; `sourceRoot` is part of that function.
- ModuleLoading.ModuleLoader.AddModuleAndDependencies: a new file is asked for on a new loader only, as the cache does; the calls of the method for requested files are `Read`.
- ModuleLoading: parsing and resolution of requests are functions of text and path.
- BundleCache.CachedBundle.Bundle: calls of this class come when all reads of a load have ended; `LiveBundle` is without that.
- LiveBundle.LiveBundle.SetModuleContent: a call tells the text that the file has then; a promise of a bundle that was forgotten is not followed any further.
- HTTP and file servers, watchers and the hot-reload code of the playground.
- CssPaths: finding urls in a style sheet, inlining images, and the reading and writing of files.
- CssPaths.RewrittenUrlKeepsTarget: the path of the new file is in normal form (or an address), since a `./` in it, or a folder with the `..` behind it, counts as folders to climb out of; the old file has no protocol, which `AddressStays` covers.
- Keyring: sealing, threads, timeouts and errors of the system keyring other than a missing entry.
- Bootstrap files, start-up glue, localisation, type declarations and build scripts.
