# Diagnostics handlers of autofac-analysis, in Dafny

This project models two event handlers of the Autofac analysis diagnostics layer
as pure functions over immutable data:

- the **out-of-order disposal detector** (`DisposalDetector`, in
  `disposal_detector.dfy`). Its state is the event queue and the set of scope
  descriptions already warned about. When a lifetime scope completes while
  children are still active, it enqueues one error-level message naming the
  scope's description, its id and its active children's descriptions. It does
  this at most once per description; the scope id plays no part in the dedup.
- the **event writer** (`Display`, in `event_writer.dfy`). It renders message
  events and resolve-operation lifecycle events as records on the logging sink.
  Each record is `(level, template, args)`, and a handler returns the records it
  writes, in order. On completion of a resolve operation it lists the
  dependency tree as debug lines: a pre-order walk with a dash prefix of two
  dashes per depth level.

Supporting modules: `Wrappers` (null collaborators and constructor failures),
`Seqs` (map, filter and sum over sequences), `Logging` (levels, arguments,
records), `Session` (lifetime scopes, instance lookups, resolve operations, and
a pre-order listing of a lookup tree used as the reference for the walk), and
`Application` (the created/completed event wrappers).

The two handlers read different shapes of message event, and each is modelled
as its file has it. The detector builds one from a level, a template and
arguments. The writer reads a relevance, a title and a message, and derives the
level from the relevance itself.

Two points about what the writer records:

- the creation record carries only the operation id;
- on completion the writer attaches no structured graph. It writes the
  dependency tree as debug lines, then an information-level "completed" record.

## Model

| member | source | states |
|---|---|---|
| `DisposalDetector.NewDetector` | src/Autofac.Analysis/Engine/Analytics/LifetimeDisposalOrder/OutOfOrderDisposalDetector.cs:14-18 | a null queue yields an ArgumentNull failure for "applicationEventQueue", and no detector is produced; otherwise the detector keeps the queue and starts with nothing warned |
| `DisposalDetector.ChildDescriptions` | src/Autofac.Analysis/Engine/Analytics/LifetimeDisposalOrder/OutOfOrderDisposalDetector.cs:29 | one description per active child, in the children's iteration order |
| `DisposalDetector.DisposalWarning` | src/Autofac.Analysis/Engine/Analytics/LifetimeDisposalOrder/OutOfOrderDisposalDetector.cs:29-31 | the warning is at Error level with the disposal template, and its args in order are the scope description, the scope id and the children's descriptions |
| `DisposalDetector.Handle` | src/Autofac.Analysis/Engine/Analytics/LifetimeDisposalOrder/OutOfOrderDisposalDetector.cs:20-34 | with no active children, or a description already warned about, nothing is enqueued and the state is unchanged; otherwise the description is added and exactly one warning is appended to the queue; the warned set never shrinks and the queue is only appended to |
| `DisposalDetector.RunWarnedSet` | src/Autofac.Analysis/Engine/Analytics/LifetimeDisposalOrder/OutOfOrderDisposalDetector.cs:23-28 | after any series of completions the warned set is the initial set plus the description of every scope completed with active children |
| `DisposalDetector.RunExtendsQueue` | src/Autofac.Analysis/Engine/Analytics/LifetimeDisposalOrder/OutOfOrderDisposalDetector.cs:32 | a series of completions leaves every event already queued in place, as a prefix |
| `DisposalDetector.RunMessageCount` | src/Autofac.Analysis/Engine/Analytics/LifetimeDisposalOrder/OutOfOrderDisposalDetector.cs:23-32 | the number of messages a series enqueues equals the number of distinct descriptions of scopes completed with active children that were not warned about before |
| `DisposalDetector.RunWarnsOncePerDescription` | src/Autofac.Analysis/Engine/Analytics/LifetimeDisposalOrder/OutOfOrderDisposalDetector.cs:25-28 | if the queue names each warned description at most once, it still does after any series of completions |
| `DisposalDetector.RunAppendsFirstWarning` | src/Autofac.Analysis/Engine/Analytics/LifetimeDisposalOrder/OutOfOrderDisposalDetector.cs:23-32 | any message a run appends is the warning built for some completed scope that had active children and whose description was neither warned about before the run nor disposed out of order earlier in it |
| `DisposalDetector.RunAppendsFirstWarnings` | src/Autofac.Analysis/Engine/Analytics/LifetimeDisposalOrder/OutOfOrderDisposalDetector.cs:23-32 | every message a run appends is such a first warning, so the first occurrence of each description wins |
| `DisposalDetector.FreshDetectorWarnsOncePerDescription` | src/Autofac.Analysis/Engine/Analytics/LifetimeDisposalOrder/OutOfOrderDisposalDetector.cs:12-32 | from a freshly built detector, the queue holds one message per distinct out-of-order description, with no description twice; each message names a warned description and is the warning for the first out-of-order scope of its description; the warned set is exactly those descriptions |
| `DisposalDetector.PerRequestScenario` | src/Autofac.Analysis/Engine/Analytics/LifetimeDisposalOrder/OutOfOrderDisposalDetector.cs:23-32 | a "PerRequest" scope with children "Handler" and "Logger" warns once, naming both; a second "PerRequest" scope with another id adds nothing; a "PerThread" scope gets its own warning |
| `Display.NewEventWriter` | src/Autofac.Analysis/Display/EventWriter.cs:23-28 | a null bus yields an ArgumentNull failure for "eventBus"; a null logger, with a bus present, yields a null-reference failure; only when both are present is a writer produced |
| `Display.LevelFor` | src/Autofac.Analysis/Display/EventWriter.cs:37-41 | Error relevance maps to Error level, Warning relevance to Warning level, and any other relevance to Information level, each in both directions |
| `Display.HandleMessage` | src/Autofac.Analysis/Display/EventWriter.cs:35-44 | exactly one record, never at Debug level, at the level mapped from the relevance, with args (title, message) |
| `Display.HandleCreated` | src/Autofac.Analysis/Display/EventWriter.cs:51-54 | exactly one Information record with the "started" template, carrying the operation id |
| `Display.GetPrefix` | src/Autofac.Analysis/Display/EventWriter.cs:94-97 | the prefix has length twice the depth and consists only of '-' |
| `Display.PrefixDeterminesDepth` | src/Autofac.Analysis/Display/EventWriter.cs:94-97 | any dash-only string of length 2·depth is the prefix of that depth, so the prefix determines the depth |
| `Display.LogInstanceLookup` | src/Autofac.Analysis/Display/EventWriter.cs:81-92 | a leaf emits nothing; a non-leaf emits its header at prefix(depth) first and at least one line per dependency; every line is a Debug header or dependency line whose dash prefix is at least as deep as the depth |
| `Display.LogDependencies` | src/Autofac.Analysis/Display/EventWriter.cs:87-91 | the loop emits at least one line per dependency, the first being the first dependency's line at depth + 1, and every line is a listing line at least as deep as the depth |
| `Display.LogDependenciesAppend` | src/Autofac.Analysis/Display/EventWriter.cs:87-91 | the loop's output for a concatenation of dependency runs is the concatenation of their outputs, so dependencies are listed in their original order |
| `Display.LogDependenciesSplit` | src/Autofac.Analysis/Display/EventWriter.cs:87-91 | the loop's output splits around any dependency i: the output for the dependencies before i, then i's line at depth + 1 and i's own listing at depth + 2, then the output for the dependencies after i |
| `Display.DependencyBlock` | src/Autofac.Analysis/Display/EventWriter.cs:85-91 | for every dependency i of a non-leaf node, the listing is the header, then the blocks of dependencies before i, then i's line at depth + 1 followed by i's own listing at depth + 2, then the blocks after i |
| `Display.DependencyLinesFollowPreOrder` | src/Autofac.Analysis/Display/EventWriter.cs:87-90 | the dependency lines name every node below the root exactly once, in pre-order |
| `Display.HeadersFollowPreOrder` | src/Autofac.Analysis/Display/EventWriter.cs:83-85 | the "depends on" headers name exactly the non-leaf nodes of the subtree, in pre-order |
| `Display.ListingLength` | src/Autofac.Analysis/Display/EventWriter.cs:83-91 | the number of lines equals the sum, over every non-leaf node of the subtree, of 1 plus its number of dependencies |
| `Display.LogResolvedObjectGraph` | src/Autofac.Analysis/Display/EventWriter.cs:67-79 | the "Resolved" line, with the root component and the calling method, comes first; a root without dependencies is followed by exactly one "has no dependencies" line; otherwise the first dependency's dependent is listed at depth 0; every line is Debug |
| `Display.HandleCompleted` | src/Autofac.Analysis/Display/EventWriter.cs:56-65 | all graph lines are written at Debug level before the final Information "completed" record carrying the operation id |
| `Display.DispatchSummary` | src/Autofac.Analysis/Display/EventWriter.cs:35-65 | each handled event writes exactly one record that is not at Debug level: the message, or the started or completed line |
| `Display.ReplaySummaries` | src/Autofac.Analysis/Display/EventWriter.cs:35-65 | with the Debug detail left out, the writer's trace for a series of events is one summary record per event, in event order |
| `Display.ResolveScenario` | src/Autofac.Analysis/Display/EventWriter.cs:51-91 | operation "R1" from "Main.Start" resolving "OrderService" with one dependency "Logger" logs start, resolved line, header, dependency line with prefix "--", then completion |

## Left out

- Subscribing and unsubscribing the writer (`Start`, `Dispose`), and the bus that dispatches enqueued events to subscribers. The queue is modelled only as the list of events enqueued on it.
- Rendering message templates into text, and the logger's source-context enrichment. Records keep the template and arguments unrendered, and the logger is an opaque value.
- Thread safety of the warned-descriptions set. Calls are modelled as sequential.
- The internals of lifetime scopes, instance lookups, resolve operations, ids and calling-method display names. Their sources are not part of this model, so ids, descriptions and display names are opaque strings.
- The `Dependent` back-reference of an instance lookup. It is a parameter `dependentOf` that the model does not interpret.
- Null members: a null root lookup or a null `Dependent` ends in a null-reference exception in the source. The model's datatypes have no null, so these failures are not modelled.
- Null scope descriptions: the source accepts a null description as an ordinary dedup key. The first such scope disposed out of order is warned about, and later ones are suppressed. A model description is always a string, so it cannot represent a null key.
- Deep or cyclic lookup graphs: `LogInstanceLookup` recurses without bound, so a very deep or cyclic graph ends in a stack overflow in the source. The model's lookup trees are finite and acyclic, so its walk always finishes.
- `ActiveChildren` is a sequence in iteration order. The source's collection type is not part of this model, so the model does not rule out a child listed twice.
- The relevance values other than Error and Warning are not part of this model. They are carried together by `OtherRelevance`, which the writer treats alike.
- Display.GetPrefix: takes a natural-number depth. The source's `int` depth is only ever 0 or larger here, and a depth large enough to overflow `depth*2` cannot arise from a finite tree walk.
- The handlers attach no structured graph and do no short-id formatting, so neither is modelled.
