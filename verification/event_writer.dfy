/**
 * The event writer: renders message events and resolve-operation lifecycle
 * events as records on the logging sink, including a debug listing of the
 * resolved dependency tree.
 */
module Display {
  import opened Wrappers
  import opened Seqs
  import opened Logging
  import opened Session
  import opened Application

  /** How relevant a message is. Only Error and Warning are told apart by the writer;
      every other relevance is carried by `OtherRelevance`. */
  datatype MessageRelevance = ErrorRelevance | WarningRelevance | OtherRelevance(name: string)

  /** A message event as the writer reads it: a relevance, a title and a message. */
  datatype MessageEvent = MessageEvent(relevance: MessageRelevance, title: string, message: string)

  /** The collaborators the writer is built from; their behaviour is not modelled. */
  datatype EventBus = EventBus
  datatype Logger = Logger

  datatype EventWriter = EventWriter(eventBus: EventBus, logger: Logger)

  /** The events the writer subscribes to. */
  datatype WriterEvent =
    | Message(message: MessageEvent)
    | Created(created: ItemCreatedEvent<ResolveOperation>)
    | Completed(completed: ItemCompletedEvent<ResolveOperation>)

  const MessageTemplate: string := "{Title}: {Message}"
  const StartedTemplate: string := "Resolve operation {ResolveOperationId} started"
  const CompletedTemplate: string := "Resolve operation {ResolveOperationId} completed"
  const ResolvedTemplate: string := "Resolved {Component} from {Source}"
  const NoDependenciesTemplate: string := "{Component} has no dependencies"
  const DependsOnTemplate: string := "{Prefix} {Component} depends on:"
  const DependencyTemplate: string := "{Prefix} {Component}"

  /** The constructor: a null bus is refused by its guard; a null logger fails
      when the writer asks it for a context logger. */
  function NewEventWriter(eventBus: Option<EventBus>, logger: Option<Logger>): (r: Result<EventWriter, ConstructionError>)
    ensures r.Success? <==> eventBus.Some? && logger.Some?
    ensures eventBus.None? ==> r == Failure(ArgumentNull("eventBus"))
    ensures eventBus.Some? && logger.None? ==> r == Failure(NullReference)
    ensures r.Success? ==> r.value.eventBus == eventBus.value
  {
    if eventBus.None? then Failure(ArgumentNull("eventBus"))
    else if logger.None? then Failure(NullReference)
    else Success(EventWriter(eventBus.value, logger.value))
  }

  /** The level a message is written at. */
  function LevelFor(relevance: MessageRelevance): (level: Level)
    ensures level == Error <==> relevance.ErrorRelevance?
    ensures level == Warning <==> relevance.WarningRelevance?
    ensures level == Information <==> relevance.OtherRelevance?
  {
    match relevance
    case ErrorRelevance => Error
    case WarningRelevance => Warning
    case OtherRelevance(_) => Information
  }

  /** Handle(MessageEvent): one record carrying the title and the message. */
  function HandleMessage(e: MessageEvent): (t: Trace)
    ensures |t| == 1
    ensures t[0].template == MessageTemplate && t[0].args == [Text(e.title), Text(e.message)]
    ensures t[0].level == LevelFor(e.relevance)
    ensures t[0].level != Debug
  {
    [Record(LevelFor(e.relevance), MessageTemplate, [Text(e.title), Text(e.message)])]
  }

  /** Handle(ItemCreatedEvent<ResolveOperation>): one information record carrying the operation id. */
  function HandleCreated(e: ItemCreatedEvent<ResolveOperation>): (t: Trace)
    ensures |t| == 1
    ensures t[0] == Record(Information, StartedTemplate, [Text(e.item.id)])
  {
    [Record(Information, StartedTemplate, [Text(e.item.id)])]
  }

  /** The indentation of a dependency listing line: two dashes per level of depth. */
  function GetPrefix(depth: nat): (p: string)
    ensures |p| == 2 * depth
    ensures forall i :: 0 <= i < |p| ==> p[i] == '-'
  {
    if depth == 0 then "" else "--" + GetPrefix(depth - 1)
  }

  /** A dash-only prefix determines its depth, so distinct depths get distinct prefixes. */
  lemma PrefixDeterminesDepth(p: string, depth: nat)
    requires |p| == 2 * depth && forall i :: 0 <= i < |p| ==> p[i] == '-'
    ensures p == GetPrefix(depth)
  {
  }

  function DependsOnLine(depth: nat, l: InstanceLookup): Record {
    Record(Debug, DependsOnTemplate, [Text(GetPrefix(depth)), Text(l.component)])
  }

  function DependencyLine(depth: nat, l: InstanceLookup): Record {
    Record(Debug, DependencyTemplate, [Text(GetPrefix(depth)), Text(l.component)])
  }

  /** A line of a dependency listing rooted at `depth`: a debug header or
      dependency line whose dash prefix is at least that deep. */
  predicate IsListingLine(r: Record, depth: nat) {
    r.level == Debug &&
    (r.template == DependsOnTemplate || r.template == DependencyTemplate) &&
    |r.args| == 2 && r.args[0].Text? && r.args[1].Text? &&
    |r.args[0].text| >= 2 * depth && |r.args[0].text| % 2 == 0 &&
    forall i :: 0 <= i < |r.args[0].text| ==> r.args[0].text[i] == '-'
  }

  /** LogInstanceLookup: nothing for a leaf; otherwise a header at `depth`, then
      for each dependency a line one level deeper followed by that dependency's
      own listing two levels deeper. */
  function LogInstanceLookup(l: InstanceLookup, depth: nat): (t: Trace)
    decreases l
    ensures IsLeaf(l) ==> t == []
    ensures !IsLeaf(l) ==> |t| >= 1 + |l.dependencyLookups| && t[0] == DependsOnLine(depth, l)
    ensures forall i :: 0 <= i < |t| ==> IsListingLine(t[i], depth)
  {
    if IsLeaf(l) then [] else [DependsOnLine(depth, l)] + LogDependencies(l.dependencyLookups, depth)
  }

  /** The foreach loop of LogInstanceLookup over the dependencies `ls` of a node at `depth`. */
  function LogDependencies(ls: seq<InstanceLookup>, depth: nat): (t: Trace)
    decreases ls
    ensures |t| >= |ls|
    ensures |ls| > 0 ==> t[0] == DependencyLine(depth + 1, ls[0])
    ensures forall i :: 0 <= i < |t| ==> IsListingLine(t[i], depth)
  {
    if |ls| == 0 then []
    else [DependencyLine(depth + 1, ls[0])] + LogInstanceLookup(ls[0], depth + 2) + LogDependencies(ls[1..], depth)
  }

  /** The listing of a run of dependencies is the listing of its parts, in order. */
  lemma {:induction false} LogDependenciesAppend(a: seq<InstanceLookup>, b: seq<InstanceLookup>, depth: nat)
    decreases |a|
    ensures LogDependencies(a + b, depth) == LogDependencies(a, depth) + LogDependencies(b, depth)
  {
    if |a| == 0 {
      assert a + b == b;
    } else {
      assert (a + b)[0] == a[0];
      assert (a + b)[1..] == a[1..] + b;
      LogDependenciesAppend(a[1..], b, depth);
    }
  }

  /** The loop's output splits around its i-th dependency: the blocks before it,
      its own line at depth + 1 and listing at depth + 2, then the blocks after it. */
  lemma LogDependenciesSplit(ls: seq<InstanceLookup>, depth: nat, i: nat)
    requires i < |ls|
    ensures LogDependencies(ls, depth) ==
              LogDependencies(ls[..i], depth) +
              ([DependencyLine(depth + 1, ls[i])] + LogInstanceLookup(ls[i], depth + 2) + LogDependencies(ls[i + 1..], depth))
  {
    var before, tail := ls[..i], ls[i..];
    assert ls == before + tail;
    LogDependenciesAppend(before, tail, depth);
    assert tail[0] == ls[i] && tail[1..] == ls[i + 1..];
  }

  /** In the listing of a non-leaf node, the block of its i-th dependency (its line
      at depth + 1, then its own listing at depth + 2) comes after the blocks of
      the dependencies before it and before those after it. */
  lemma DependencyBlock(l: InstanceLookup, depth: nat, i: nat)
    requires i < |l.dependencyLookups|
    ensures var ls := l.dependencyLookups;
            LogInstanceLookup(l, depth) ==
              [DependsOnLine(depth, l)] + LogDependencies(ls[..i], depth) +
              [DependencyLine(depth + 1, ls[i])] + LogInstanceLookup(ls[i], depth + 2) +
              LogDependencies(ls[i + 1..], depth)
  {
    var ls := l.dependencyLookups;
    LogDependenciesSplit(ls, depth, i);
    var h, a, x, y, b := [DependsOnLine(depth, l)], LogDependencies(ls[..i], depth),
                         [DependencyLine(depth + 1, ls[i])], LogInstanceLookup(ls[i], depth + 2),
                         LogDependencies(ls[i + 1..], depth);
    assert LogInstanceLookup(l, depth) == h + (a + (x + y + b));
    SeqAssoc5(h, a, x, y, b);
  }

  lemma SeqAssoc5<T>(h: seq<T>, a: seq<T>, x: seq<T>, y: seq<T>, b: seq<T>)
    ensures h + (a + (x + y + b)) == h + a + x + y + b
  {
  }

  /** The component a listing line names. */
  function ListingComponent(r: Record): string {
    if |r.args| == 2 && r.args[1].Text? then r.args[1].text else ""
  }

  predicate IsDependsOnLine(r: Record) {
    r.template == DependsOnTemplate
  }

  predicate IsDependencyLine(r: Record) {
    r.template == DependencyTemplate
  }

  /** The components named by the dependency lines of a trace, in order. */
  function DependencyComponents(t: Trace): seq<string> {
    Map(ListingComponent, Filter(IsDependencyLine, t))
  }

  /** The components named by the "depends on" headers of a trace, in order. */
  function DependsOnComponents(t: Trace): seq<string> {
    Map(ListingComponent, Filter(IsDependsOnLine, t))
  }

  lemma ComponentsDistribute(a: Trace, b: Trace)
    ensures DependencyComponents(a + b) == DependencyComponents(a) + DependencyComponents(b)
    ensures DependsOnComponents(a + b) == DependsOnComponents(a) + DependsOnComponents(b)
  {
    FilterAppend(IsDependencyLine, a, b);
    MapAppend(ListingComponent, Filter(IsDependencyLine, a), Filter(IsDependencyLine, b));
    FilterAppend(IsDependsOnLine, a, b);
    MapAppend(ListingComponent, Filter(IsDependsOnLine, a), Filter(IsDependsOnLine, b));
  }

  /** Every node below the root gets exactly one dependency line, and these lines
      follow the pre-order of the tree. */
  lemma {:induction false} DependencyLinesFollowPreOrder(l: InstanceLookup, depth: nat)
    decreases l, 1
    ensures DependencyComponents(LogInstanceLookup(l, depth)) == Components(PreOrder(l)[1..])
  {
    assert PreOrder(l)[1..] == PreOrderForest(l.dependencyLookups);
    DependencyLinesFollowPreOrderForest(l.dependencyLookups, depth);
    if !IsLeaf(l) {
      ComponentsDistribute([DependsOnLine(depth, l)], LogDependencies(l.dependencyLookups, depth));
    } else {
      assert l.dependencyLookups == [];
    }
  }

  lemma {:induction false} DependencyLinesFollowPreOrderForest(ls: seq<InstanceLookup>, depth: nat)
    decreases ls, 0
    ensures DependencyComponents(LogDependencies(ls, depth)) == Components(PreOrderForest(ls))
  {
    if |ls| > 0 {
      var line := [DependencyLine(depth + 1, ls[0])];
      var sub := LogInstanceLookup(ls[0], depth + 2);
      var rest := LogDependencies(ls[1..], depth);
      DependencyLinesFollowPreOrder(ls[0], depth + 2);
      DependencyLinesFollowPreOrderForest(ls[1..], depth);
      ComponentsDistribute(line + sub, rest);
      ComponentsDistribute(line, sub);
      MapAppend(ComponentOf, PreOrder(ls[0]), PreOrderForest(ls[1..]));
      assert PreOrder(ls[0]) == [ls[0]] + PreOrder(ls[0])[1..];
      MapAppend(ComponentOf, [ls[0]], PreOrder(ls[0])[1..]);
    }
  }

  /** Every non-leaf node gets exactly one "depends on" header, in pre-order. */
  lemma {:induction false} HeadersFollowPreOrder(l: InstanceLookup, depth: nat)
    decreases l, 1
    ensures DependsOnComponents(LogInstanceLookup(l, depth)) == Components(NonLeaves(PreOrder(l)))
  {
    var notLeaf := (n: InstanceLookup) => !IsLeaf(n);
    FilterAppend(notLeaf, [l], PreOrderForest(l.dependencyLookups));
    HeadersFollowPreOrderForest(l.dependencyLookups, depth);
    if !IsLeaf(l) {
      ComponentsDistribute([DependsOnLine(depth, l)], LogDependencies(l.dependencyLookups, depth));
      MapAppend(ComponentOf, [l], NonLeaves(PreOrderForest(l.dependencyLookups)));
    } else {
      assert l.dependencyLookups == [];
    }
  }

  lemma {:induction false} HeadersFollowPreOrderForest(ls: seq<InstanceLookup>, depth: nat)
    decreases ls, 0
    ensures DependsOnComponents(LogDependencies(ls, depth)) == Components(NonLeaves(PreOrderForest(ls)))
  {
    if |ls| > 0 {
      var notLeaf := (n: InstanceLookup) => !IsLeaf(n);
      var line := [DependencyLine(depth + 1, ls[0])];
      var sub := LogInstanceLookup(ls[0], depth + 2);
      var rest := LogDependencies(ls[1..], depth);
      HeadersFollowPreOrder(ls[0], depth + 2);
      HeadersFollowPreOrderForest(ls[1..], depth);
      ComponentsDistribute(line + sub, rest);
      ComponentsDistribute(line, sub);
      FilterAppend(notLeaf, PreOrder(ls[0]), PreOrderForest(ls[1..]));
      MapAppend(ComponentOf, NonLeaves(PreOrder(ls[0])), NonLeaves(PreOrderForest(ls[1..])));
    }
  }

  /** The listing of a tree has one line per non-leaf node plus one per dependency,
      summed over the whole subtree. */
  lemma {:induction false} ListingLength(l: InstanceLookup, depth: nat)
    decreases l, 1
    ensures |LogInstanceLookup(l, depth)| == Sum(LineCost, PreOrder(l))
  {
    ListingLengthForest(l.dependencyLookups, depth);
    SumAppend(LineCost, [l], PreOrderForest(l.dependencyLookups));
    if IsLeaf(l) {
      assert l.dependencyLookups == [];
    }
  }

  lemma {:induction false} ListingLengthForest(ls: seq<InstanceLookup>, depth: nat)
    decreases ls, 0
    ensures |LogDependencies(ls, depth)| == |ls| + Sum(LineCost, PreOrderForest(ls))
  {
    if |ls| > 0 {
      ListingLength(ls[0], depth + 2);
      ListingLengthForest(ls[1..], depth);
      SumAppend(LineCost, PreOrder(ls[0]), PreOrderForest(ls[1..]));
    }
  }

  /** LogResolvedObjectGraph: a "Resolved" line, then either a "has no dependencies"
      line or the listing of the node the root's first dependency lookup reports
      as its dependent, at depth 0. `dependentOf` stands for the `Dependent`
      back-reference of a lookup, which this model does not interpret. */
  function LogResolvedObjectGraph(op: ResolveOperation, dependentOf: InstanceLookup -> InstanceLookup): (t: Trace)
    ensures |t| >= 1
    ensures t[0] == Record(Debug, ResolvedTemplate, [Text(op.rootInstanceLookup.component), Text(op.callingMethod)])
    ensures IsLeaf(op.rootInstanceLookup) ==>
              t == [t[0], Record(Debug, NoDependenciesTemplate, [Text(op.rootInstanceLookup.component)])]
    ensures !IsLeaf(op.rootInstanceLookup) ==>
              t[1..] == LogInstanceLookup(dependentOf(op.rootInstanceLookup.dependencyLookups[0]), 0)
    ensures forall i :: 0 <= i < |t| ==> t[i].level == Debug
  {
    var root := op.rootInstanceLookup;
    var resolved := Record(Debug, ResolvedTemplate, [Text(root.component), Text(op.callingMethod)]);
    if IsLeaf(root) then
      [resolved, Record(Debug, NoDependenciesTemplate, [Text(root.component)])]
    else
      [resolved] + LogInstanceLookup(dependentOf(root.dependencyLookups[0]), 0)
  }

  /** Handle(ItemCompletedEvent<ResolveOperation>): the whole graph listing at debug
      level, then one information record carrying the operation id. */
  function HandleCompleted(e: ItemCompletedEvent<ResolveOperation>, dependentOf: InstanceLookup -> InstanceLookup): (t: Trace)
    ensures |t| >= 2
    ensures t[|t| - 1] == Record(Information, CompletedTemplate, [Text(e.item.id)])
    ensures t[..|t| - 1] == LogResolvedObjectGraph(e.item, dependentOf)
    ensures forall i :: 0 <= i < |t| - 1 ==> t[i].level == Debug
  {
    LogResolvedObjectGraph(e.item, dependentOf) + [Record(Information, CompletedTemplate, [Text(e.item.id)])]
  }

  /** The writer's dispatch of one subscribed event to its handler. */
  function Dispatch(e: WriterEvent, dependentOf: InstanceLookup -> InstanceLookup): Trace {
    match e
    case Message(m) => HandleMessage(m)
    case Created(c) => HandleCreated(c)
    case Completed(c) => HandleCompleted(c, dependentOf)
  }

  /** The trace the writer leaves after handling `es` in order. */
  function Replay(es: seq<WriterEvent>, dependentOf: InstanceLookup -> InstanceLookup): Trace
    decreases |es|
  {
    if |es| == 0 then [] else Dispatch(es[0], dependentOf) + Replay(es[1..], dependentOf)
  }

  /** The one record of each event that is not debug detail: the message at its
      mapped level, or the operation's started or completed line. */
  function Summary(e: WriterEvent): Record {
    match e
    case Message(m) => Record(LevelFor(m.relevance), MessageTemplate, [Text(m.title), Text(m.message)])
    case Created(c) => Record(Information, StartedTemplate, [Text(c.item.id)])
    case Completed(c) => Record(Information, CompletedTemplate, [Text(c.item.id)])
  }

  predicate IsSummaryLevel(r: Record) {
    r.level != Debug
  }

  lemma DispatchSummary(e: WriterEvent, dependentOf: InstanceLookup -> InstanceLookup)
    ensures Filter(IsSummaryLevel, Dispatch(e, dependentOf)) == [Summary(e)]
  {
    var t := Dispatch(e, dependentOf);
    if e.Completed? {
      var graph := LogResolvedObjectGraph(e.completed.item, dependentOf);
      assert t == graph + [Summary(e)];
      FilterNone(IsSummaryLevel, graph);
      FilterAppend(IsSummaryLevel, graph, [Summary(e)]);
    }
  }

  /** Leaving out the debug detail, a replayed trace holds exactly one record per
      handled event, in the order the events were handled. */
  lemma {:induction false} ReplaySummaries(es: seq<WriterEvent>, dependentOf: InstanceLookup -> InstanceLookup)
    decreases |es|
    ensures Filter(IsSummaryLevel, Replay(es, dependentOf)) == Map(Summary, es)
  {
    if |es| > 0 {
      DispatchSummary(es[0], dependentOf);
      ReplaySummaries(es[1..], dependentOf);
      FilterAppend(IsSummaryLevel, Dispatch(es[0], dependentOf), Replay(es[1..], dependentOf));
    }
  }

  /** Operation "R1", started from "Main.Start", resolves "OrderService" with one
      dependency "Logger"; the `Dependent` of that lookup is taken to be the root.
      The writer logs the start, the resolved line, the root's header and the
      dependency line, then the completion. */
  lemma ResolveScenario()
    ensures var logger := InstanceLookup("Logger", []);
            var root := InstanceLookup("OrderService", [logger]);
            var op := ResolveOperation("R1", "Main.Start", root);
            Replay([Created(ItemCreatedEvent(op)), Completed(ItemCompletedEvent(op))], _ => root) ==
              [ Record(Information, StartedTemplate, [Text("R1")]),
                Record(Debug, ResolvedTemplate, [Text("OrderService"), Text("Main.Start")]),
                Record(Debug, DependsOnTemplate, [Text(""), Text("OrderService")]),
                Record(Debug, DependencyTemplate, [Text("--"), Text("Logger")]),
                Record(Information, CompletedTemplate, [Text("R1")]) ]
  {
    var logger := InstanceLookup("Logger", []);
    var root := InstanceLookup("OrderService", [logger]);
    var op := ResolveOperation("R1", "Main.Start", root);
    var dependent := (_: InstanceLookup) => root;
    var es := [Created(ItemCreatedEvent(op)), Completed(ItemCompletedEvent(op))];
    assert GetPrefix(1) == "--";
    assert LogDependencies([logger], 0) == [DependencyLine(1, logger)];
    assert LogInstanceLookup(root, 0) == [DependsOnLine(0, root), DependencyLine(1, logger)];
    assert Replay(es[1..][1..], dependent) == [];
    assert Replay(es[1..], dependent) == HandleCompleted(ItemCompletedEvent(op), dependent);
  }
}
