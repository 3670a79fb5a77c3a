/**
 * The out-of-order disposal detector: on the completion of a lifetime scope
 * that still has active children it enqueues one error message, at most once
 * per scope description.
 */
module DisposalDetector {
  import opened Wrappers
  import opened Seqs
  import opened Logging
  import opened Session
  import opened Application

  /** A message event as the detector builds it: a level, a message template
      and positional arguments. */
  datatype MessageEvent = MessageEvent(level: Level, messageTemplate: string, args: seq<Arg>)

  /** The application event queue, seen as the list of events enqueued on it. */
  datatype EventQueue = EventQueue(pending: seq<MessageEvent>)

  /** The detector's state: its queue and the descriptions already warned about. */
  datatype Detector = Detector(queue: EventQueue, warned: set<string>)

  const DisposalWarningTemplate: string :=
    "A {LifetimeScopeDescription} lifetime scope, {LifetimeScopeId}, was disposed before its active children (including {ChildScopeDescriptions})."

  /** The constructor: a null queue is refused, otherwise nothing has been warned about yet. */
  function NewDetector(queue: Option<EventQueue>): (r: Result<Detector, ConstructionError>)
    ensures r.Failure? <==> queue.None?
    ensures r.Failure? ==> r.error == ArgumentNull("applicationEventQueue")
    ensures r.Success? ==> r.value.queue == queue.value && r.value.warned == {}
  {
    match queue
    case None => Failure(ArgumentNull("applicationEventQueue"))
    case Some(q) => Success(Detector(q, {}))
  }

  function DescriptionOf(s: LifetimeScope): string {
    s.description
  }

  /** The descriptions of the scope's active children, in iteration order. */
  function ChildDescriptions(s: LifetimeScope): (r: seq<string>)
    ensures |r| == |s.activeChildren|
    ensures forall i :: 0 <= i < |r| ==> r[i] == s.activeChildren[i].description
  {
    Map(DescriptionOf, s.activeChildren)
  }

  /** A scope was disposed out of order when children were still active at its completion. */
  predicate DisposedOutOfOrder(s: LifetimeScope) {
    |s.activeChildren| != 0
  }

  /** The error message naming the scope's description, its id and its active children. */
  function DisposalWarning(s: LifetimeScope): (m: MessageEvent)
    ensures m.level == Error && m.messageTemplate == DisposalWarningTemplate
    ensures |m.args| == 3
    ensures m.args[0] == Text(s.description) && m.args[1] == Text(s.id)
    ensures m.args[2].TextArray? && |m.args[2].items| == |s.activeChildren|
    ensures forall i :: 0 <= i < |s.activeChildren| ==> m.args[2].items[i] == s.activeChildren[i].description
  {
    MessageEvent(Error, DisposalWarningTemplate, [Text(s.description), Text(s.id), TextArray(ChildDescriptions(s))])
  }

  /** Handle(ItemCompletedEvent<LifetimeScope>): warn about the first out-of-order
      disposal of each description; otherwise leave the detector as it was. */
  function Handle(d: Detector, e: ItemCompletedEvent<LifetimeScope>): (d': Detector)
    ensures !DisposedOutOfOrder(e.item) ==> d' == d
    ensures e.item.description in d.warned ==> d' == d
    ensures DisposedOutOfOrder(e.item) && e.item.description !in d.warned ==>
              d'.warned == d.warned + {e.item.description} &&
              d'.queue.pending == d.queue.pending + [DisposalWarning(e.item)]
    ensures d.warned <= d'.warned
    ensures |d.queue.pending| <= |d'.queue.pending| <= |d.queue.pending| + 1
    ensures d'.queue.pending[..|d.queue.pending|] == d.queue.pending
  {
    var scope := e.item;
    if DisposedOutOfOrder(scope) then
      if scope.description in d.warned then d
      else Detector(EventQueue(d.queue.pending + [DisposalWarning(scope)]), d.warned + {scope.description})
    else d
  }

  /** The detector handling a series of scope completions in order. */
  function Run(d: Detector, es: seq<ItemCompletedEvent<LifetimeScope>>): Detector
    decreases |es|
  {
    if |es| == 0 then d else Run(Handle(d, es[0]), es[1..])
  }

  /** The distinct descriptions of the scopes in `es` that were disposed out of order. */
  function OutOfOrderDescriptions(es: seq<ItemCompletedEvent<LifetimeScope>>): set<string> {
    set i | 0 <= i < |es| && DisposedOutOfOrder(es[i].item) :: es[i].item.description
  }

  /** The scope description a detector message names. */
  function WarnedDescription(m: MessageEvent): string {
    if |m.args| > 0 && m.args[0].Text? then m.args[0].text else ""
  }

  lemma OutOfOrderDescriptionsCons(es: seq<ItemCompletedEvent<LifetimeScope>>)
    requires |es| > 0
    ensures OutOfOrderDescriptions(es) ==
              (if DisposedOutOfOrder(es[0].item) then {es[0].item.description} else {}) + OutOfOrderDescriptions(es[1..])
  {
  }

  /** The warned set only grows, and after a run it holds exactly the descriptions
      warned before plus those of every scope disposed out of order. */
  lemma {:induction false} RunWarnedSet(d: Detector, es: seq<ItemCompletedEvent<LifetimeScope>>)
    ensures Run(d, es).warned == d.warned + OutOfOrderDescriptions(es)
    decreases |es|
  {
    if |es| > 0 {
      OutOfOrderDescriptionsCons(es);
      RunWarnedSet(Handle(d, es[0]), es[1..]);
    }
  }

  /** A run only appends to the queue. */
  lemma {:induction false} RunExtendsQueue(d: Detector, es: seq<ItemCompletedEvent<LifetimeScope>>)
    ensures |d.queue.pending| <= |Run(d, es).queue.pending|
    ensures Run(d, es).queue.pending[..|d.queue.pending|] == d.queue.pending
    decreases |es|
  {
    if |es| > 0 {
      var d1 := Handle(d, es[0]);
      RunExtendsQueue(d1, es[1..]);
      var p, p1, pn := d.queue.pending, d1.queue.pending, Run(d, es).queue.pending;
      assert pn[..|p|] == pn[..|p1|][..|p|];
    }
  }

  /** A run enqueues one message per description that is disposed out of order
      and was not warned about before: ids play no part. */
  lemma {:induction false} RunMessageCount(d: Detector, es: seq<ItemCompletedEvent<LifetimeScope>>)
    ensures |Run(d, es).queue.pending| == |d.queue.pending| + |OutOfOrderDescriptions(es) - d.warned|
    decreases |es|
  {
    if |es| == 0 {
      assert OutOfOrderDescriptions(es) == {};
    } else {
      var s, rest := es[0].item, es[1..];
      var d1 := Handle(d, es[0]);
      OutOfOrderDescriptionsCons(es);
      RunMessageCount(d1, rest);
      if DisposedOutOfOrder(s) && s.description !in d.warned {
        assert OutOfOrderDescriptions(es) - d.warned ==
               (OutOfOrderDescriptions(rest) - d1.warned) + {s.description};
      } else {
        assert OutOfOrderDescriptions(es) - d.warned == OutOfOrderDescriptions(rest) - d.warned;
      }
    }
  }

  /** The queue names each description at most once, and only warned ones. */
  ghost predicate WarnsOncePerDescription(d: Detector) {
    (forall i :: 0 <= i < |d.queue.pending| ==> WarnedDescription(d.queue.pending[i]) in d.warned) &&
    (forall i, j :: 0 <= i < j < |d.queue.pending| ==>
       WarnedDescription(d.queue.pending[i]) != WarnedDescription(d.queue.pending[j]))
  }

  lemma {:induction false} RunWarnsOncePerDescription(d: Detector, es: seq<ItemCompletedEvent<LifetimeScope>>)
    requires WarnsOncePerDescription(d)
    ensures WarnsOncePerDescription(Run(d, es))
    decreases |es|
  {
    if |es| > 0 {
      var d1 := Handle(d, es[0]);
      assert WarnsOncePerDescription(d1) by {
        if d1 != d {
          assert WarnedDescription(d1.queue.pending[|d.queue.pending|]) == es[0].item.description;
        }
      }
      RunWarnsOncePerDescription(d1, es[1..]);
    }
  }

  /** The i-th completion is the first out-of-order disposal of its description:
      it was neither warned about before the run nor disposed out of order earlier in it. */
  ghost predicate FirstOutOfOrder(warned: set<string>, es: seq<ItemCompletedEvent<LifetimeScope>>, i: int)
    requires 0 <= i < |es|
  {
    DisposedOutOfOrder(es[i].item) && es[i].item.description !in warned + OutOfOrderDescriptions(es[..i])
  }

  /** The k-th message of `pending` is the warning for a completion in `es` that
      is the first out-of-order disposal of its description. */
  ghost predicate IsFirstWarningAt(pending: seq<MessageEvent>, k: int, warned: set<string>,
                                   es: seq<ItemCompletedEvent<LifetimeScope>>)
    requires 0 <= k < |pending|
  {
    exists i :: 0 <= i < |es| && FirstOutOfOrder(warned, es, i) && pending[k] == DisposalWarning(es[i].item)
  }

  /** Every message of `pending` from index `from` on is such a first warning. */
  ghost predicate FirstWarningsFrom(pending: seq<MessageEvent>, from: int, warned: set<string>,
                                    es: seq<ItemCompletedEvent<LifetimeScope>>)
  {
    forall k :: 0 <= from <= k < |pending| ==> IsFirstWarningAt(pending, k, warned, es)
  }

  /** The k-th message of a run's queue, if the run appended it, is the warning for
      a completion that is the first out-of-order disposal of its description. */
  lemma {:induction false} RunAppendsFirstWarning(d: Detector, es: seq<ItemCompletedEvent<LifetimeScope>>, k: nat)
    requires |d.queue.pending| <= k < |Run(d, es).queue.pending|
    decreases |es|
    ensures IsFirstWarningAt(Run(d, es).queue.pending, k, d.warned, es)
  {
    assert |es| > 0;
    var d1 := Handle(d, es[0]);
    var rest := es[1..];
    var r := Run(d1, rest);
    assert Run(d, es) == r;
    var f0: set<string> := if DisposedOutOfOrder(es[0].item) then {es[0].item.description} else {};
    assert d1.warned == d.warned + f0;
    if k < |d1.queue.pending| {
      RunExtendsQueue(d1, rest);
      assert r.queue.pending[k] == d1.queue.pending[k];
      assert es[..0] == [];
      assert FirstOutOfOrder(d.warned, es, 0);
      assert r.queue.pending[k] == DisposalWarning(es[0].item);
    } else {
      RunAppendsFirstWarning(d1, rest, k);
      assert IsFirstWarningAt(r.queue.pending, k, d1.warned, rest);
      var i :| 0 <= i < |rest| && FirstOutOfOrder(d1.warned, rest, i) &&
               r.queue.pending[k] == DisposalWarning(rest[i].item);
      assert es[..i + 1][1..] == rest[..i];
      OutOfOrderDescriptionsCons(es[..i + 1]);
      assert es[i + 1] == rest[i];
      assert FirstOutOfOrder(d.warned, es, i + 1);
    }
  }

  /** Every message a run appends is the warning for a scope that is the first
      out-of-order disposal of its description. */
  lemma RunAppendsFirstWarnings(d: Detector, es: seq<ItemCompletedEvent<LifetimeScope>>)
    ensures FirstWarningsFrom(Run(d, es).queue.pending, |d.queue.pending|, d.warned, es)
  {
    forall k | 0 <= |d.queue.pending| <= k < |Run(d, es).queue.pending|
      ensures IsFirstWarningAt(Run(d, es).queue.pending, k, d.warned, es)
    {
      RunAppendsFirstWarning(d, es, k);
    }
  }

  /** The warning property of a fresh detector: after any series of scope
      completions, its queue holds one error message per distinct description of
      a scope disposed out of order, no description twice, each naming a warned
      description and each the warning for the first out-of-order scope of its
      description. */
  lemma FreshDetectorWarnsOncePerDescription(es: seq<ItemCompletedEvent<LifetimeScope>>)
    ensures NewDetector(Some(EventQueue([]))).Success?
    ensures var r := Run(NewDetector(Some(EventQueue([]))).value, es);
            |r.queue.pending| == |OutOfOrderDescriptions(es)| &&
            r.warned == OutOfOrderDescriptions(es) &&
            WarnsOncePerDescription(r) &&
            FirstWarningsFrom(r.queue.pending, 0, {}, es)
  {
    var d := NewDetector(Some(EventQueue([]))).value;
    assert d == Detector(EventQueue([]), {});
    RunMessageCount(d, es);
    RunWarnedSet(d, es);
    RunWarnsOncePerDescription(d, es);
    RunAppendsFirstWarnings(d, es);
  }

  /** A "PerRequest" scope completed with two active children warns once, naming
      both; a second "PerRequest" scope with another id adds nothing; a scope
      with a different description gets its own warning. */
  lemma PerRequestScenario()
    ensures var handler := LifetimeScope("c1", "Handler", []);
            var logger := LifetimeScope("c2", "Logger", []);
            var first := LifetimeScope("s1", "PerRequest", [handler, logger]);
            var second := LifetimeScope("s2", "PerRequest", [logger]);
            var other := LifetimeScope("s3", "PerThread", [handler]);
            var d0 := Detector(EventQueue([]), {});
            var d1 := Handle(d0, ItemCompletedEvent(first));
            var d2 := Handle(d1, ItemCompletedEvent(second));
            var d3 := Handle(d2, ItemCompletedEvent(other));
            d1.queue.pending == [MessageEvent(Error, DisposalWarningTemplate,
                                   [Text("PerRequest"), Text("s1"), TextArray(["Handler", "Logger"])])] &&
            d2 == d1 &&
            |d3.queue.pending| == 2 && d3.warned == {"PerRequest", "PerThread"}
  {
    var handler := LifetimeScope("c1", "Handler", []);
    var logger := LifetimeScope("c2", "Logger", []);
    var first := LifetimeScope("s1", "PerRequest", [handler, logger]);
    assert ChildDescriptions(first) == ["Handler", "Logger"];
    assert "PerRequest" != "PerThread" by {
      assert "PerRequest"[4] != "PerThread"[4];
    }
  }
}
