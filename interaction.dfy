/** The interaction handler, reconstructed from its unit tests. A node that waits for user input
    renders its buttons when the flow arrives (RUNNING); when the next request comes in it tries,
    in this order, the no-reply handler, the node's own triggers, the stack's commands, the repeat
    handler and finally the no-match handler. */
module Interaction {
  import opened Wrappers
  import opened Types
  import opened Strings
  import opened Runtime
  import opened Utils
  import Command
  import NoMatch
  import NoReply

  /** The repeat handler, which is not part of this model: a capability test and an operation. */
  datatype RepeatHandler = RepeatHandler(canHandle: RuntimeState -> bool, handle: RuntimeState -> (Option<NodeId>, RuntimeState))

  /** The collaborators `handle` is given: the event matcher, the no-reply handler's capability
      test (its source is not part of this model), the repeat handler, the prompt renderer and the
      choice standing for `_.sample`. */
  datatype Deps = Deps(matcher: EventMatcher, noReplyCanHandle: RuntimeState -> bool, repeat: RepeatHandler, render: Prompt -> string, pick: nat)

  /** `InteractionHandler.canHandle(node)`: the node declares `interactions`, even an empty list. */
  predicate CanHandle(node: Node) {
    node.interactions.Some?
  }

  /** The node's triggers; a node without the field has none. */
  function Interactions(node: Node): seq<Interaction> {
    node.interactions.GetOr([])
  }

  /** Position of the first trigger, from position `from` on, that matches the request. */
  function FirstMatch(ints: seq<Interaction>, matcher: EventMatcher, request: Option<Request>, from: nat): (r: Option<nat>)
    requires from <= |ints|
    ensures r.Some? ==> from <= r.value < |ints| && matcher(ints[r.value].event, request).Some?
    ensures forall j :: from <= j < (if r.Some? then r.value else |ints|) ==> matcher(ints[j].event, request).None?
    decreases |ints| - from
  {
    if from == |ints| then None
    else if matcher(ints[from].event, request).Some? then Some(from)
    else FirstMatch(ints, matcher, request, from + 1)
  }

  /** The path traced for the trigger at position `k`, counting from 1. */
  function ChoicePath(k: nat): (s: string)
    ensures |s| > 7 && s[..7] == "choice:"
  {
    "choice:" + NatToString(k + 1)
  }

  /** Distinct triggers are traced with distinct paths. */
  lemma ChoicePathInjective(j: nat, k: nat)
    requires ChoicePath(j) == ChoicePath(k)
    ensures j == k
  {
    assert ChoicePath(j)[7..] == NatToString(j + 1);
    assert ChoicePath(k)[7..] == NatToString(k + 1);
    NatToStringInjective(j + 1, k + 1);
  }

  /** The effect of the trigger at position `k` having matched. */
  function Matched(node: Node, st: RuntimeState, matcher: EventMatcher, k: nat): (r: (Option<NodeId>, RuntimeState))
    requires k < |Interactions(node)| && matcher(Interactions(node)[k].event, st.request).Some?
  {
    var i := Interactions(node)[k];
    var s := st.(effects := st.effects + [matcher(i.event, st.request).value]);
    if i.event.goTo.Some? then (Some(node.id), s.(trace := s.trace + [GotoTrace(i.event.goTo.value.request)]))
    else (OrNull(i.nextId), s.(trace := s.trace + [PathTrace(ChoicePath(k))]))
  }

  /** When no trigger matched: a command, the repeat handler, else the no-match handler. */
  function Fallback(node: Node, st: RuntimeState, deps: Deps): (r: (Option<NodeId>, RuntimeState)) {
    if Command.CanHandle(st, deps.matcher) then Command.HandleSpec(st, deps.matcher)
    else if deps.repeat.canHandle(st) then deps.repeat.handle(st)
    else NoMatch.HandleSpec(node, st, deps.render, deps.pick)
  }

  /** `InteractionHandler.handle(node, runtime, variables)`: the next id and the new state. */
  function HandleSpec(node: Node, st: RuntimeState, deps: Deps): (r: (Option<NodeId>, RuntimeState))
    // arriving at the node: render its buttons and timeout, reset both retry counters, stop here
    ensures st.action == Running ==>
              && r.0 == Some(node.id)
              && r.1 == st.(storage := st.storage - {NO_MATCHES_COUNTER} - {NO_REPLIES_COUNTER},
                            trace := st.trace + ButtonTraces(node) + TimeoutTraces(node))
    // a no-reply request goes to the no-reply handler before anything else
    ensures st.action != Running && deps.noReplyCanHandle(st) ==>
              r == NoReply.HandleSpec(node, st, deps.render, deps.pick)
    // the first matching trigger wins; its side effect is the only one recorded
    ensures var m := FirstMatch(Interactions(node), deps.matcher, st.request, 0);
            st.action != Running && !deps.noReplyCanHandle(st) && m.Some? ==>
              var i := Interactions(node)[m.value];
              && r.1.effects == st.effects + [deps.matcher(i.event, st.request).value]
              && r.1.storage == st.storage && r.1.frames == st.frames && r.1.action == st.action
              && (i.event.goTo.Some? ==>
                    r.0 == Some(node.id) && r.1.trace == st.trace + [GotoTrace(i.event.goTo.value.request)])
              && (i.event.goTo.None? ==>
                    r.0 == OrNull(i.nextId) && r.1.trace == st.trace + [PathTrace(ChoicePath(m.value))])
    // no trigger matched: command, then repeat, then no-match
    ensures st.action != Running && !deps.noReplyCanHandle(st) &&
            FirstMatch(Interactions(node), deps.matcher, st.request, 0).None? ==>
              && (Command.CanHandle(st, deps.matcher) ==> r == Command.HandleSpec(st, deps.matcher))
              && (!Command.CanHandle(st, deps.matcher) && deps.repeat.canHandle(st) ==> r == deps.repeat.handle(st))
              && (!Command.CanHandle(st, deps.matcher) && !deps.repeat.canHandle(st) ==>
                    r == NoMatch.HandleSpec(node, st, deps.render, deps.pick))
  {
    if st.action == Running then
      (Some(node.id), st.(storage := st.storage - {NO_MATCHES_COUNTER} - {NO_REPLIES_COUNTER},
                          trace := st.trace + ButtonTraces(node) + TimeoutTraces(node)))
    else if deps.noReplyCanHandle(st) then NoReply.HandleSpec(node, st, deps.render, deps.pick)
    else
      match FirstMatch(Interactions(node), deps.matcher, st.request, 0)
      case Some(k) => Matched(node, st, deps.matcher, k)
      case None => Fallback(node, st, deps)
  }

  /** Arriving at a node without buttons or timeout emits no trace at all. */
  lemma RunningIsSilent(node: Node, st: RuntimeState, deps: Deps)
    requires st.action == Running && node.buttons == [] && node.noReply.None?
    ensures HandleSpec(node, st, deps).1.trace == st.trace
  {
  }

  /** The scan over the node's triggers on the live runtime: stops at the first match. */
  method Scan(rt: Runtime, node: Node, matcher: EventMatcher) returns (found: Option<nat>)
    ensures found == FirstMatch(Interactions(node), matcher, rt.request, 0)
  {
    var ints := Interactions(node);
    var k := 0;
    while k < |ints| && matcher(ints[k].event, rt.request).None?
      invariant 0 <= k <= |ints|
      invariant forall j :: 0 <= j < k ==> matcher(ints[j].event, rt.request).None?
    {
      k := k + 1;
    }
    found := if k < |ints| then Some(k) else None;
    var expected := FirstMatch(ints, matcher, rt.request, 0);
    if expected.Some? && found.Some? {
      assert !(expected.value < k) && !(k < expected.value);
    }
  }

  /** The branch for a matched trigger on the live runtime. */
  method RunMatched(rt: Runtime, node: Node, matcher: EventMatcher, k: nat) returns (next: Option<NodeId>)
    requires k < |Interactions(node)| && matcher(Interactions(node)[k].event, rt.request).Some?
    modifies rt
    ensures (next, rt.State()) == Matched(node, old(rt.State()), matcher, k)
    ensures rt.events == old(rt.events)
  {
    var i := Interactions(node)[k];
    rt.RunSideEffect(matcher(i.event, rt.request).value);
    if i.event.goTo.Some? {
      rt.AddTrace(GotoTrace(i.event.goTo.value.request));
      next := Some(node.id);
    } else {
      next := OrNull(i.nextId);
      rt.AddTrace(PathTrace(ChoicePath(k)));
    }
  }

  /** The fallback chain on the live runtime. */
  method RunFallback(rt: Runtime, node: Node, deps: Deps) returns (next: Option<NodeId>)
    modifies rt, rt.stack
    ensures (next, rt.State()) == Fallback(node, old(rt.State()), deps)
    ensures rt.events == old(rt.events)
  {
    if Command.CanHandle(rt.State(), deps.matcher) {
      next := Command.Handle(rt, deps.matcher);
    } else if deps.repeat.canHandle(rt.State()) {
      var r := deps.repeat.handle(rt.State());
      rt.Load(r.1);
      next := r.0;
    } else {
      next := NoMatch.Handle(rt, node, deps.render, deps.pick);
    }
  }

  /** `InteractionHandler.handle` on the live runtime. */
  method Handle(rt: Runtime, node: Node, deps: Deps) returns (next: Option<NodeId>)
    modifies rt, rt.stack
    ensures (next, rt.State()) == HandleSpec(node, old(rt.State()), deps)
    ensures rt.events == old(rt.events)
  {
    if rt.action == Running {
      AddButtons(rt, node);
      AddNoReplyTimeout(rt, node);
      rt.StorageDelete(NO_MATCHES_COUNTER);
      rt.StorageDelete(NO_REPLIES_COUNTER);
      next := Some(node.id);
      return;
    }
    if deps.noReplyCanHandle(rt.State()) {
      next := NoReply.Handle(rt, node, deps.render, deps.pick);
      return;
    }
    var found := Scan(rt, node, deps.matcher);
    if found.Some? {
      next := RunMatched(rt, node, deps.matcher, found.value);
    } else {
      next := RunFallback(rt, node, deps);
    }
  }
}
