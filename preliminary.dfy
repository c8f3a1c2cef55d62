/** The preliminary handler: when a request arrives while the flow rests on a node that does not
    consume requests itself, it lets a matching stack command take over, or stays put so that the
    cycle ends on this node. */
module Preliminary {
  import opened Wrappers
  import opened Types
  import opened Program
  import opened Runtime
  import Command
  import Interaction
  import CycleHandler

  /** The handlers that consume requests themselves (`eventHandlers`), in their registered order. */
  datatype EventHandler = Capture | CaptureV2 | InteractionH | V1 | IfV2

  const EVENT_HANDLERS: seq<EventHandler> := [Capture, CaptureV2, InteractionH, V1, IfV2]

  /** The `canHandle` of an event handler. Only the interaction handler's is part of this model; the
      others are given by `foreign`. */
  predicate EventHandlerCanHandle(h: EventHandler, node: Node, st: RuntimeState, foreign: (EventHandler, Node, RuntimeState) -> bool) {
    if h == InteractionH then Interaction.CanHandle(node) else foreign(h, node, st)
  }

  /** `PreliminaryHandler.canHandle(node, runtime, ...)` */
  function CanHandle(node: Node, st: RuntimeState, foreign: (EventHandler, Node, RuntimeState) -> bool): (r: bool)
    ensures st.request.None? ==> !r
    ensures st.action != Request ==> !r
    ensures node.interactions.Some? ==> !r
    ensures r <==> st.request.Some? && st.action == Request &&
                   forall k :: 0 <= k < |EVENT_HANDLERS| ==> !EventHandlerCanHandle(EVENT_HANDLERS[k], node, st, foreign)
  {
    assert EVENT_HANDLERS[2] == InteractionH;
    st.request.Some? && st.action == Request &&
    !(exists k :: 0 <= k < |EVENT_HANDLERS| && EventHandlerCanHandle(EVENT_HANDLERS[k], node, st, foreign))
  }

  /** `PreliminaryHandler.handle(node, runtime, variables)`: the next id and the new state. */
  function HandleSpec(node: Node, st: RuntimeState, matcher: EventMatcher): (r: (Option<NodeId>, RuntimeState))
    ensures Command.CanHandle(st, matcher) ==> r == Command.HandleSpec(st, matcher) && r.0.None?
    ensures !Command.CanHandle(st, matcher) ==> r == (Some(node.id), st)
  {
    if Command.CanHandle(st, matcher) then Command.HandleSpec(st, matcher) else (Some(node.id), st)
  }

  /** The preliminary handler as the cycle sees it. */
  function AsHandler(matcher: EventMatcher, foreign: (EventHandler, Node, RuntimeState) -> bool): Handler {
    Handler((n: Node, st: RuntimeState, p: ProgramModel) => Ok(CanHandle(n, st, foreign)),
            (n: Node, st: RuntimeState, p: ProgramModel) => var r := HandleSpec(n, st, matcher); Returned(r.0, r.1))
  }

  /** Staying put ends the cycle: when the preliminary handler is the one dispatched and no command
      matches, the node returns its own id, so the runtime ends and the loop exits. */
  lemma StayingPutEndsCycle(c: CycleHandler.Ctx, l: CycleHandler.Loop, matcher: EventMatcher,
                            foreign: (EventHandler, Node, RuntimeState) -> bool, k: nat)
    requires l.i <= CycleHandler.HANDLER_OVERFLOW
    requires var l1 := CycleHandler.Resolve(c, l);
             && l1.node.Some? && k < |c.handlers| && c.handlers[k] == AsHandler(matcher, foreign)
             && CycleHandler.Select(c.handlers, l1.node.value, l1.rt, c.program, 0) == Ok(Some(k))
             && !Command.CanHandle(l1.rt, matcher)
    ensures CycleHandler.Step(c, l).rt.ended && CycleHandler.Step(c, l).node.None?
  {
  }
}
