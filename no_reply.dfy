/** The no-reply handler, reconstructed from its unit tests: the same escalation as the no-match
    handler, on the no-reply counter, with the legacy `reprompt` field standing in for a missing
    prompt list and `choice:noReply` traced on hand-off. */
module NoReply {
  import opened Wrappers
  import opened Types
  import opened Runtime
  import opened Utils
  import Retry

  const NO_REPLY_PATH := "choice:noReply"

  /** `noReply?.prompts ?? (reprompt ? [reprompt] : [])` */
  function Prompts(node: Node): (r: seq<Prompt>)
    ensures node.noReply.Some? && node.noReply.value.prompts.Some? ==> r == node.noReply.value.prompts.value
    ensures !(node.noReply.Some? && node.noReply.value.prompts.Some?) ==>
              r == (if node.reprompt.Some? && PromptTruthy(node.reprompt.value) then [node.reprompt.value] else [])
  {
    if node.noReply.Some? && node.noReply.value.prompts.Some? then node.noReply.value.prompts.value
    else if node.reprompt.Some? && PromptTruthy(node.reprompt.value) then [node.reprompt.value]
    else []
  }

  /** The escalation settings of the no-reply handler. */
  function Policy(node: Node): Retry.Policy {
    var cfg := node.noReply;
    Retry.Policy(RemoveEmptyPrompts(Prompts(node)), cfg.Some? && cfg.value.randomize == Some(true),
                 if cfg.Some? then cfg.value.nodeID else None, NO_REPLIES_COUNTER, NO_REPLY_PATH)
  }

  /** `NoReplyHandler.handle(node, runtime, variables)`: the next id and the new runtime state. */
  function HandleSpec(node: Node, st: RuntimeState, render: Prompt -> string, pick: nat): (r: (Option<NodeId>, RuntimeState))
    ensures var prompts := RemoveEmptyPrompts(Prompts(node));
            var c := CounterOf(st.storage, NO_REPLIES_COUNTER);
            && (c >= |prompts| ==>
                  && r.0 == (if node.noReply.Some? then node.noReply.value.nodeID else None)
                  && NO_REPLIES_COUNTER !in r.1.storage
                  && r.1.trace == st.trace + [PathTrace(NO_REPLY_PATH)])
            && (c < |prompts| ==>
                  && r.0 == Some(node.id)
                  && NO_REPLIES_COUNTER in r.1.storage && r.1.storage[NO_REPLIES_COUNTER] == Count(c + 1)
                  && |r.1.trace| >= |st.trace| + 2
                  && r.1.trace[|st.trace|] == PathTrace(Retry.REPROMPT)
                  && (exists k :: 0 <= k < |prompts| && r.1.trace[|st.trace| + 1] == OutputTrace(render, prompts[k]))
                  && (!Policy(node).randomize ==> r.1.trace[|st.trace| + 1] == OutputTrace(render, prompts[c])))
    ensures r.1 == st.(storage := r.1.storage, trace := r.1.trace)
  {
    var pol := Policy(node);
    var r := Retry.Handle(pol, node, st, render, pick);
    var c := CounterOf(st.storage, NO_REPLIES_COUNTER);
    if c < |pol.prompts| then
      var p := Retry.Chosen(pol, c, pick);
      var k :| 0 <= k < |pol.prompts| && pol.prompts[k] == p;
      assert r.1.trace[|st.trace| + 1] == OutputTrace(render, pol.prompts[k]);
      r
    else r
  }

  /** `NoReplyHandler.handle` on the live runtime. */
  method Handle(rt: Runtime, node: Node, render: Prompt -> string, pick: nat) returns (next: Option<NodeId>)
    modifies rt
    ensures (next, rt.State()) == HandleSpec(node, old(rt.State()), render, pick)
    ensures rt.events == old(rt.events)
  {
    next := Retry.Run(rt, Policy(node), node, render, pick);
  }

  /** A node with one prompt and no buttons or timeout, first no-reply: stays on the node, traces
      the reprompt path and the speech, and stores counter 1. */
  lemma FirstReprompt(node: Node, st: RuntimeState, render: Prompt -> string, pick: nat, p: Prompt)
    requires node.noReply == Some(NoReplyConfig(Some([p]), None, None, None)) && node.buttons == []
    requires !IsEmptyPrompt(p) && NO_REPLIES_COUNTER !in st.storage
    ensures var r := HandleSpec(node, st, render, pick);
            && r.0 == Some(node.id)
            && r.1.trace == st.trace + [PathTrace(Retry.REPROMPT), OutputTrace(render, p)]
            && r.1.storage == st.storage[NO_REPLIES_COUNTER := Count(1)]
  {
    assert RemoveEmptyPrompts(Prompts(node)) == [p] by {
      assert [p][1..] == [];
    }
  }

  /** Without a no-reply configuration or legacy reprompt, the handler returns no next id. */
  lemma NoConfiguration(node: Node, st: RuntimeState, render: Prompt -> string, pick: nat)
    requires node.noReply.None? && node.reprompt.None?
    ensures HandleSpec(node, st, render, pick).0.None?
  {
  }

  /** A configured fallback without prompts: hand-off at once, tracing only `choice:noReply`. */
  lemma FallbackWithoutPrompts(node: Node, st: RuntimeState, render: Prompt -> string, pick: nat, target: NodeId)
    requires node.noReply == Some(NoReplyConfig(None, None, Some(target), None)) && node.reprompt.None?
    ensures var r := HandleSpec(node, st, render, pick);
            r.0 == Some(target) && r.1.trace == st.trace + [PathTrace(NO_REPLY_PATH)]
  {
  }

  /** Empty entries (`null`, the empty-audio marker) are skipped: with `[empty, p]` the first
      no-reply speaks `p`. */
  lemma SkipsEmptyPrompt(node: Node, st: RuntimeState, render: Prompt -> string, pick: nat, e: Prompt, p: Prompt)
    requires node.noReply == Some(NoReplyConfig(Some([e, p]), None, None, None))
    requires IsEmptyPrompt(e) && !IsEmptyPrompt(p) && NO_REPLIES_COUNTER !in st.storage
    ensures var r := HandleSpec(node, st, render, pick);
            r.0 == Some(node.id) && |r.1.trace| > |st.trace| + 1 && r.1.trace[|st.trace| + 1] == OutputTrace(render, p)
  {
    assert RemoveEmptyPrompts(Prompts(node)) == [p] by {
      assert [e, p][1..] == [p];
      assert [p][1..] == [];
    }
  }

  /** The legacy `reprompt` field behaves exactly as a one-prompt `noReply` configuration. */
  lemma DeprecatedReprompt(node: Node, st: RuntimeState, render: Prompt -> string, pick: nat, p: Prompt)
    requires PromptTruthy(p)
    ensures HandleSpec(node.(noReply := None, reprompt := Some(p)), st, render, pick)
         == HandleSpec(node.(noReply := Some(NoReplyConfig(Some([p]), None, None, None)), reprompt := None), st, render, pick)
  {
    var legacy := node.(noReply := None, reprompt := Some(p));
    var current := node.(noReply := Some(NoReplyConfig(Some([p]), None, None, None)), reprompt := None);
    assert Policy(legacy) == Policy(current);
    assert TimeoutTraces(legacy) == TimeoutTraces(current);
    assert legacy.id == current.id && legacy.buttons == current.buttons;
  }
}
