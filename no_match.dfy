/** The no-match handler: reprompts while the no-match counter is below the number of non-empty
    prompts, then clears the counter and hands off to the fallback node. Legacy node fields
    (`elseId`, `noMatches`, `randomize`) are first folded into the canonical `noMatch` object. */
module NoMatch {
  import opened Wrappers
  import opened Types
  import opened Runtime
  import opened Utils
  import Retry

  const NO_MATCH_PATH := "choice:else"

  /** `convertDeprecatedNoMatch(node)`: each canonical field wins over its legacy counterpart when
      present, the legacy fields are dropped, all other fields are kept. */
  function ConvertDeprecatedNoMatch(node: Node): (r: Node)
    ensures r.noMatch.Some?
    ensures var nm := node.noMatch;
            && r.noMatch.value.prompts == (if nm.Some? && nm.value.prompts.Some? then nm.value.prompts else node.noMatches)
            && r.noMatch.value.randomize == (if nm.Some? && nm.value.randomize.Some? then nm.value.randomize else node.randomize)
            && r.noMatch.value.nodeID == (if nm.Some? && nm.value.nodeID.Some? then nm.value.nodeID else node.elseId)
    ensures r.elseId.None? && r.noMatches.None? && r.randomize.None?
    ensures r.(noMatch := node.noMatch, elseId := node.elseId, noMatches := node.noMatches, randomize := node.randomize) == node
  {
    var nm := node.noMatch;
    var prompts := (if nm.Some? then nm.value.prompts else None).OrElse(node.noMatches);
    var randomize := (if nm.Some? then nm.value.randomize else None).OrElse(node.randomize);
    var nodeID := (if nm.Some? then nm.value.nodeID else None).OrElse(node.elseId);
    node.(noMatch := Some(NoMatchConfig(prompts, randomize, nodeID)), elseId := None, noMatches := None, randomize := None)
  }

  /** `removeEmptyNoMatches(node)`: the node's non-empty no-match prompts, in order. */
  function RemoveEmptyNoMatches(node: Node): (r: seq<Prompt>)
    ensures forall p :: p in r <==> node.noMatch.Some? && node.noMatch.value.prompts.Some?
                                    && p in node.noMatch.value.prompts.value && !IsEmptyPrompt(p)
  {
    var prompts := if node.noMatch.Some? then node.noMatch.value.prompts.GetOr([]) else [];
    assert forall p :: p in RemoveEmptyPrompts(prompts) <==> p in prompts && !IsEmptyPrompt(p) by {
      forall p ensures p in RemoveEmptyPrompts(prompts) <==> p in prompts && !IsEmptyPrompt(p) {
        RemoveEmptyPromptsMembers(prompts, p);
      }
    }
    RemoveEmptyPrompts(prompts)
  }

  /** The escalation settings `NoMatchHandler.handle` works with. */
  function Policy(node: Node): Retry.Policy {
    var n := ConvertDeprecatedNoMatch(node);
    Retry.Policy(RemoveEmptyNoMatches(n), n.noMatch.value.randomize == Some(true), n.noMatch.value.nodeID,
                 NO_MATCHES_COUNTER, NO_MATCH_PATH)
  }

  /** `NoMatchHandler.handle(node, runtime, variables)`: the next id and the new runtime state. */
  function HandleSpec(node: Node, st: RuntimeState, render: Prompt -> string, pick: nat): (r: (Option<NodeId>, RuntimeState))
    ensures var n := ConvertDeprecatedNoMatch(node);
            var prompts := RemoveEmptyNoMatches(n);
            var c := CounterOf(st.storage, NO_MATCHES_COUNTER);
            && (c >= |prompts| ==>
                  && r.0 == n.noMatch.value.nodeID
                  && NO_MATCHES_COUNTER !in r.1.storage
                  && r.1.trace == st.trace + [PathTrace(NO_MATCH_PATH)])
            && (c < |prompts| ==>
                  && r.0 == Some(node.id)
                  && NO_MATCHES_COUNTER in r.1.storage && r.1.storage[NO_MATCHES_COUNTER] == Count(c + 1)
                  && |r.1.trace| >= |st.trace| + 2
                  && r.1.trace[|st.trace|] == PathTrace(Retry.REPROMPT)
                  && r.1.trace[|st.trace| + 1].SpeakTrace?
                  && (exists k :: 0 <= k < |prompts| && r.1.trace[|st.trace| + 1] == OutputTrace(render, prompts[k]))
                  && (n.noMatch.value.randomize != Some(true) ==> r.1.trace[|st.trace| + 1] == OutputTrace(render, prompts[c])))
    ensures r.1 == st.(storage := r.1.storage, trace := r.1.trace)
  {
    var n := ConvertDeprecatedNoMatch(node);
    var r := Retry.Handle(Policy(node), n, st, render, pick);
    var c := CounterOf(st.storage, NO_MATCHES_COUNTER);
    if c < |Policy(node).prompts| then
      var p := Retry.Chosen(Policy(node), c, pick);
      var k :| 0 <= k < |Policy(node).prompts| && Policy(node).prompts[k] == p;
      assert r.1.trace[|st.trace| + 1] == OutputTrace(render, Policy(node).prompts[k]);
      r
    else r
  }

  /** `NoMatchHandler.handle` on the live runtime. */
  method Handle(rt: Runtime, node: Node, render: Prompt -> string, pick: nat) returns (next: Option<NodeId>)
    modifies rt
    ensures (next, rt.State()) == HandleSpec(node, old(rt.State()), render, pick)
    ensures rt.events == old(rt.events)
  {
    var n := ConvertDeprecatedNoMatch(node);
    next := Retry.Run(rt, Policy(node), n, render, pick);
  }

  /** The state after `k` consecutive no-matches on the same node. */
  function After(node: Node, st: RuntimeState, render: Prompt -> string, pick: nat, k: nat): RuntimeState {
    Retry.After(Policy(node), ConvertDeprecatedNoMatch(node), st, render, pick, k)
  }

  /** Starting without a counter on a node with `n` non-empty prompts, calls 1..n reprompt and stay
      on the node, and call n+1 hands off to the fallback node and clears the counter. */
  lemma Escalation(node: Node, st: RuntimeState, render: Prompt -> string, pick: nat)
    requires NO_MATCHES_COUNTER !in st.storage
    ensures var n := |RemoveEmptyNoMatches(ConvertDeprecatedNoMatch(node))|;
            && (forall k :: 0 <= k < n ==> HandleSpec(node, After(node, st, render, pick, k), render, pick).0 == Some(node.id))
            && HandleSpec(node, After(node, st, render, pick, n), render, pick).0
                 == ConvertDeprecatedNoMatch(node).noMatch.value.nodeID
            && NO_MATCHES_COUNTER !in After(node, st, render, pick, n + 1).storage
  {
    var pol := Policy(node);
    var n := ConvertDeprecatedNoMatch(node);
    forall k | 0 <= k < |pol.prompts|
      ensures HandleSpec(node, After(node, st, render, pick, k), render, pick).0 == Some(node.id)
    {
      Retry.Escalation(pol, n, st, render, pick, k);
    }
    Retry.HandOff(pol, n, st, render, pick);
  }

  /** Two non-empty prompts, no randomisation: the first two no-matches speak them in order, the
      third traces `choice:else` and moves to the fallback node. */
  lemma TwoPrompts(node: Node, st: RuntimeState, render: Prompt -> string, pick: nat, p0: Prompt, p1: Prompt, fallback: NodeId)
    requires node.noMatch == Some(NoMatchConfig(Some([p0, p1]), None, Some(fallback))) && node.randomize.None?
    requires !IsEmptyPrompt(p0) && !IsEmptyPrompt(p1)
    requires NO_MATCHES_COUNTER !in st.storage
    ensures var s1 := HandleSpec(node, st, render, pick);
            var s2 := HandleSpec(node, s1.1, render, pick);
            var s3 := HandleSpec(node, s2.1, render, pick);
            && s1.0 == Some(node.id) && |s1.1.trace| > |st.trace| + 1
            && s1.1.trace[|st.trace| + 1] == OutputTrace(render, p0)
            && s2.0 == Some(node.id) && |s2.1.trace| > |s1.1.trace| + 1
            && s2.1.trace[|s1.1.trace| + 1] == OutputTrace(render, p1)
            && s3.0 == Some(fallback) && s3.1.trace == s2.1.trace + [PathTrace(NO_MATCH_PATH)]
            && NO_MATCHES_COUNTER !in s3.1.storage
  {
    var n := ConvertDeprecatedNoMatch(node);
    assert RemoveEmptyNoMatches(n) == [p0, p1] by {
      assert [p0, p1][1..] == [p1];
      assert [p1][1..] == [];
      assert RemoveEmptyPrompts([p1]) == [p1];
    }
  }
}
