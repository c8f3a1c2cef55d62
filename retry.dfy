/** The escalation state machine shared by the no-match and no-reply handlers: a counter kept in the
    runtime's storage selects the next reprompt; once the prompts are used up the counter is cleared
    and control passes to the configured fallback node. */
module Retry {
  import opened Wrappers
  import opened Types
  import opened Runtime
  import opened Utils

  /** One handler's configuration: its non-empty prompts, whether to pick one at random, the
      fallback node, the storage key of its counter and the path it traces on hand-off. */
  datatype Policy = Policy(prompts: seq<Prompt>, randomize: bool, target: Option<NodeId>, counter: string, exitPath: string)

  const REPROMPT := "reprompt"

  /** The prompt spoken at counter value `c`: the `c`-th one, or with `randomize` the one `pick`
      selects (the model of `_.sample`). */
  function Chosen(pol: Policy, c: nat, pick: nat): (p: Prompt)
    requires c < |pol.prompts|
    ensures p in pol.prompts
    ensures !pol.randomize ==> p == pol.prompts[c]
  {
    if pol.randomize then pol.prompts[pick % |pol.prompts|] else pol.prompts[c]
  }

  /** One call of the handler: its return value and the new runtime state. */
  function Handle(pol: Policy, node: Node, st: RuntimeState, render: Prompt -> string, pick: nat): (r: (Option<NodeId>, RuntimeState))
    // only the storage and the trace change, and in the storage only the counter
    ensures r.1 == st.(storage := r.1.storage, trace := r.1.trace)
    ensures forall k :: k != pol.counter ==>
              (k in r.1.storage <==> k in st.storage) && (k in st.storage ==> r.1.storage[k] == st.storage[k])
    ensures |r.1.trace| >= |st.trace| + 1 && r.1.trace[..|st.trace|] == st.trace
    // hand-off once the prompts are used up
    ensures CounterOf(st.storage, pol.counter) >= |pol.prompts| ==>
              r.0 == pol.target && pol.counter !in r.1.storage && r.1.trace == st.trace + [PathTrace(pol.exitPath)]
    // otherwise reprompt: stay on the node, count the attempt, trace the path before the speech
    ensures var c := CounterOf(st.storage, pol.counter);
            c < |pol.prompts| ==>
              && r.0 == Some(node.id)
              && pol.counter in r.1.storage && r.1.storage[pol.counter] == Count(c + 1)
              && r.1.trace == st.trace + [PathTrace(REPROMPT), OutputTrace(render, Chosen(pol, c, pick))]
                                       + ButtonTraces(node) + TimeoutTraces(node)
  {
    var c := CounterOf(st.storage, pol.counter);
    if c >= |pol.prompts| then
      (pol.target, st.(storage := st.storage - {pol.counter}, trace := st.trace + [PathTrace(pol.exitPath)]))
    else
      var output := Chosen(pol, c, pick);
      (Some(node.id), st.(storage := st.storage[pol.counter := Count(c + 1)],
                          trace := st.trace + [PathTrace(REPROMPT), OutputTrace(render, output)]
                                   + ButtonTraces(node) + TimeoutTraces(node)))
  }

  /** The state after `k` consecutive calls on the same node. */
  function After(pol: Policy, node: Node, st: RuntimeState, render: Prompt -> string, pick: nat, k: nat): RuntimeState
    decreases k
  {
    if k == 0 then st else Handle(pol, node, After(pol, node, st, render, pick, k - 1), render, pick).1
  }

  /** Starting without a counter, the first `|prompts|` calls reprompt and count up by one each. */
  lemma {:induction false} Escalation(pol: Policy, node: Node, st: RuntimeState, render: Prompt -> string, pick: nat, k: nat)
    requires pol.counter !in st.storage && k <= |pol.prompts|
    ensures CounterOf(After(pol, node, st, render, pick, k).storage, pol.counter) == k
    ensures k < |pol.prompts| ==> Handle(pol, node, After(pol, node, st, render, pick, k), render, pick).0 == Some(node.id)
    decreases k
  {
    if k > 0 {
      Escalation(pol, node, st, render, pick, k - 1);
    }
  }

  /** The call after those hands off to the fallback node and leaves no counter behind, so the
      machine starts over. */
  lemma HandOff(pol: Policy, node: Node, st: RuntimeState, render: Prompt -> string, pick: nat)
    requires pol.counter !in st.storage
    ensures var n := |pol.prompts|;
            && Handle(pol, node, After(pol, node, st, render, pick, n), render, pick).0 == pol.target
            && pol.counter !in After(pol, node, st, render, pick, n + 1).storage
  {
    Escalation(pol, node, st, render, pick, |pol.prompts|);
  }

  /** The handler on the live runtime. */
  method Run(rt: Runtime, pol: Policy, node: Node, render: Prompt -> string, pick: nat) returns (next: Option<NodeId>)
    modifies rt
    ensures (next, rt.State()) == Handle(pol, node, old(rt.State()), render, pick)
    ensures rt.events == old(rt.events)
  {
    var c := CounterOf(rt.storage, pol.counter);
    if c >= |pol.prompts| {
      rt.StorageDelete(pol.counter);
      rt.AddTrace(PathTrace(pol.exitPath));
      next := pol.target;
    } else {
      rt.AddTrace(PathTrace(REPROMPT));
      var output := Chosen(pol, c, pick);
      rt.StorageSet(pol.counter, Count(c + 1));
      rt.AddTrace(OutputTrace(render, output));
      AddButtons(rt, node);
      AddNoReplyTimeout(rt, node);
      assert rt.trace == old(rt.trace) + [PathTrace(REPROMPT), OutputTrace(render, output)] + ButtonTraces(node) + TimeoutTraces(node);
      next := Some(node.id);
    }
  }
}
