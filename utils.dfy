/** Output helpers shared by the retry handlers: `removeEmptyPrompts`, `addButtonsIfExists`,
    `addNoReplyTimeoutIfExists` and `outputTrace`. Their sources are not part of this model; these
    are the minimal behaviours the modelled handlers and their tests rely on. */
module Utils {
  import opened Wrappers
  import opened Types
  import opened Runtime

  /** A prompt with nothing to say: a `null` entry, the empty-audio marker, or rich text whose
      plain text is empty. */
  predicate IsEmptyPrompt(p: Prompt) {
    p.NullPrompt? || p == TextPrompt(EMPTY_AUDIO_STRING) || p == SlatePrompt("")
  }

  /** JavaScript truthiness of a prompt value: `null` and the empty string are falsy, a rich-text
      object never is. */
  predicate PromptTruthy(p: Prompt) {
    match p
    case NullPrompt => false
    case TextPrompt(t) => t != ""
    case SlatePrompt(_) => true
  }

  /** `removeEmptyPrompts(prompts)`: the prompts with something to say, in their original order. */
  function RemoveEmptyPrompts(ps: seq<Prompt>): (r: seq<Prompt>)
    ensures |r| <= |ps|
    ensures forall k :: 0 <= k < |r| ==> !IsEmptyPrompt(r[k])
    decreases |ps|
  {
    if ps == [] then []
    else (if IsEmptyPrompt(ps[0]) then [] else [ps[0]]) + RemoveEmptyPrompts(ps[1..])
  }

  /** Exactly the prompts with something to say are kept. */
  lemma {:induction false} RemoveEmptyPromptsMembers(ps: seq<Prompt>, p: Prompt)
    ensures p in RemoveEmptyPrompts(ps) <==> p in ps && !IsEmptyPrompt(p)
    decreases |ps|
  {
    if ps != [] {
      RemoveEmptyPromptsMembers(ps[1..], p);
      assert ps == [ps[0]] + ps[1..];
    }
  }

  /** Removing empty prompts works piecewise, so it keeps the order of the prompts it keeps. */
  lemma {:induction false} RemoveEmptyPromptsAppend(a: seq<Prompt>, b: seq<Prompt>)
    ensures RemoveEmptyPrompts(a + b) == RemoveEmptyPrompts(a) + RemoveEmptyPrompts(b)
    decreases |a|
  {
    if a == [] {
      assert a + b == b;
    } else {
      var head: seq<Prompt> := if IsEmptyPrompt(a[0]) then [] else [a[0]];
      calc {
        RemoveEmptyPrompts(a + b);
      == { assert (a + b)[0] == a[0]; assert (a + b)[1..] == a[1..] + b; }
        head + RemoveEmptyPrompts(a[1..] + b);
      == { RemoveEmptyPromptsAppend(a[1..], b); }
        head + (RemoveEmptyPrompts(a[1..]) + RemoveEmptyPrompts(b));
      ==
        (head + RemoveEmptyPrompts(a[1..])) + RemoveEmptyPrompts(b);
      }
    }
  }

  /** A list without empty prompts is kept as it is; in particular the function is idempotent. */
  lemma {:induction false} RemoveEmptyPromptsKeeps(ps: seq<Prompt>)
    requires forall k :: 0 <= k < |ps| ==> !IsEmptyPrompt(ps[k])
    ensures RemoveEmptyPrompts(ps) == ps
    decreases |ps|
  {
    if ps != [] {
      RemoveEmptyPromptsKeeps(ps[1..]);
    }
  }

  lemma RemoveEmptyPromptsIdempotent(ps: seq<Prompt>)
    ensures RemoveEmptyPrompts(RemoveEmptyPrompts(ps)) == RemoveEmptyPrompts(ps)
  {
    RemoveEmptyPromptsKeeps(RemoveEmptyPrompts(ps));
  }

  /** `addButtonsIfExists(node, runtime, variables)`: one choice trace when the node has buttons. */
  function ButtonTraces(node: Node): (r: seq<Trace>)
    ensures |r| <= 1
    ensures r != [] <==> node.buttons != []
    ensures forall k :: 0 <= k < |r| ==> r[k] == ChoiceTrace(node.buttons)
  {
    if node.buttons != [] then [ChoiceTrace(node.buttons)] else []
  }

  /** `addNoReplyTimeoutIfExists(node, runtime)`: one no-reply trace when the node sets a timeout. */
  function TimeoutTraces(node: Node): (r: seq<Trace>)
    ensures |r| <= 1
    ensures r != [] <==> node.noReply.Some? && node.noReply.value.timeout.Some? && node.noReply.value.timeout.value != 0
    ensures forall k :: 0 <= k < |r| ==> r[k] == NoReplyTrace(node.noReply.value.timeout.value)
  {
    if node.noReply.Some? && node.noReply.value.timeout.Some? && node.noReply.value.timeout.value != 0
    then [NoReplyTrace(node.noReply.value.timeout.value)]
    else []
  }

  /** `outputTrace({ output, variables })`: a speak trace of type message carrying the rendered
      prompt; `render` stands for variable interpolation and rich-text serialisation. */
  function OutputTrace(render: Prompt -> string, p: Prompt): Trace {
    SpeakTrace(Message, render(p))
  }

  /** `addButtonsIfExists` on the live runtime. */
  method AddButtons(rt: Runtime, node: Node)
    modifies rt
    ensures rt.State() == old(rt.State()).(trace := old(rt.trace) + ButtonTraces(node)) && rt.events == old(rt.events)
  {
    if node.buttons != [] {
      rt.AddTrace(ChoiceTrace(node.buttons));
    }
  }

  /** `addNoReplyTimeoutIfExists` on the live runtime. */
  method AddNoReplyTimeout(rt: Runtime, node: Node)
    modifies rt
    ensures rt.State() == old(rt.State()).(trace := old(rt.trace) + TimeoutTraces(node)) && rt.events == old(rt.events)
  {
    if node.noReply.Some? && node.noReply.value.timeout.Some? && node.noReply.value.timeout.value != 0 {
      rt.AddTrace(NoReplyTrace(node.noReply.value.timeout.value));
    }
  }
}
