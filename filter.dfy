/** The trace filter applied to a turn's response: it drops traces of the excluded types (by default
    the internal `block`, `debug` and `flow` traces) and, unless switched off, strips SSML from the
    messages of speak traces. */
module Filter {
  import opened Wrappers
  import opened Types

  /** `context.data.config`, reduced to the two settings the filter reads. */
  datatype FilterConfig = FilterConfig(excludeTypes: Option<seq<string>>, stripSSML: Option<bool>)

  /** A turn's context. Only `trace` is changed by the filter. */
  datatype Context = Context(
    end: Option<bool>,
    config: Option<FilterConfig>,
    state: map<string, Value>,
    trace: Option<seq<Trace>>,
    userID: Option<string>,
    request: Option<Request>,
    versionID: string)

  const DEFAULT_EXCLUDE_TYPES: seq<string> := [BLOCK, DEBUG, FLOW]

  /** `config.excludeTypes || [BLOCK, DEBUG, FLOW]`, with `config` defaulting to `{}`. A given list,
      even an empty one, replaces the defaults. */
  function ExcludeTypes(ctx: Context): (r: seq<string>)
    ensures (ctx.config.None? || ctx.config.value.excludeTypes.None?) ==> r == DEFAULT_EXCLUDE_TYPES
    ensures ctx.config.Some? && ctx.config.value.excludeTypes.Some? ==> r == ctx.config.value.excludeTypes.value
  {
    match ctx.config
    case None => DEFAULT_EXCLUDE_TYPES
    case Some(cfg) => cfg.excludeTypes.GetOr(DEFAULT_EXCLUDE_TYPES)
  }

  /** `config.stripSSML !== false` */
  predicate StripSSML(ctx: Context) {
    !(ctx.config.Some? && ctx.config.value.stripSSML == Some(false))
  }

  /** `traces.filter((trace) => !excludeTypes.includes(trace.type))` */
  function KeepTypes(traces: seq<Trace>, exclude: seq<string>): (r: seq<Trace>)
    ensures |r| <= |traces|
    ensures forall k :: 0 <= k < |r| ==> TypeOf(r[k]) !in exclude
    decreases |traces|
  {
    if traces == [] then []
    else (if TypeOf(traces[0]) in exclude then [] else [traces[0]]) + KeepTypes(traces[1..], exclude)
  }

  /** The filter works trace by trace, so it keeps the order of the traces it keeps. */
  lemma {:induction false} KeepTypesAppend(a: seq<Trace>, b: seq<Trace>, exclude: seq<string>)
    ensures KeepTypes(a + b, exclude) == KeepTypes(a, exclude) + KeepTypes(b, exclude)
    decreases |a|
  {
    if a == [] {
      assert a + b == b;
    } else {
      var head: seq<Trace> := if TypeOf(a[0]) in exclude then [] else [a[0]];
      calc {
        KeepTypes(a + b, exclude);
      == { assert (a + b)[0] == a[0]; assert (a + b)[1..] == a[1..] + b; }
        head + KeepTypes(a[1..] + b, exclude);
      == { KeepTypesAppend(a[1..], b, exclude); }
        head + (KeepTypes(a[1..], exclude) + KeepTypes(b, exclude));
      ==
        (head + KeepTypes(a[1..], exclude)) + KeepTypes(b, exclude);
      }
    }
  }

  /** Exactly the traces whose type is not excluded are kept. */
  lemma {:induction false} KeepTypesMembers(traces: seq<Trace>, exclude: seq<string>, t: Trace)
    ensures t in KeepTypes(traces, exclude) <==> t in traces && TypeOf(t) !in exclude
    decreases |traces|
  {
    if traces != [] {
      KeepTypesMembers(traces[1..], exclude, t);
      assert traces == [traces[0]] + traces[1..];
    }
  }

  /** The SSML-strip step for one trace: only the message of a message or audio speak trace changes. */
  function Strip(t: Trace, sanitize: string -> string): (r: Trace)
    ensures TypeOf(r) == TypeOf(t)
    ensures !(t.SpeakTrace? && (t.speakType == Message || t.speakType == Audio)) ==> r == t
    ensures t.SpeakTrace? && (t.speakType == Message || t.speakType == Audio) ==>
              r == SpeakTrace(t.speakType, sanitize(t.message))
  {
    if t.SpeakTrace? && (t.speakType == Message || t.speakType == Audio) then SpeakTrace(t.speakType, sanitize(t.message)) else t
  }

  function StripAll(traces: seq<Trace>, sanitize: string -> string): (r: seq<Trace>)
    ensures |r| == |traces|
    ensures forall k :: 0 <= k < |traces| ==> r[k] == Strip(traces[k], sanitize)
  {
    seq(|traces|, k requires 0 <= k < |traces| => Strip(traces[k], sanitize))
  }

  /** `Filter.handle(context)`: `sanitize` stands for `sanitizeSSML`. */
  function Handle(ctx: Context, sanitize: string -> string): (r: Context)
    // every other field of the context is kept, and the trace is always present afterwards
    ensures r == ctx.(trace := r.trace) && r.trace.Some?
    ensures var kept := KeepTypes(ctx.trace.GetOr([]), ExcludeTypes(ctx));
            && |r.trace.value| == |kept|
            && (forall k :: 0 <= k < |kept| ==> TypeOf(r.trace.value[k]) !in ExcludeTypes(ctx))
            && (StripSSML(ctx) ==> forall k :: 0 <= k < |kept| ==> r.trace.value[k] == Strip(kept[k], sanitize))
            && (!StripSSML(ctx) ==> r.trace.value == kept)
  {
    var traces := ctx.trace.GetOr([]);
    var kept := KeepTypes(traces, ExcludeTypes(ctx));
    ctx.(trace := Some(if StripSSML(ctx) then StripAll(kept, sanitize) else kept))
  }

  /** With the default configuration, no `block`, `debug` or `flow` trace survives. */
  lemma DefaultsDropInternalTraces(ctx: Context, sanitize: string -> string, t: Trace)
    requires ctx.config.None?
    requires t in Handle(ctx, sanitize).trace.value
    ensures TypeOf(t) != BLOCK && TypeOf(t) != DEBUG && TypeOf(t) != FLOW
  {
    var out := Handle(ctx, sanitize).trace.value;
    var k :| 0 <= k < |out| && out[k] == t;
    assert TypeOf(out[k]) !in DEFAULT_EXCLUDE_TYPES;
  }

  /** A trace of the input is in the output, stripped where that applies, exactly when its type is
      not excluded. */
  lemma KeptExactly(ctx: Context, sanitize: string -> string, t: Trace)
    requires StripSSML(ctx) && ctx.trace.Some?
    ensures (t in ctx.trace.value && TypeOf(t) !in ExcludeTypes(ctx)) ==> Strip(t, sanitize) in Handle(ctx, sanitize).trace.value
  {
    var kept := KeepTypes(ctx.trace.value, ExcludeTypes(ctx));
    KeepTypesMembers(ctx.trace.value, ExcludeTypes(ctx), t);
    if t in kept {
      var k :| 0 <= k < |kept| && kept[k] == t;
      assert Handle(ctx, sanitize).trace.value[k] == Strip(t, sanitize);
    }
  }
}
