/** The built-in natural-language commander set-up: the project's slots and intents, and the
    built-in intents of the locale, are registered with a classifier, and its answer is shaped into an
    intent request. The classifier itself, the expansion of utterances and the none-intent request are
    collaborators given as parameters; the model records what is registered. */
module Nlc {
  import opened Wrappers
  import opened Types
  import opened Strings

  /** `xs.map(f).filter(defined)` in one pass: the shape shared by the entity reduce, the slot
      matcher's trim-and-drop, the intent-slot reduce and the slot registration loop. */
  function FilterMap<A, B>(xs: seq<A>, f: A -> Option<B>): (r: seq<B>)
    ensures |r| <= |xs|
    decreases |xs|
  {
    if xs == [] then []
    else
      var n := |xs| - 1;
      FilterMap(xs[..n], f) + (if f(xs[n]).Some? then [f(xs[n]).value] else [])
  }

  /** The pass works element by element, so it keeps the input order. */
  lemma {:induction false} FilterMapAppend<A, B>(a: seq<A>, b: seq<A>, f: A -> Option<B>)
    ensures FilterMap(a + b, f) == FilterMap(a, f) + FilterMap(b, f)
    decreases |b|
  {
    if b == [] {
      assert a + b == a;
    } else {
      var n := |b| - 1;
      var tail: seq<B> := if f(b[n]).Some? then [f(b[n]).value] else [];
      calc {
        FilterMap(a + b, f);
      == { assert (a + b)[..|a| + n] == a + b[..n]; assert (a + b)[|a| + n] == b[n]; }
        FilterMap(a + b[..n], f) + tail;
      == { FilterMapAppend(a, b[..n], f); }
        (FilterMap(a, f) + FilterMap(b[..n], f)) + tail;
      ==
        FilterMap(a, f) + (FilterMap(b[..n], f) + tail);
      }
    }
  }

  /** Every element that `f` maps to a value contributes that value. */
  lemma {:induction false} FilterMapMembers<A, B>(xs: seq<A>, f: A -> Option<B>, b: B)
    ensures b in FilterMap(xs, f) <==> exists k :: 0 <= k < |xs| && f(xs[k]) == Some(b)
    decreases |xs|
  {
    if xs != [] {
      var n := |xs| - 1;
      FilterMapMembers(xs[..n], f, b);
      if k :| 0 <= k < |xs| && f(xs[k]) == Some(b) {
        if k < n {
          assert xs[..n][k] == xs[k];
        }
      }
    }
  }

  /** When `f` keeps everything, the pass is a plain pointwise map. */
  lemma {:induction false} FilterMapTotal<A, B>(xs: seq<A>, f: A -> Option<B>)
    requires forall k :: 0 <= k < |xs| ==> f(xs[k]).Some?
    ensures |FilterMap(xs, f)| == |xs|
    ensures forall k :: 0 <= k < |xs| ==> FilterMap(xs, f)[k] == f(xs[k]).value
    decreases |xs|
  {
    if xs != [] {
      var n := |xs| - 1;
      assert forall k :: 0 <= k < n ==> xs[..n][k] == xs[k];
      FilterMapTotal(xs[..n], f);
      assert FilterMap(xs, f) == FilterMap(xs[..n], f) + [f(xs[n]).value];
    }
  }

  /** One step of a loop that builds the pass over a growing prefix. */
  lemma FilterMapStep<A, B>(xs: seq<A>, i: nat, f: A -> Option<B>)
    requires i < |xs|
    ensures FilterMap(xs[..i + 1], f) == FilterMap(xs[..i], f) + (if f(xs[i]).Some? then [f(xs[i]).value] else [])
  {
    assert xs[..i + 1][..i] == xs[..i];
  }

  // ---------------------------------------------------------------------------------------------
  // The project model and the registrations

  /** A slot of the project: its key, its name, the value of its `type`, and its sample inputs. */
  datatype Slot = Slot(key: string, name: string, slotType: Option<string>, inputs: Option<seq<string>>)

  /** A slot reference of an intent: the slot's key and whether it must be filled. */
  datatype IntentSlotRef = IntentSlotRef(id: string, required: Option<bool>)

  datatype Intent = Intent(name: string, inputs: seq<string>, slots: Option<seq<IntentSlotRef>>)

  /** The part of the prototype model the commander is built from. */
  datatype PrototypeModel = PrototypeModel(slots: seq<Slot>, intents: seq<Intent>)

  /** A slot type's matcher: the catch-all pattern, or a list of accepted values. */
  datatype Matcher = CatchAll | Values(values: seq<string>)

  datatype SlotType = SlotType(slotType: string, matcher: Matcher)

  datatype IntentSlot = IntentSlot(name: string, slotType: string, required: bool)

  /** An intent registration; built-in intents are registered without a slot list. */
  datatype Registration = Registration(intent: string, slots: Option<seq<IntentSlot>>, utterances: seq<string>)

  datatype BuiltInIntent = BuiltInIntent(name: string, samples: seq<string>)

  /** The trimmed value, or nothing when it is empty: `.map((value) => value.trim()).filter(Boolean)`
      for one value. */
  function Cleaned(v: string): (r: Option<string>)
    ensures r.Some? ==> r.value != [] && r.value == Trim(v)
    ensures r.None? <==> Trim(v) == []
  {
    var t := Trim(v);
    if t == [] then None else Some(t)
  }

  /** `_.flatten(inputs.map((input) => input.split(',')))` */
  function Pieces(inputs: seq<string>): (r: seq<string>)
    ensures forall k :: 0 <= k < |r| ==> ',' !in r[k]
    decreases |inputs|
  {
    if inputs == [] then []
    else
      var n := |inputs| - 1;
      Pieces(inputs[..n]) + Split(inputs[n], ',')
  }

  lemma {:induction false} PiecesAppend(a: seq<string>, b: seq<string>)
    ensures Pieces(a + b) == Pieces(a) + Pieces(b)
    decreases |b|
  {
    if b == [] {
      assert a + b == a;
    } else {
      var n := |b| - 1;
      calc {
        Pieces(a + b);
      == { assert (a + b)[..|a| + n] == a + b[..n]; assert (a + b)[|a| + n] == b[n]; }
        Pieces(a + b[..n]) + Split(b[n], ',');
      == { PiecesAppend(a, b[..n]); }
        (Pieces(a) + Pieces(b[..n])) + Split(b[n], ',');
      ==
        Pieces(a) + (Pieces(b[..n]) + Split(b[n], ','));
      }
    }
  }

  /** The matcher of a custom slot: its inputs split at commas, trimmed, empty values dropped. */
  function SlotMatcher(inputs: seq<string>): (r: seq<string>)
    ensures forall k :: 0 <= k < |r| ==> r[k] != [] && ',' !in r[k] && !IsSpace(r[k][0]) && !IsSpace(r[k][|r[k]| - 1])
  {
    var r := FilterMap(Pieces(inputs), Cleaned);
    SlotMatcherValues(inputs, r);
    r
  }

  lemma SlotMatcherValues(inputs: seq<string>, r: seq<string>)
    requires r == FilterMap(Pieces(inputs), Cleaned)
    ensures forall k :: 0 <= k < |r| ==> r[k] != [] && ',' !in r[k] && !IsSpace(r[k][0]) && !IsSpace(r[k][|r[k]| - 1])
  {
    forall k | 0 <= k < |r|
      ensures r[k] != [] && ',' !in r[k] && !IsSpace(r[k][0]) && !IsSpace(r[k][|r[k]| - 1])
    {
      SlotMatcherValue(Pieces(inputs), r[k]);
    }
  }

  lemma SlotMatcherValue(pieces: seq<string>, v: string)
    requires forall j :: 0 <= j < |pieces| ==> ',' !in pieces[j]
    requires v in FilterMap(pieces, Cleaned)
    ensures v != [] && ',' !in v && !IsSpace(v[0]) && !IsSpace(v[|v| - 1])
  {
    FilterMapMembers(pieces, Cleaned, v);
    var j :| 0 <= j < |pieces| && Cleaned(pieces[j]) == Some(v);
    CleanedPiece(pieces[j]);
  }

  /** A piece without a comma stays without one once trimmed. */
  lemma CleanedPiece(p: string)
    requires ',' !in p && Cleaned(p).Some?
    ensures var v := Cleaned(p).value; v != [] && ',' !in v && !IsSpace(v[0]) && !IsSpace(v[|v| - 1])
  {
    var v := Trim(p);
    assert v == p[Lead(p)..Lead(p) + |v|];
    assert forall c :: c in v ==> c in p;
  }

  /** The matcher keeps the order of the inputs and of the values within each input. */
  lemma SlotMatcherAppend(a: seq<string>, b: seq<string>)
    ensures SlotMatcher(a + b) == SlotMatcher(a) + SlotMatcher(b)
  {
    PiecesAppend(a, b);
    FilterMapAppend(Pieces(a), Pieces(b), Cleaned);
  }

  /** A value is accepted exactly when it is the non-empty trimmed form of a comma-separated piece
      of some input. */
  lemma SlotMatcherMembers(inputs: seq<string>, v: string)
    ensures v in SlotMatcher(inputs) <==> v != [] && exists k :: 0 <= k < |Pieces(inputs)| && Trim(Pieces(inputs)[k]) == v
  {
    FilterMapMembers(Pieces(inputs), Cleaned, v);
  }

  /** `slot.type?.value?.toLowerCase() === 'custom' && slot.inputs?.length` */
  predicate IsCustom(slot: Slot) {
    slot.slotType.Some? && ToLower(slot.slotType.value) == "custom" && slot.inputs.Some? && |slot.inputs.value| > 0
  }

  /** What `registerSlots` registers for one slot, if anything. */
  function SlotTypeOf(openSlot: bool, slot: Slot): Option<SlotType> {
    if !IsCustom(slot) then (if openSlot then Some(SlotType(slot.name, CatchAll)) else None)
    else Some(SlotType(slot.name, Values(SlotMatcher(slot.inputs.value))))
  }

  function SlotTypeFor(openSlot: bool): Slot -> Option<SlotType> {
    (slot: Slot) => SlotTypeOf(openSlot, slot)
  }

  /** The slot types `registerSlots` adds, in slot order. */
  function SlotTypes(slots: seq<Slot>, openSlot: bool): (r: seq<SlotType>)
    // every registration is named after one of the slots
    ensures forall t :: t in r ==> exists k :: 0 <= k < |slots| && slots[k].name == t.slotType
    // with open slots every slot is registered, in order
    ensures openSlot ==> |r| == |slots| && forall k :: 0 <= k < |slots| ==> r[k].slotType == slots[k].name
  {
    var r := FilterMap(slots, SlotTypeFor(openSlot));
    assert forall t :: t in r ==> exists k :: 0 <= k < |slots| && slots[k].name == t.slotType by {
      forall t | t in r ensures exists k :: 0 <= k < |slots| && slots[k].name == t.slotType {
        FilterMapMembers(slots, SlotTypeFor(openSlot), t);
      }
    }
    assert openSlot ==> |r| == |slots| && forall k :: 0 <= k < |slots| ==> r[k].slotType == slots[k].name by {
      if openSlot {
        FilterMapTotal(slots, SlotTypeFor(openSlot));
      }
    }
    r
  }

  /** A custom slot with inputs gets its value list; any other slot gets the catch-all only with open
      slots, and nothing otherwise. */
  lemma SlotRegistered(slots: seq<Slot>, openSlot: bool, k: nat)
    requires k < |slots|
    ensures IsCustom(slots[k]) ==> SlotType(slots[k].name, Values(SlotMatcher(slots[k].inputs.value))) in SlotTypes(slots, openSlot)
    ensures !IsCustom(slots[k]) && openSlot ==> SlotType(slots[k].name, CatchAll) in SlotTypes(slots, openSlot)
  {
    FilterMapMembers(slots, SlotTypeFor(openSlot), SlotTypeFor(openSlot)(slots[k]).GetOr(SlotType("", CatchAll)));
  }

  /** Without open slots, no catch-all is registered, and only custom slots appear. */
  lemma ClosedSlotsOnlyCustom(slots: seq<Slot>, t: SlotType)
    requires t in SlotTypes(slots, false)
    ensures t.matcher.Values?
    ensures exists k :: 0 <= k < |slots| && IsCustom(slots[k]) && t == SlotType(slots[k].name, Values(SlotMatcher(slots[k].inputs.value)))
  {
    FilterMapMembers(slots, SlotTypeFor(false), t);
  }

  /** `slots.find(({ key }) => key === id)` */
  function FindSlot(slots: seq<Slot>, id: string): (r: Option<Slot>)
    ensures r.Some? ==> r.value in slots && r.value.key == id
    ensures r.None? <==> forall k :: 0 <= k < |slots| ==> slots[k].key != id
    ensures r.Some? ==> exists k :: 0 <= k < |slots| && slots[k] == r.value && forall j :: 0 <= j < k ==> slots[j].key != id
    decreases |slots|
  {
    if slots == [] then None
    else if slots[0].key == id then
      assert slots[0] == slots[0];
      Some(slots[0])
    else
      var r := FindSlot(slots[1..], id);
      assert forall k :: 1 <= k < |slots| ==> slots[k] == slots[1..][k - 1];
      assert r.Some? ==> exists k :: 0 <= k < |slots| && slots[k] == r.value && forall j :: 0 <= j < k ==> slots[j].key != id by {
        if r.Some? {
          var k :| 0 <= k < |slots[1..]| && slots[1..][k] == r.value && forall j :: 0 <= j < k ==> slots[1..][j].key != id;
          assert slots[k + 1] == r.value;
          forall j | 0 <= j < k + 1 ensures slots[j].key != id {
            if j > 0 { assert slots[j] == slots[1..][j - 1]; }
          }
        }
      }
      r
  }

  /** One intent slot of the reduce: a reference to an unknown slot is dropped. */
  function IntentSlotFor(slots: seq<Slot>): IntentSlotRef -> Option<IntentSlot> {
    (ref: IntentSlotRef) =>
      match FindSlot(slots, ref.id)
      case None => None
      case Some(slot) => Some(IntentSlot(slot.name, slot.name, ref.required == Some(true)))
  }

  /** `intent.slots.reduce(...)`: the resolved slots of an intent, in reference order. */
  function ResolveSlots(refs: seq<IntentSlotRef>, slots: seq<Slot>): (r: seq<IntentSlot>)
    ensures |r| <= |refs|
    ensures forall s :: s in r ==> s.name == s.slotType && exists k :: 0 <= k < |slots| && slots[k].name == s.name
  {
    var r := FilterMap(refs, IntentSlotFor(slots));
    assert forall s :: s in r ==> s.name == s.slotType && exists k :: 0 <= k < |slots| && slots[k].name == s.name by {
      forall s | s in r ensures s.name == s.slotType && exists k :: 0 <= k < |slots| && slots[k].name == s.name {
        FilterMapMembers(refs, IntentSlotFor(slots), s);
        var j :| 0 <= j < |refs| && IntentSlotFor(slots)(refs[j]) == Some(s);
        var slot := FindSlot(slots, refs[j].id).value;
        var k :| 0 <= k < |slots| && slots[k] == slot && forall i :: 0 <= i < k ==> slots[i].key != refs[j].id;
      }
    }
    r
  }

  /** A reference that matches no slot key contributes nothing; one that matches contributes the first
      such slot's name, with `required` coerced to a boolean. */
  lemma ResolveSlotsMembers(refs: seq<IntentSlotRef>, slots: seq<Slot>, s: IntentSlot)
    ensures s in ResolveSlots(refs, slots) <==>
              exists k :: 0 <= k < |refs| && FindSlot(slots, refs[k].id).Some?
                          && s == IntentSlot(FindSlot(slots, refs[k].id).value.name, FindSlot(slots, refs[k].id).value.name,
                                             refs[k].required == Some(true))
  {
    FilterMapMembers(refs, IntentSlotFor(slots), s);
  }

  /** When every reference resolves, nothing is dropped and the order is kept. */
  lemma ResolveSlotsTotal(refs: seq<IntentSlotRef>, slots: seq<Slot>)
    requires forall k :: 0 <= k < |refs| ==> FindSlot(slots, refs[k].id).Some?
    ensures |ResolveSlots(refs, slots)| == |refs|
    ensures forall k :: 0 <= k < |refs| ==>
              ResolveSlots(refs, slots)[k].name == FindSlot(slots, refs[k].id).value.name
              && ResolveSlots(refs, slots)[k].required == (refs[k].required == Some(true))
  {
    FilterMapTotal(refs, IntentSlotFor(slots));
  }

  /** `getUtterancesWithSlotNames({ slots, utterances })` */
  type Expander = (seq<Slot>, seq<string>) -> seq<string>

  /** What `registerIntents` registers for one intent. */
  function IntentRegistration(slots: seq<Slot>, expand: Expander, intent: Intent): (r: Registration)
    ensures r.intent == intent.name && r.slots.Some?
    ensures intent.slots.None? ==> r.slots.value == []
    ensures intent.slots.Some? ==> r.slots.value == ResolveSlots(intent.slots.value, slots)
    ensures forall k :: 0 <= k < |r.utterances| ==> r.utterances[k] != [] && r.utterances[k] == Trim(r.utterances[k])
  {
    var utterances := FilterMap(expand(slots, intent.inputs), Cleaned);
    assert forall k :: 0 <= k < |utterances| ==> utterances[k] != [] && utterances[k] == Trim(utterances[k]) by {
      forall k | 0 <= k < |utterances| ensures utterances[k] != [] && utterances[k] == Trim(utterances[k]) {
        FilterMapMembers(expand(slots, intent.inputs), Cleaned, utterances[k]);
        TrimIdempotent(utterances[k]);
      }
    }
    Registration(intent.name, Some(if intent.slots.Some? then ResolveSlots(intent.slots.value, slots) else []), utterances)
  }

  lemma TrimIdempotent(s: string)
    requires exists v :: Trim(v) == s
    ensures Trim(s) == s
  {
    var v :| Trim(v) == s;
    TrimmedHasNoPadding(s);
  }

  lemma TrimmedHasNoPadding(s: string)
    requires s == [] || (!IsSpace(s[0]) && !IsSpace(s[|s| - 1]))
    ensures Trim(s) == s
  {
  }

  function Registrations(model: PrototypeModel, expand: Expander): (r: seq<Registration>)
    ensures |r| == |model.intents|
    ensures forall k :: 0 <= k < |r| ==> r[k] == IntentRegistration(model.slots, expand, model.intents[k])
  {
    seq(|model.intents|, k requires 0 <= k < |model.intents| => IntentRegistration(model.slots, expand, model.intents[k]))
  }

  const EN_US := "en-US"

  /** `locale.slice(0, 2)` */
  function Lang(locale: string): (r: string)
    ensures |r| == if |locale| < 2 then |locale| else 2
    ensures locale == r + locale[|r|..]
  {
    if |locale| < 2 then locale else locale[..2]
  }

  /** `DEFAULT_INTENTS_MAP[lang] || DEFAULT_INTENTS_MAP.en`, with the locale defaulting to `en-US`. */
  function BuiltInIntents(locale: Option<string>, defaults: map<string, seq<BuiltInIntent>>): (r: seq<BuiltInIntent>)
    requires "en" in defaults
    ensures var lang := Lang(locale.GetOr(EN_US));
            (lang in defaults ==> r == defaults[lang]) && (lang !in defaults ==> r == defaults["en"])
  {
    var lang := Lang(locale.GetOr(EN_US));
    if lang in defaults then defaults[lang] else defaults["en"]
  }

  /** Only the language part of the locale matters, and without a locale the English intents are used. */
  lemma BuiltInIntentsByLanguage(l1: string, l2: string, defaults: map<string, seq<BuiltInIntent>>)
    requires "en" in defaults
    requires |l1| >= 2 && |l2| >= 2 && l1[..2] == l2[..2]
    ensures BuiltInIntents(Some(l1), defaults) == BuiltInIntents(Some(l2), defaults)
    ensures BuiltInIntents(None, defaults) == defaults["en"]
  {
    assert Lang(EN_US) == "en";
  }

  function BuiltInRegistration(intent: BuiltInIntent): (r: Registration)
    ensures r.slots.None? && r.intent == intent.name && r.utterances == intent.samples
  {
    Registration(intent.name, None, intent.samples)
  }

  function BuiltInRegistrations(locale: Option<string>, defaults: map<string, seq<BuiltInIntent>>): (r: seq<Registration>)
    requires "en" in defaults
    ensures |r| == |BuiltInIntents(locale, defaults)|
    ensures forall k :: 0 <= k < |r| ==> r[k] == BuiltInRegistration(BuiltInIntents(locale, defaults)[k])
  {
    var intents := BuiltInIntents(locale, defaults);
    seq(|intents|, k requires 0 <= k < |intents| => BuiltInRegistration(intents[k]))
  }

  /** The commander: the registrations it has received. */
  class Commander {
    var slotTypes: seq<SlotType>
    var registrations: seq<Registration>

    /** `new NLC()` */
    constructor ()
      ensures slotTypes == [] && registrations == []
    {
      slotTypes := [];
      registrations := [];
    }

    /** `addSlotType(slotType)` */
    method AddSlotType(t: SlotType)
      modifies this
      ensures slotTypes == old(slotTypes) + [t] && registrations == old(registrations)
    {
      slotTypes := slotTypes + [t];
    }

    /** `registerIntent(registration)` */
    method RegisterIntent(r: Registration)
      modifies this
      ensures registrations == old(registrations) + [r] && slotTypes == old(slotTypes)
    {
      registrations := registrations + [r];
    }
  }

  /** The slot types registered for one slot: none or one. */
  function Emitted(openSlot: bool, slot: Slot): seq<SlotType> {
    var t := SlotTypeOf(openSlot, slot);
    if t.Some? then [t.value] else []
  }

  lemma SlotTypesStep(slots: seq<Slot>, i: nat, openSlot: bool, before: seq<SlotType>, after: seq<SlotType>)
    requires i < |slots|
    requires after == before + SlotTypes(slots[..i], openSlot) + Emitted(openSlot, slots[i])
    ensures after == before + SlotTypes(slots[..i + 1], openSlot)
  {
    FilterMapStep(slots, i, SlotTypeFor(openSlot));
  }

  /** The body of the `registerSlots` loop, for one slot. */
  method RegisterSlot(nlc: Commander, slot: Slot, openSlot: bool)
    modifies nlc
    ensures nlc.slotTypes == old(nlc.slotTypes) + Emitted(openSlot, slot)
    ensures nlc.registrations == old(nlc.registrations)
  {
    if !IsCustom(slot) {
      if openSlot {
        nlc.AddSlotType(SlotType(slot.name, CatchAll));
      }
    } else {
      var matcher := SlotMatcher(slot.inputs.value);
      nlc.AddSlotType(SlotType(slot.name, Values(matcher)));
    }
  }

  /** `registerSlots(nlc, model, openSlot)` */
  method RegisterSlots(nlc: Commander, model: PrototypeModel, openSlot: bool)
    modifies nlc
    ensures nlc.slotTypes == old(nlc.slotTypes) + SlotTypes(model.slots, openSlot)
    ensures nlc.registrations == old(nlc.registrations)
  {
    var slots := model.slots;
    for i := 0 to |slots|
      invariant nlc.slotTypes == old(nlc.slotTypes) + SlotTypes(slots[..i], openSlot)
      invariant nlc.registrations == old(nlc.registrations)
    {
      RegisterSlot(nlc, slots[i], openSlot);
      SlotTypesStep(slots, i, openSlot, old(nlc.slotTypes), nlc.slotTypes);
    }
    assert slots[..|slots|] == slots;
  }

  /** `registerIntents(nlc, model)` */
  method RegisterIntents(nlc: Commander, model: PrototypeModel, expand: Expander)
    modifies nlc
    ensures nlc.registrations == old(nlc.registrations) + Registrations(model, expand)
    ensures nlc.slotTypes == old(nlc.slotTypes)
  {
    var intents := model.intents;
    for i := 0 to |intents|
      invariant nlc.registrations == old(nlc.registrations) + Registrations(PrototypeModel(model.slots, intents[..i]), expand)
      invariant nlc.slotTypes == old(nlc.slotTypes)
    {
      var intent := intents[i];
      var samples := FilterMap(expand(model.slots, intent.inputs), Cleaned);
      var intentSlots: seq<IntentSlot> := [];
      if intent.slots.Some? {
        intentSlots := ResolveSlots(intent.slots.value, model.slots);
      }
      nlc.RegisterIntent(Registration(intent.name, Some(intentSlots), samples));
      assert Registrations(PrototypeModel(model.slots, intents[..i + 1]), expand)
          == Registrations(PrototypeModel(model.slots, intents[..i]), expand) + [IntentRegistration(model.slots, expand, intent)];
    }
    assert intents[..|intents|] == intents;
  }

  /** `registerBuiltInIntents(nlc, locale)` */
  method RegisterBuiltInIntents(nlc: Commander, locale: Option<string>, defaults: map<string, seq<BuiltInIntent>>)
    requires "en" in defaults
    modifies nlc
    ensures nlc.registrations == old(nlc.registrations) + BuiltInRegistrations(locale, defaults)
    ensures nlc.slotTypes == old(nlc.slotTypes)
  {
    var lang := Lang(locale.GetOr(EN_US));
    var builtIns := if lang in defaults then defaults[lang] else defaults["en"];
    for i := 0 to |builtIns|
      invariant |nlc.registrations| == |old(nlc.registrations)| + i
      invariant nlc.registrations[..|old(nlc.registrations)|] == old(nlc.registrations)
      invariant forall k :: 0 <= k < i ==> nlc.registrations[|old(nlc.registrations)| + k] == BuiltInRegistration(builtIns[k])
      invariant nlc.slotTypes == old(nlc.slotTypes)
    {
      nlc.RegisterIntent(Registration(builtIns[i].name, None, builtIns[i].samples));
    }
  }

  /** `createNLC({ model, locale, openSlot })` */
  method CreateNlc(model: PrototypeModel, locale: Option<string>, openSlot: bool, expand: Expander,
                   defaults: map<string, seq<BuiltInIntent>>) returns (nlc: Commander)
    requires "en" in defaults
    ensures fresh(nlc)
    ensures nlc.slotTypes == SlotTypes(model.slots, openSlot)
    ensures nlc.registrations == Registrations(model, expand) + BuiltInRegistrations(locale, defaults)
  {
    nlc := new Commander();
    RegisterSlots(nlc, model, openSlot);
    RegisterIntents(nlc, model, expand);
    RegisterBuiltInIntents(nlc, locale, defaults);
  }

  // ---------------------------------------------------------------------------------------------
  // Shaping the classifier's answer

  /** A filled slot of the classifier's answer. */
  datatype SlotFill = SlotFill(name: string, value: Option<string>)

  /** The classifier's answer (`IIntentFullfilment`). */
  datatype Fulfilment = Fulfilment(intent: string, slots: seq<SlotFill>)

  /** One step of the entity reduce: a slot with a truthy value becomes an entity. */
  function EntityOf(fill: SlotFill): (r: Option<Entity>)
    ensures r.Some? <==> Truthy(fill.value)
    ensures r.Some? ==> r.value == Entity(fill.name, fill.value.value)
  {
    if Truthy(fill.value) then Some(Entity(fill.name, fill.value.value)) else None
  }

  /** `getNoneIntentRequest(query)` */
  type NoneIntent = string -> Request

  /** `nlcToIntent(intent, query = '', confidence)` */
  function NlcToIntent(intent: Option<Fulfilment>, query: Option<string>, confidence: Option<int>, none: NoneIntent): (r: Request)
    ensures intent.None? ==> r == none(query.GetOr(""))
    ensures intent.Some? ==> r.IntentRequest? && r.query == query.GetOr("") && r.intent == intent.value.intent
                             && r.confidence == confidence
    // only slots with a value become entities, and every entity's value is non-empty
    ensures intent.Some? ==> |r.entities| <= |intent.value.slots| && forall e :: e in r.entities ==> e.value != []
  {
    match intent
    case None => none(query.GetOr(""))
    case Some(f) =>
      var entities := FilterMap(f.slots, EntityOf);
      assert forall e :: e in entities ==> e.value != [] by {
        forall e | e in entities ensures e.value != [] {
          FilterMapMembers(f.slots, EntityOf, e);
          var k :| 0 <= k < |f.slots| && EntityOf(f.slots[k]) == Some(e);
        }
      }
      IntentRequest(query.GetOr(""), f.intent, entities, confidence)
  }

  /** The entities are exactly the slots with a truthy value, as name/value pairs. */
  lemma EntitiesExactly(f: Fulfilment, query: Option<string>, confidence: Option<int>, none: NoneIntent, e: Entity)
    ensures e in NlcToIntent(Some(f), query, confidence, none).entities <==>
              exists k :: 0 <= k < |f.slots| && Truthy(f.slots[k].value) && e == Entity(f.slots[k].name, f.slots[k].value.value)
  {
    FilterMapMembers(f.slots, EntityOf, e);
  }

  /** The entities keep the slot order: filling more slots appends their entities after the others. */
  lemma EntitiesInOrder(a: seq<SlotFill>, b: seq<SlotFill>, intent: string, query: Option<string>, confidence: Option<int>, none: NoneIntent)
    ensures NlcToIntent(Some(Fulfilment(intent, a + b)), query, confidence, none).entities
         == NlcToIntent(Some(Fulfilment(intent, a)), query, confidence, none).entities
          + NlcToIntent(Some(Fulfilment(intent, b)), query, confidence, none).entities
  {
    FilterMapAppend(a, b, EntityOf);
  }

  /** When every slot is filled, each becomes an entity, in order. */
  lemma AllSlotsFilled(f: Fulfilment, query: Option<string>, confidence: Option<int>, none: NoneIntent)
    requires forall k :: 0 <= k < |f.slots| ==> Truthy(f.slots[k].value)
    ensures var es := NlcToIntent(Some(f), query, confidence, none).entities;
            |es| == |f.slots| && forall k :: 0 <= k < |f.slots| ==> es[k] == Entity(f.slots[k].name, f.slots[k].value.GetOr(""))
  {
    FilterMapTotal(f.slots, EntityOf);
  }

  /** `nlc.handleCommand(query)`: the classifier, given what was registered. */
  type Classifier = (seq<SlotType>, seq<Registration>, string) -> Option<Fulfilment>

  /** `handleNLCCommand({ query, model, locale, openSlot = true })` */
  method HandleNlcCommand(query: string, model: PrototypeModel, locale: Option<string>, openSlot: Option<bool>,
                          expand: Expander, defaults: map<string, seq<BuiltInIntent>>, classify: Classifier,
                          none: NoneIntent) returns (r: Request)
    requires "en" in defaults
    ensures var open := openSlot.GetOr(true);
            var answer := classify(SlotTypes(model.slots, open), Registrations(model, expand) + BuiltInRegistrations(locale, defaults), query);
            r == NlcToIntent(answer, Some(query), if open then None else Some(1), none)
    // a recognised intent carries no confidence with open slots, and confidence 1 otherwise
    ensures var open := openSlot.GetOr(true);
            var answer := classify(SlotTypes(model.slots, open), Registrations(model, expand) + BuiltInRegistrations(locale, defaults), query);
            answer.Some? ==> r.IntentRequest? && r.query == query && r.confidence == (if open then None else Some(1))
  {
    var open := openSlot.GetOr(true);
    var nlc := CreateNlc(model, locale, open, expand, defaults);
    var answer := classify(nlc.slotTypes, nlc.registrations, query);
    r := NlcToIntent(answer, Some(query), if open then None else Some(1), none);
  }
}
