# general-runtime execution core, in Dafny

This project models the execution core of a dialog-flow runtime. A flow program is a graph of nodes. The runtime walks it one user turn at a time, keeping a call stack of frames (one per active program). The model covers:

- **Program** — the read-only program model.
- **Cycle handler** — the bounded loop that hands each node to the first handler able to take it.
- **Command handler** — global JUMP and PUSH commands found on the stack.
- **Preliminary handler** — takes a request that arrives while the flow rests on a node that does not consume events.
- **Interaction handler** — the priority chain when a request reaches an interaction node.
- **No-match and no-reply handlers** — the two retry escalations.
- **Response filter** — removes internal traces and strips SSML.
- **Natural-language-commander set-up** — turns the project's slots and intents into registrations, and shapes the classifier's answer into an intent request.

The style follows the source, file by file:

- **Imperative code** becomes methods that change a live `Runtime` (with its `Stack`, `runtime.dfy`) or a live `Commander` (`nlc.dfy`). The primitive updates (`push`, `popTo`, `addTrace`, `storage.set`, `addSlotType`, `registerIntent`) are methods of those classes. The cycle loop, the handlers' updates of the stack, storage and trace, and the registration loops are module-level methods that take the `Runtime` or the `Commander` as a parameter and modify it. Each method is proved equal to a pure specification function over a value view of the state: `RuntimeState`, `SlotTypes`, `Registrations`.
- **Properties** are stated on those functions and proved as lemmas.
- **Pure code** is modelled as datatypes and functions: the program model, the filter, `nlcToIntent`, the slot matcher and the intent-slot reduce.

Collaborators whose code is not part of this model are parameters:

- the event matcher (`findEventMatcher`/`hasEventMatch`), as a function from a trigger and the request to an optional side effect;
- the no-reply handler's `canHandle` (`Deps.noReplyCanHandle`);
- the repeat handler;
- `outputTrace`'s rendering of a prompt;
- the random choice of `_.sample`, as an index `pick`;
- `sanitizeSSML`;
- `getUtterancesWithSlotNames`;
- `getNoneIntentRequest`;
- the classifier `handleCommand`;
- the `canHandle` of the Capture, CaptureV2, `_v1` and IfV2 handlers.

Modules: `Wrappers`, `Strings` (the JavaScript string operations used: `split`, `trim`, `toLowerCase`, number printing), `Types`, `Program`, `Runtime`, `CycleHandler`, `Command`, `Preliminary`, `Utils`, `Retry` (the escalation shared by no-match and no-reply), `NoMatch`, `NoReply`, `Interaction`, `Filter`, `Nlc`.

Where the prose description of the system and the code disagree, the model follows the code:

- **Overflow ceiling.** The description says the loop stops after exactly 400 handled nodes. The guard `i > HANDLER_OVERFLOW` with `i` starting at 0 lets 401 handler calls happen. `CycleHandler.CallBound` proves at most 401, and `CycleHandler.OverflowReached` proves that 401 are reached.
- **Leaving the REQUEST phase.** The description moves from REQUEST to RUNNING after the first *handled* iteration. The code does it after the first iteration with a resolved node, whether or not a handler accepted it.
- **Interaction priority.** The description proposes command > repeat > no-reply > triggers > no-match. The handler's tests fix no-reply > triggers > command > repeat > no-match.
- **Trigger without `nextId`.** The description returns the current node's id. The tests expect `null`.
- **Where the counters live.** The description keeps the retry counters in the frame's scratchpad. `noMatch.ts` keeps them in `runtime.storage`.
- **`popTo(d)`.** The description keeps the frames with index ≤ d. The command handler calls `popTo(index + 1)` to keep the matched frame, so `popTo(d)` is modelled as keeping the first d frames.

## Model

| member | source | states |
|---|---|---|
| Program.NewProgram | runtime/lib/Program/index.ts:18-25 | the accessors return the given id, nodes, start id and name; `variables` and `commands` default to empty lists |
| Program.ProgramModel.GetNode | runtime/lib/Program/index.ts:31-41 | no node for a missing, empty or unknown id; otherwise the stored node with its `id` set to the key |
| Program.GetNodeStable | runtime/lib/Program/index.ts:31-41 | looking a resolved node up again by its own id gives the same node |
| Runtime.Stack.Push | lib/services/runtime/handlers/command.ts:47-50 | the frame becomes the new top and the frame list's identity changes |
| Runtime.Stack.PopTo | lib/services/runtime/handlers/command.ts:44-45 | keeps the first `depth` frames and changes the list's identity |
| Runtime.Stack.SetTopNodeID | lib/services/runtime/handlers/command.ts:52 | only the top frame's node pointer changes |
| Runtime.Stack.SetTopStorage | lib/services/runtime/handlers/command.ts:62 | only one key of the top frame's storage changes |
| CycleHandler.Select | runtime/lib/Runtime/cycleHandler.ts:33 | the first handler whose `canHandle` accepts, with none before it accepting; a throw from a `canHandle` is propagated |
| CycleHandler.Dispatch | runtime/lib/Runtime/cycleHandler.ts:32-44 | no handler: no events and no change. A handler that returns: exactly `handlerWillHandle`, `handlerDidHandle`. A throw: `handlerDidCatch`, with the next id kept |
| CycleHandler.Step | runtime/lib/Runtime/cycleHandler.ts:19-63 | one loop body. Covered: the ceiling break, the reference frame set to a truthy next id, REQUEST→RUNNING, the self-loop ending the runtime, and the exit if and only if there is no next id, the runtime has ended or the frame list changed |
| CycleHandler.Cycle | runtime/lib/Runtime/cycleHandler.ts:19-63 | the do/while loop terminates with no node left |
| CycleHandler.RunCycle | runtime/lib/Runtime/cycleHandler.ts:11-17 | starting from the top frame's node; with no such node the runtime is left unchanged after one pass |
| CycleHandler.CycleHandler | runtime/lib/Runtime/cycleHandler.ts:11-64 | the loop on the live runtime produces exactly `RunCycle`'s state and events |
| CycleHandler.HandledCountAppend | runtime/lib/Runtime/cycleHandler.ts:36 | handler calls in a log add up over concatenation |
| CycleHandler.StepCalls | runtime/lib/Runtime/cycleHandler.ts:20-41 | one iteration calls at most one handler, and none past the ceiling |
| CycleHandler.CycleCalls | runtime/lib/Runtime/cycleHandler.ts:16-63 | from iteration i, at most 401 − i more handler calls |
| CycleHandler.CallBound | runtime/lib/Runtime/cycleHandler.ts:9-22 | one cycle runs at most 401 handlers |
| CycleHandler.PingPongCalls | runtime/lib/Runtime/cycleHandler.ts:19-63 | on a two-node program that bounces forever, every iteration up to the ceiling calls a handler |
| CycleHandler.OverflowReached | runtime/lib/Runtime/cycleHandler.ts:9-22 | the bound is tight: that program runs exactly 401 handlers |
| CycleHandler.ActionStaysConsumed | runtime/lib/Runtime/cycleHandler.ts:46-49 | once out of REQUEST, the loop never returns to it |
| CycleHandler.RequestConsumed | runtime/lib/Runtime/cycleHandler.ts:46-49 | when the reference frame names a node, the cycle ends outside the REQUEST phase |
| CycleHandler.PairedAppend | runtime/lib/Runtime/cycleHandler.ts:36-43 | well-paired event logs stay well paired when concatenated |
| CycleHandler.CyclePaired | runtime/lib/Runtime/cycleHandler.ts:36-43 | the loop keeps the event log well paired |
| CycleHandler.EventsPaired | runtime/lib/Runtime/cycleHandler.ts:36-43 | every `handlerWillHandle` is followed at once by the `handlerDidHandle` of the same node, or by `handlerDidCatch` when the handler throws; no `handlerDidHandle` occurs without a preceding `handlerWillHandle` |
| Command.FirstCommand | lib/services/runtime/handlers/command.ts:8-12 | the first command of a frame that matches, with none before it matching |
| Command.ExtractFrameCommand | lib/services/runtime/handlers/command.ts:8-12 | the found command is in its frame and matches, and no higher frame has a match; none exactly when no frame has a matching command |
| Command.GetCommand | lib/services/runtime/handlers/command.ts:8-12 | the command found matches the request; none exactly when no command on the stack matches |
| Command.HandleSpec | lib/services/runtime/handlers/command.ts:26-70 | returns null; the matcher's side effect is the only one recorded; phase, ended flag, request and storage are unchanged; a PUSH without a program changes nothing else |
| Command.JumpCommand | lib/services/runtime/handlers/command.ts:38-54 | JUMP: unwind to the matched frame, push a frame only for another program, set the top's node id to `nextID` or null, trace path `jump` and the debug line, change the frame list's identity |
| Command.PushCommand | lib/services/runtime/handlers/command.ts:57-67 | PUSH to a program: the caller's frame is flagged `calledCommand`, exactly one new frame is added for the target, path `push` and the debug line are traced |
| Command.HandleJump | lib/services/runtime/handlers/command.ts:38-54 | the JUMP branch on the live stack equals its specification |
| Command.HandlePush | lib/services/runtime/handlers/command.ts:57-67 | the PUSH branch on the live stack equals its specification |
| Command.Handle | lib/services/runtime/handlers/command.ts:26-70 | the handler on the live runtime equals `HandleSpec` |
| Preliminary.CanHandle | lib/services/runtime/handlers/state/preliminary.ts:24-27 | true exactly when there is a request, the phase is REQUEST and no event handler accepts the node; false for interaction nodes |
| Preliminary.HandleSpec | lib/services/runtime/handlers/state/preliminary.ts:28-36 | delegates to the command handler when a command matches; otherwise stays on the node, changing nothing |
| Preliminary.StayingPutEndsCycle | lib/services/runtime/handlers/state/preliminary.ts:35 | staying on the node ends the cycle through the self-loop rule |
| Utils.RemoveEmptyPrompts | lib/services/runtime/handlers/noMatch.ts:30-34 | no empty prompt is kept |
| Utils.RemoveEmptyPromptsMembers | lib/services/runtime/handlers/noMatch.ts:30-34 | exactly the non-empty prompts are kept |
| Utils.RemoveEmptyPromptsAppend | lib/services/runtime/handlers/noMatch.ts:30-34 | works piecewise, so the order is kept |
| Utils.RemoveEmptyPromptsKeeps | lib/services/runtime/handlers/noMatch.ts:30-34 | a list without empty prompts is unchanged |
| Utils.RemoveEmptyPromptsIdempotent | lib/services/runtime/handlers/noMatch.ts:30-34 | applying it twice equals applying it once |
| Utils.ButtonTraces | lib/services/runtime/handlers/noMatch.ts:67 | one choice trace exactly when the node has buttons |
| Utils.TimeoutTraces | lib/services/runtime/handlers/noMatch.ts:68 | one no-reply trace exactly when the node sets a non-zero timeout |
| Retry.Chosen | lib/services/runtime/handlers/noMatch.ts:61 | the spoken prompt is one of the candidates; without `randomize` it is the one at the counter |
| Retry.Handle | lib/services/runtime/handlers/noMatch.ts:42-70 | counter ≥ prompts: delete the counter, trace the exit path, return the fallback. Otherwise: trace `reprompt` and the chosen prompt plus buttons and timeout, store counter + 1, stay. Only the storage and the trace change |
| Retry.Escalation | lib/services/runtime/handlers/noMatch.ts:42-70 | from no counter, call k has counter k and, below the prompt count, stays on the node |
| Retry.HandOff | lib/services/runtime/handlers/noMatch.ts:44-53 | the call after all prompts hands off and leaves no counter, so the escalation starts over |
| Retry.Run | lib/services/runtime/handlers/noMatch.ts:42-70 | the escalation on the live runtime equals `Retry.Handle` |
| NoMatch.ConvertDeprecatedNoMatch | lib/services/runtime/handlers/noMatch.ts:20-28 | each canonical field wins over its legacy counterpart; the legacy fields are dropped; nothing else changes |
| NoMatch.RemoveEmptyNoMatches | lib/services/runtime/handlers/noMatch.ts:30-34 | exactly the non-empty configured prompts; none without a configuration |
| NoMatch.HandleSpec | lib/services/runtime/handlers/noMatch.ts:37-71 | the hand-off and the reprompt branches on the converted node, with `choice:else` and the no-match counter |
| NoMatch.Handle | lib/services/runtime/handlers/noMatch.ts:37-71 | the handler on the live runtime equals `HandleSpec` |
| NoMatch.Escalation | lib/services/runtime/handlers/noMatch.ts:42-70 | with n non-empty prompts, calls 1..n reprompt and stay; call n + 1 hands off |
| NoMatch.TwoPrompts | lib/services/runtime/handlers/noMatch.ts:42-70 | two prompts, not randomized: first and second no-match speak them in order; the third traces `choice:else` and goes to the fallback |
| NoReply.Prompts | tests/lib/services/runtime/handlers/noReply.unit.ts:204-245 | the configured prompts, else the legacy reprompt when truthy, else none |
| NoReply.HandleSpec | tests/lib/services/runtime/handlers/noReply.unit.ts:14-245 | the escalation with `choice:noReply` and the no-reply counter; only storage and trace change |
| NoReply.Handle | tests/lib/services/runtime/handlers/noReply.unit.ts:14-54 | the handler on the live runtime equals `HandleSpec` |
| NoReply.FirstReprompt | tests/lib/services/runtime/handlers/noReply.unit.ts:14-54 | first no-reply with one prompt: stays, traces `reprompt` and the prompt, counter 1 |
| NoReply.NoConfiguration | tests/lib/services/runtime/handlers/noReply.unit.ts:56-77 | without a configuration the handler returns null |
| NoReply.FallbackWithoutPrompts | tests/lib/services/runtime/handlers/noReply.unit.ts:79-102 | a fallback without prompts: hand-off at once, tracing only `choice:noReply` |
| NoReply.SkipsEmptyPrompt | tests/lib/services/runtime/handlers/noReply.unit.ts:137-201 | a `null` or empty-audio entry is skipped: the next prompt is spoken |
| NoReply.DeprecatedReprompt | tests/lib/services/runtime/handlers/noReply.unit.ts:204-245 | the legacy `reprompt` behaves as a one-prompt configuration |
| Interaction.FirstMatch | tests/lib/services/runtime/handlers/interaction.unit.ts:304-338 | the first trigger that matches, with none before it matching |
| Interaction.ChoicePath | tests/lib/services/runtime/handlers/interaction.unit.ts:254-277 | the path of a trigger is `choice:` followed by its 1-based position |
| Interaction.ChoicePathInjective | tests/lib/services/runtime/handlers/interaction.unit.ts:304-338 | distinct triggers have distinct paths |
| Interaction.HandleSpec | tests/lib/services/runtime/handlers/interaction.unit.ts:22-363 | RUNNING: render buttons and timeout, clear both counters, stay. Otherwise, in order: no-reply, the first matching trigger (goto trace or `choice:N` and its `nextId` or null), command, repeat, no-match |
| Interaction.RunningIsSilent | tests/lib/services/runtime/handlers/interaction.unit.ts:44-68 | arriving at a node without buttons or timeout emits no trace |
| Interaction.Scan | tests/lib/services/runtime/handlers/interaction.unit.ts:304-338 | the scan on the live runtime finds `FirstMatch` |
| Interaction.Handle | tests/lib/services/runtime/handlers/interaction.unit.ts:22-363 | the handler on the live runtime equals `HandleSpec` |
| Filter.ExcludeTypes | lib/services/filter/index.ts:21-26 | a given list, even an empty one, replaces the defaults block, debug and flow |
| Filter.KeepTypes | lib/services/filter/index.ts:27 | no kept trace has an excluded type |
| Filter.KeepTypesMembers | lib/services/filter/index.ts:27 | exactly the traces whose type is not excluded are kept |
| Filter.KeepTypesAppend | lib/services/filter/index.ts:27 | the filter works trace by trace, so it keeps the order |
| Filter.Strip | lib/services/filter/index.ts:30-43 | only message and audio speak traces change, only in their message, which is sanitized; the type is kept |
| Filter.Handle | lib/services/filter/index.ts:19-50 | a missing trace list counts as empty. No output trace has an excluded type. With `stripSSML === false` the kept traces are unchanged, otherwise each is stripped. Every other field is kept |
| Filter.DefaultsDropInternalTraces | lib/services/filter/index.ts:26 | with the default configuration no block, debug or flow trace survives |
| Filter.KeptExactly | lib/services/filter/index.ts:26-43 | every input trace of a kept type is in the output, stripped |
| Nlc.FilterMapAppend | lib/services/nlu/nlc.ts:104 | the map-and-drop pass works element by element, so it keeps the order |
| Nlc.FilterMapMembers | lib/services/nlu/nlc.ts:104 | the pass yields exactly the values of the elements that have one |
| Nlc.FilterMapTotal | lib/services/nlu/nlc.ts:41-57 | when nothing is dropped the pass is a pointwise map |
| Nlc.Cleaned | lib/services/nlu/nlc.ts:22-23 | the trimmed value, dropped exactly when it is empty |
| Nlc.SlotMatcher | lib/services/nlu/nlc.ts:21-23 | every matcher value is non-empty, has no comma, and neither starts nor ends with white space |
| Nlc.SlotMatcherAppend | lib/services/nlu/nlc.ts:21-23 | the matcher keeps the order of the inputs and of the values within each |
| Nlc.SlotMatcherMembers | lib/services/nlu/nlc.ts:21-23 | a value is accepted exactly when it is the non-empty trimmed form of a comma-separated piece of an input |
| Nlc.SlotTypes | lib/services/nlu/nlc.ts:12-31 | every registration is named after a slot; with open slots every slot is registered, in order |
| Nlc.SlotRegistered | lib/services/nlu/nlc.ts:15-25 | a custom slot with inputs gets its value list; any other slot gets the catch-all when slots are open |
| Nlc.ClosedSlotsOnlyCustom | lib/services/nlu/nlc.ts:15-19 | with closed slots only custom slots are registered, and never the catch-all |
| Nlc.FindSlot | lib/services/nlu/nlc.ts:43 | the first slot with the key; none exactly when no slot has it |
| Nlc.ResolveSlots | lib/services/nlu/nlc.ts:41-57 | at most one intent slot per reference, each named and typed by a slot's name |
| Nlc.ResolveSlotsMembers | lib/services/nlu/nlc.ts:42-57 | a reference to an unknown key is dropped; the others give the first such slot's name and `required` as a boolean |
| Nlc.ResolveSlotsTotal | lib/services/nlu/nlc.ts:42-57 | when every reference resolves, none is dropped and the order is kept |
| Nlc.IntentRegistration | lib/services/nlu/nlc.ts:34-65 | the intent's name, its resolved slots (an empty list without any), and utterances that are trimmed and non-empty |
| Nlc.Lang | lib/services/nlu/nlc.ts:73 | the locale's first two characters, or all of a shorter one |
| Nlc.BuiltInIntents | lib/services/nlu/nlc.ts:72-74 | the language's built-in intents, falling back to English; the locale defaults to `en-US` |
| Nlc.BuiltInIntentsByLanguage | lib/services/nlu/nlc.ts:72-74 | locales with the same language get the same intents, and no locale means English |
| Nlc.BuiltInRegistrations | lib/services/nlu/nlc.ts:76-84 | one slot-less registration per built-in intent, in order, with its samples |
| Nlc.RegisterSlot | lib/services/nlu/nlc.ts:14-26 | one slot adds none or one slot type, as `SlotTypeOf` decides |
| Nlc.RegisterSlots | lib/services/nlu/nlc.ts:12-31 | the loop adds exactly `SlotTypes`, in order, and registers no intent |
| Nlc.RegisterIntents | lib/services/nlu/nlc.ts:33-70 | the loop adds exactly one registration per intent, in order |
| Nlc.RegisterBuiltInIntents | lib/services/nlu/nlc.ts:72-85 | the loop adds exactly the built-in registrations, in order |
| Nlc.CreateNlc | lib/services/nlu/nlc.ts:87-95 | a new commander holding the slot types, then the project's intents, then the built-in intents |
| Nlc.EntityOf | lib/services/nlu/nlc.ts:104 | a filled slot becomes an entity exactly when its value is truthy |
| Nlc.NlcToIntent | lib/services/nlu/nlc.ts:97-108 | no answer gives the none-intent request. An answer gives an intent request with its name, the query (default empty) and the given confidence; only slots with a value become entities |
| Nlc.EntitiesExactly | lib/services/nlu/nlc.ts:104 | the entities are exactly the name/value pairs of the slots with a truthy value |
| Nlc.EntitiesInOrder | lib/services/nlu/nlc.ts:104 | the entities keep the slot order |
| Nlc.AllSlotsFilled | lib/services/nlu/nlc.ts:104 | when every slot has a value, each becomes an entity, in order |
| Nlc.HandleNlcCommand | lib/services/nlu/nlc.ts:110-124 | classifies against the registrations of `CreateNlc`. A recognised intent has no confidence with open slots (the default) and confidence 1 otherwise |
| Strings.Split | lib/services/nlu/nlc.ts:21 | no piece contains the separator |
| Strings.SplitJoin | lib/services/nlu/nlc.ts:21 | joining the pieces with the separator gives the input back |
| Strings.Trim | lib/services/nlu/nlc.ts:22 | an infix of the input, neither starting nor ending with white space; only white space is removed |

## Left out

- `server.ts` (HTTP serving) and `runtime/lib/Context/types.ts` are not part of this model; the filter's `Context` datatype only borrows the context's shape.
- Asynchrony: the `await`s of the cycle loop are sequential steps here. The lifecycle `callEvent`s are recorded in a ghost event log; listeners are not run.
- The bodies of `Stack`, `Frame` and `Runtime` are not part of this model. The methods on those classes give the minimal behaviour the modelled callers rely on.
- Stack identity: a generation counter stands for it, bumped by every `push` and `popTo`.
- `extractFrameCommand`: assumed to search the frames from the top down, and each frame's commands in order.
- `hasEventMatch` and `findEventMatcher`: modelled as one matcher function; a match carries its side effect.
- `removeEmptyPrompts`: assumed to drop `null`, the empty-audio marker and rich text with no text.
- `addButtonsIfExists`: assumed to add one choice trace when there are buttons.
- `addNoReplyTimeoutIfExists`: assumed to add one no-reply trace when a non-zero timeout is set.
- Utils.OutputTrace: variable interpolation and number formatting are a `render` parameter, so the speak trace's text is not computed.
- Retry.Chosen: `_.sample` is a caller-supplied index (`pick`, taken modulo the number of prompts), not randomness.
- Types.CounterOf: a stored counter that is not a number reads as 0, as an absent one does.
- Interaction.HandleSpec: the handler's own source file is not part of this model. Its behaviour comes from the unit tests. An absent `interactions` field is read as no triggers, and a trigger's `nextId` is passed through `|| null`.
- Preliminary.CanHandle: the `canHandle` of the Capture, CaptureV2, `_v1` and IfV2 handlers is a parameter. Only the interaction handler's is modelled.
- The repeat handler is a parameter.
- Interaction.HandleSpec: the no-reply handler's `canHandle` is not part of this model either; it is the parameter `noReplyCanHandle`, so which requests count as a non-reply is not decided here.
- The variable store (`variableState`) is not modelled. Handlers' `canHandle` and `handle`, and the event matcher, cannot read variables. A matcher's side effect, which in the system writes entities into variables, is an opaque token appended to `effects`.
- CycleHandler.RunCycle and CycleHandler.CycleHandler require a non-empty stack, and so do the lemmas about a whole cycle (CallBound, RequestConsumed, EventsPaired). On an empty stack `stack.top()` gives nothing, and reading its node id throws outside the `try` block, so the cycle rejects; that rejection is not modelled.
- Types.DebugTrace: the `BaseNode.NodeType.COMMAND` argument of the command handler's debug traces is recorded as the string `command` (`Types.COMMAND_NODE_TYPE`); the enumeration that defines it is not part of this model.
- `sanitizeSSML` is an uninterpreted parameter.
- Nlc.RegisterSlots: `addSlotType` is assumed to succeed. The `try`/`catch` that logs a failure and skips that slot is not modelled.
- Nlc.RegisterIntents and Nlc.RegisterBuiltInIntents: `registerIntent` is assumed to succeed, so the logging `catch` paths are likewise not modelled.
- Nlc.SlotTypeOf: the catch-all matcher is the constructor `CatchAll`, not the regular expression.
- The natural-language commander library is not part of this model: `handleCommand` and `getUtterancesWithSlotNames` are parameters, and the none-intent request is the parameter `none`.
- Nlc.BuiltInIntents: the built-in intent table is a parameter and is required to have English entries, as the fixed table does.
- `handleNLCDialog`: not modelled. It depends entirely on the library's `handleDialog` and `getRequired`.
- Logging is not modelled.
- Strings.Trim: white space is the subset of characters listed in `Strings.IsSpace`.
- Strings.ToLower: lower-cases ASCII letters only.
