/** The shapes of nodes, requests, traces and commands that the handlers read and write. They come
    from the repository's type package, which is not part of this model; only the fields the modelled
    code touches are kept. */
module Types {
  import opened Wrappers

  type NodeId = string
  type ProgramId = string

  /** A prompt as authored: a plain string, a rich-text (slate) value given here by its plain text,
      or a `null` entry. */
  datatype Prompt = NullPrompt | TextPrompt(text: string) | SlatePrompt(plain: string)

  /** The marker that stands for a prompt with no audio. */
  const EMPTY_AUDIO_STRING: string := "<audio src=\"\"/>"

  /** A redirect carried by a trigger: the request is handed back to the client. */
  datatype GoTo = GoTo(request: string)

  /** A trigger descriptor; what it matches is decided by the event matcher. */
  datatype Event = Event(kind: string, goTo: Option<GoTo>)

  /** One of a node's declared triggers ("interactions"). */
  datatype Interaction = Interaction(event: Event, nextId: Option<NodeId>)

  datatype CommandType = Jump | Push

  /** A globally registered command: `JUMP` or `PUSH`, its trigger, target program and target node. */
  datatype Command = Command(kind: CommandType, event: Event, diagramID: Option<ProgramId>, nextID: Option<NodeId>)

  /** Canonical no-match configuration (`node.noMatch`). */
  datatype NoMatchConfig = NoMatchConfig(prompts: Option<seq<Prompt>>, randomize: Option<bool>, nodeID: Option<NodeId>)

  /** No-reply configuration (`node.noReply`). */
  datatype NoReplyConfig = NoReplyConfig(prompts: Option<seq<Prompt>>, randomize: Option<bool>, nodeID: Option<NodeId>, timeout: Option<nat>)

  /** A node of a flow graph, with the fields of the legacy shapes (`elseId`, `noMatches`,
      `randomize`, `reprompt`) next to the canonical ones. */
  datatype Node = Node(
    id: NodeId,
    interactions: Option<seq<Interaction>>,
    buttons: seq<string>,
    noMatch: Option<NoMatchConfig>,
    elseId: Option<NodeId>,
    noMatches: Option<seq<Prompt>>,
    randomize: Option<bool>,
    noReply: Option<NoReplyConfig>,
    reprompt: Option<Prompt>)

  datatype Entity = Entity(name: string, value: string)

  /** The inbound request of one turn. */
  datatype Request =
    | IntentRequest(query: string, intent: string, entities: seq<Entity>, confidence: Option<int>)
    | NoReplyRequest
    | GeneralRequest(kind: string)

  /** The `type` of a speak payload: a text message, an audio clip, or another kind. */
  datatype SpeakType = Message | Audio | OtherSpeak(kind: string)

  /** Observable output records. */
  datatype Trace =
    | PathTrace(path: string)
    | SpeakTrace(speakType: SpeakType, message: string)
    | DebugTrace(message: string, nodeType: string)
    | GotoTrace(request: string)
    | ChoiceTrace(buttons: seq<string>)
    | NoReplyTrace(timeout: nat)
    | BlockTrace(blockID: string)
    | FlowTrace(diagramID: string)
    | OtherTrace(kind: string)

  const BLOCK := "block"
  const DEBUG := "debug"
  const FLOW := "flow"
  const SPEAK := "speak"
  const PATH := "path"

  /** The node type a debug trace is attributed to when a command matches. */
  const COMMAND_NODE_TYPE := "command"

  /** The `type` field of a trace. */
  function TypeOf(t: Trace): string {
    match t
    case PathTrace(_) => PATH
    case SpeakTrace(_, _) => SPEAK
    case DebugTrace(_, _) => DEBUG
    case GotoTrace(_) => "goto"
    case ChoiceTrace(_) => "choice"
    case NoReplyTrace(_) => "no-reply"
    case BlockTrace(_) => BLOCK
    case FlowTrace(_) => FLOW
    case OtherTrace(k) => k
  }

  /** A value kept in a storage map: the retry counters and the frame flags. */
  datatype Value = Count(n: nat) | Flag(b: bool)

  /** The deferred side effect an event matcher hands back (for example, writing entities into
      variables); the model records that it ran. */
  datatype SideEffect = SideEffect(tag: string)

  /** Decides whether a trigger matches the current request; a match carries its side effect. */
  type EventMatcher = (Event, Option<Request>) -> Option<SideEffect>

  const NO_MATCHES_COUNTER := "noMatchesCounter"
  const NO_REPLIES_COUNTER := "noRepliesCounter"
  const CALLED_COMMAND := "calledCommand"

  /** `storage.get(key) ?? 0` for a retry counter. */
  function CounterOf(storage: map<string, Value>, key: string): nat {
    if key in storage && storage[key].Count? then storage[key].n else 0
  }
}
