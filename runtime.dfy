/** The per-request state container: the call stack of frames, the action phase, the inbound
    request, the trace, the general storage and the registered handlers. The `Stack`, `Frame` and
    `Runtime` classes of the repository are not part of this model; what is here is the minimal
    behaviour the modelled callers rely on. */
module Runtime {
  import opened Wrappers
  import opened Types
  import opened Program

  /** One position within one program: owning program, current node pointer, scratchpad, and the
      commands registered for it. */
  datatype Frame = Frame(programID: ProgramId, nodeID: Option<NodeId>, storage: map<string, Value>, commands: seq<Command>)

  /** `new Frame({ programID })`: no node yet, empty storage, no commands. */
  function NewFrame(programID: ProgramId): Frame {
    Frame(programID, None, map[], [])
  }

  datatype Action = Idle | Request | Running

  /** A value view of everything a handler can see and change. `generation` stands for the identity
      of the stack's frame list, which changes on every push and every truncation. */
  datatype RuntimeState = RuntimeState(
    frames: seq<Frame>,
    generation: nat,
    action: Action,
    ended: bool,
    request: Option<Request>,
    trace: seq<Trace>,
    storage: map<string, Value>,
    effects: seq<SideEffect>)

  /** The value of a computation that may throw. */
  datatype Try<T> = Ok(value: T) | Raised(error: string)

  /** How a handler's `handle` ends: it returns a next id, or it throws; either way the changes it
      made to the runtime before that stay. */
  datatype Outcome =
    | Returned(next: Option<NodeId>, after: RuntimeState)
    | Threw(error: string, after: RuntimeState)

  /** A registered handler: a capability predicate and an operation, both given the node, the
      runtime and the program. */
  datatype Handler = Handler(
    canHandle: (Node, RuntimeState, ProgramModel) -> Try<bool>,
    handle: (Node, RuntimeState, ProgramModel) -> Outcome)

  /** Lifecycle events the cycle emits. */
  datatype LifecycleEvent = WillHandle(node: Node) | DidHandle(node: Node) | DidCatch(error: string)

  class Stack {
    var frames: seq<Frame>
    var generation: nat

    constructor (frames: seq<Frame>)
      ensures this.frames == frames && generation == 0
    {
      this.frames := frames;
      generation := 0;
    }

    /** `push(frame)`: the frame becomes the new top. */
    method Push(frame: Frame)
      modifies this
      ensures frames == old(frames) + [frame]
      ensures generation == old(generation) + 1
    {
      frames := frames + [frame];
      generation := generation + 1;
    }

    /** `popTo(depth)`: keeps the first `depth` frames. */
    method PopTo(depth: nat)
      modifies this
      ensures frames == if depth <= |old(frames)| then old(frames)[..depth] else old(frames)
      ensures generation == old(generation) + 1
    {
      if depth <= |frames| {
        frames := frames[..depth];
      }
      generation := generation + 1;
    }

    /** `setNodeID` on the frame at position `k`; a frame no longer on the stack is not visible. */
    method SetNodeIDAt(k: nat, nodeID: Option<NodeId>)
      modifies this
      ensures frames == if k < |old(frames)| then old(frames)[k := old(frames)[k].(nodeID := nodeID)] else old(frames)
      ensures generation == old(generation)
    {
      if k < |frames| {
        frames := frames[k := frames[k].(nodeID := nodeID)];
      }
    }

    /** `top().setNodeID(nodeID)` */
    method SetTopNodeID(nodeID: Option<NodeId>)
      requires |frames| > 0
      modifies this
      ensures frames == old(frames)[|old(frames)| - 1 := old(frames)[|old(frames)| - 1].(nodeID := nodeID)]
      ensures generation == old(generation)
    {
      SetNodeIDAt(|frames| - 1, nodeID);
    }

    /** `top().storage.set(key, value)` */
    method SetTopStorage(key: string, value: Value)
      requires |frames| > 0
      modifies this
      ensures var t := old(frames)[|old(frames)| - 1];
              frames == old(frames)[|old(frames)| - 1 := t.(storage := t.storage[key := value])]
      ensures generation == old(generation)
    {
      var t := frames[|frames| - 1];
      frames := frames[|frames| - 1 := t.(storage := t.storage[key := value])];
    }
  }

  class Runtime {
    const stack: Stack
    var action: Action
    var ended: bool
    var request: Option<Request>
    var trace: seq<Trace>
    var storage: map<string, Value>
    var effects: seq<SideEffect>
    const handlers: seq<Handler>
    ghost var events: seq<LifecycleEvent>

    constructor (stack: Stack, request: Option<Request>, handlers: seq<Handler>)
      ensures this.stack == stack && this.request == request && this.handlers == handlers
      ensures action == Request && !ended && trace == [] && storage == map[] && effects == [] && events == []
    {
      this.stack := stack;
      this.request := request;
      this.handlers := handlers;
      action := Request;
      ended := false;
      trace := [];
      storage := map[];
      effects := [];
      events := [];
    }

    function State(): RuntimeState
      reads this, stack
    {
      RuntimeState(stack.frames, stack.generation, action, ended, request, trace, storage, effects)
    }

    /** Takes over the state a collaborator left behind. */
    method Load(s: RuntimeState)
      modifies this, stack
      ensures State() == s && events == old(events)
    {
      stack.frames, stack.generation := s.frames, s.generation;
      action, ended, request, trace, storage, effects := s.action, s.ended, s.request, s.trace, s.storage, s.effects;
    }

    /** `trace.addTrace(t)` */
    method AddTrace(t: Trace)
      modifies this
      ensures State() == old(State()).(trace := old(trace) + [t]) && events == old(events)
    {
      trace := trace + [t];
    }

    /** `storage.set(key, value)` */
    method StorageSet(key: string, value: Value)
      modifies this
      ensures State() == old(State()).(storage := old(storage)[key := value]) && events == old(events)
    {
      storage := storage[key := value];
    }

    /** `storage.delete(key)` */
    method StorageDelete(key: string)
      modifies this
      ensures State() == old(State()).(storage := old(storage) - {key}) && events == old(events)
    {
      storage := storage - {key};
    }

    /** Runs a matcher's side effect. */
    method RunSideEffect(e: SideEffect)
      modifies this
      ensures State() == old(State()).(effects := old(effects) + [e]) && events == old(events)
    {
      effects := effects + [e];
    }

    method SetAction(a: Action)
      modifies this
      ensures State() == old(State()).(action := a) && events == old(events)
    {
      action := a;
    }

    /** `end()` */
    method End()
      modifies this
      ensures State() == old(State()).(ended := true) && events == old(events)
    {
      ended := true;
    }

    /** `callEvent(e)` */
    method Emit(e: LifecycleEvent)
      modifies this
      ensures State() == old(State()) && events == old(events) + [e]
    {
      events := events + [e];
    }
  }
}
