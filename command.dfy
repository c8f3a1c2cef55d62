/** The command handler: a global command registered on some frame of the stack (for example
    "help" from anywhere) fires when its trigger matches the request. A JUMP command unwinds the
    stack to the frame holding it and moves to the command's target; a PUSH command calls the target
    program in a new frame on top. */
module Command {
  import opened Wrappers
  import opened Types
  import opened Program
  import opened Runtime

  /** A command found on the stack, with the position of the frame that registers it. */
  datatype CommandMatch = CommandMatch(index: nat, command: Command)

  /** Position of the first command of `cmds`, from position `from` on, that `matches` accepts. */
  function FirstCommand(cmds: seq<Command>, matches: Command -> bool, from: nat): (r: Option<nat>)
    requires from <= |cmds|
    ensures r.Some? ==> from <= r.value < |cmds| && matches(cmds[r.value])
    ensures forall j :: from <= j < (if r.Some? then r.value else |cmds|) ==> !matches(cmds[j])
    decreases |cmds| - from
  {
    if from == |cmds| then None
    else if matches(cmds[from]) then Some(from)
    else FirstCommand(cmds, matches, from + 1)
  }

  /** `extractFrameCommand(stack, matcher)`: the frames are searched from the top down, and within a
      frame its commands in order. */
  function ExtractFrameCommand(frames: seq<Frame>, matches: Command -> bool): (r: Option<CommandMatch>)
    ensures r.Some? ==> r.value.index < |frames| && r.value.command in frames[r.value.index].commands
                        && matches(r.value.command)
    ensures r.Some? ==> var cmds := frames[r.value.index].commands;
                        FirstCommand(cmds, matches, 0).Some? && r.value.command == cmds[FirstCommand(cmds, matches, 0).value]
    ensures r.Some? ==> forall k :: r.value.index < k < |frames| ==> FirstCommand(frames[k].commands, matches, 0).None?
    ensures r.None? <==> forall k :: 0 <= k < |frames| ==> FirstCommand(frames[k].commands, matches, 0).None?
    decreases |frames|
  {
    if frames == [] then None
    else
      var top := |frames| - 1;
      match FirstCommand(frames[top].commands, matches, 0)
      case Some(j) => Some(CommandMatch(top, frames[top].commands[j]))
      case None =>
        var r := ExtractFrameCommand(frames[..top], matches);
        assert forall k :: 0 <= k < top ==> frames[..top][k] == frames[k];
        r
  }

  /** `hasEventMatch(command.event, runtime)`: the trigger matches the current request. */
  predicate HasEventMatch(matcher: EventMatcher, st: RuntimeState, cmd: Command) {
    matcher(cmd.event, st.request).Some?
  }

  /** `getCommand(runtime)`: the command on the stack whose trigger matches, or none. */
  function GetCommand(st: RuntimeState, matcher: EventMatcher): (r: Option<CommandMatch>)
    ensures r.Some? ==> r.value.index < |st.frames| && r.value.command in st.frames[r.value.index].commands
                        && HasEventMatch(matcher, st, r.value.command)
    ensures r.None? <==> forall k, cmd :: 0 <= k < |st.frames| && cmd in st.frames[k].commands ==>
                          !HasEventMatch(matcher, st, cmd)
  {
    var matches := (cmd: Command) => HasEventMatch(matcher, st, cmd);
    var r := ExtractFrameCommand(st.frames, matches);
    assert r.None? ==> forall k, cmd :: 0 <= k < |st.frames| && cmd in st.frames[k].commands ==> !matches(cmd) by {
      if r.None? {
        forall k, cmd | 0 <= k < |st.frames| && cmd in st.frames[k].commands ensures !matches(cmd) {
          var cmds := st.frames[k].commands;
          assert FirstCommand(cmds, matches, 0).None?;
          var j :| 0 <= j < |cmds| && cmds[j] == cmd;
        }
      }
    }
    r
  }

  /** `CommandHandler.canHandle(runtime)` */
  predicate CanHandle(st: RuntimeState, matcher: EventMatcher) {
    GetCommand(st, matcher).Some?
  }

  const JUMP_DEBUG := "matched command **jump** - jumping to node"
  const PUSH_DEBUG := "matched command **push** - adding command flow"

  /** Whether a JUMP to `cmd` adds a frame on top of `base`: only for a different target program. */
  predicate JumpPushes(cmd: Command, base: seq<Frame>)
    requires |base| > 0
  {
    Truthy(cmd.diagramID) && cmd.diagramID.value != base[|base| - 1].programID
  }

  /** The effect of `CommandHandler.handle` on the runtime: its return value and the new state. */
  function HandleSpec(st: RuntimeState, matcher: EventMatcher): (r: (Option<NodeId>, RuntimeState))
    requires CanHandle(st, matcher)
    // the handler never names a next node
    ensures r.0.None?
    // the matched command's side effect runs once: it is the only side effect recorded
    ensures var m := GetCommand(st, matcher).value;
            r.1.effects == st.effects + [matcher(m.command.event, st.request).value]
    ensures r.1.action == st.action && r.1.ended == st.ended && r.1.request == st.request
            && r.1.storage == st.storage
    // PUSH without a target program: only the side effect
    ensures var m := GetCommand(st, matcher).value;
            m.command.kind == Push && !Truthy(m.command.diagramID) ==>
              r.1 == st.(effects := r.1.effects)
  {
    var m := GetCommand(st, matcher).value;
    var cmd := m.command;
    var effect := matcher(cmd.event, st.request);
    var s0 := if effect.Some? then st.(effects := st.effects + [effect.value]) else st;
    if cmd.kind == Jump then (None, Jumped(s0, cmd, m.index))
    else if Truthy(cmd.diagramID) then (None, Pushed(s0, cmd.diagramID.value))
    else (None, s0)
  }

  /** JUMP: the stack is unwound to the matched frame, a frame is pushed only for another program,
      the top's node id is set, and the jump is traced. */
  lemma JumpCommand(st: RuntimeState, matcher: EventMatcher)
    requires CanHandle(st, matcher) && GetCommand(st, matcher).value.command.kind == Jump
    ensures var m := GetCommand(st, matcher).value;
            var base := st.frames[..m.index + 1];
            var r := HandleSpec(st, matcher).1;
            && |r.frames| == m.index + 1 + (if JumpPushes(m.command, base) then 1 else 0)
            && (forall k :: 0 <= k < m.index ==> r.frames[k] == st.frames[k])
            && r.frames[|r.frames| - 1].nodeID == OrNull(m.command.nextID)
            && (JumpPushes(m.command, base) ==>
                  r.frames[m.index] == st.frames[m.index]
                  && r.frames[m.index + 1] == NewFrame(m.command.diagramID.value).(nodeID := OrNull(m.command.nextID)))
            && (!JumpPushes(m.command, base) ==>
                  r.frames[m.index] == st.frames[m.index].(nodeID := OrNull(m.command.nextID)))
            && r.trace == st.trace + [PathTrace("jump"), DebugTrace(JUMP_DEBUG, COMMAND_NODE_TYPE)]
            && r.generation > st.generation
  {
    var m := GetCommand(st, matcher).value;
    var s0 := st.(effects := st.effects + [matcher(m.command.event, st.request).value]);
    assert HandleSpec(st, matcher).1 == Jumped(s0, m.command, m.index);
    JumpedFrames(s0, m.command, m.index);
  }

  /** PUSH to a program: the caller's frame is flagged and exactly one frame is added for the target. */
  lemma PushCommand(st: RuntimeState, matcher: EventMatcher)
    requires CanHandle(st, matcher)
    requires GetCommand(st, matcher).value.command.kind == Push && Truthy(GetCommand(st, matcher).value.command.diagramID)
    ensures var m := GetCommand(st, matcher).value;
            var callerTop := st.frames[|st.frames| - 1];
            var r := HandleSpec(st, matcher).1;
            && |r.frames| == |st.frames| + 1
            && (forall k :: 0 <= k < |st.frames| - 1 ==> r.frames[k] == st.frames[k])
            && r.frames[|st.frames| - 1] == callerTop.(storage := callerTop.storage[CALLED_COMMAND := Flag(true)])
            && r.frames[|st.frames|] == NewFrame(m.command.diagramID.value)
            && r.trace == st.trace + [PathTrace("push"), DebugTrace(PUSH_DEBUG, COMMAND_NODE_TYPE)]
            && r.generation == st.generation + 1
  {
    var m := GetCommand(st, matcher).value;
    var s0 := st.(effects := st.effects + [matcher(m.command.event, st.request).value]);
    assert HandleSpec(st, matcher).1 == Pushed(s0, m.command.diagramID.value);
  }

  /** The frame list after the JUMP branch. */
  lemma JumpedFrames(st: RuntimeState, cmd: Command, index: nat)
    requires index < |st.frames|
    ensures var base := st.frames[..index + 1];
            var r := Jumped(st, cmd, index);
            && |r.frames| == index + 1 + (if JumpPushes(cmd, base) then 1 else 0)
            && (forall k :: 0 <= k < index ==> r.frames[k] == st.frames[k])
            && r.frames[|r.frames| - 1].nodeID == OrNull(cmd.nextID)
            && (JumpPushes(cmd, base) ==>
                  r.frames[index] == st.frames[index]
                  && r.frames[index + 1] == NewFrame(cmd.diagramID.value).(nodeID := OrNull(cmd.nextID)))
            && (!JumpPushes(cmd, base) ==> r.frames[index] == st.frames[index].(nodeID := OrNull(cmd.nextID)))
            && r.generation > st.generation
  {
  }

  /** The JUMP branch: `popTo(index + 1)`, maybe `push`, then `top().setNodeID(nextID || null)`. */
  function Jumped(st: RuntimeState, cmd: Command, index: nat): RuntimeState
    requires index < |st.frames|
  {
    var base := st.frames[..index + 1];
    var pushed := if JumpPushes(cmd, base) then base + [NewFrame(cmd.diagramID.value)] else base;
    var top := |pushed| - 1;
    var frames := pushed[top := pushed[top].(nodeID := OrNull(cmd.nextID))];
    var gen := st.generation + 1 + (if JumpPushes(cmd, base) then 1 else 0);
    st.(frames := frames, generation := gen, trace := st.trace + [PathTrace("jump"), DebugTrace(JUMP_DEBUG, COMMAND_NODE_TYPE)])
  }

  /** The PUSH branch for target program `diagramID`. */
  function Pushed(st: RuntimeState, diagramID: ProgramId): RuntimeState
    requires |st.frames| > 0
  {
    var top := |st.frames| - 1;
    var flagged := st.frames[top := st.frames[top].(storage := st.frames[top].storage[CALLED_COMMAND := Flag(true)])];
    st.(frames := flagged + [NewFrame(diagramID)], generation := st.generation + 1,
        trace := st.trace + [PathTrace("push"), DebugTrace(PUSH_DEBUG, COMMAND_NODE_TYPE)])
  }

  method HandleJump(rt: Runtime, cmd: Command, index: nat)
    requires index < |rt.stack.frames|
    modifies rt, rt.stack
    ensures rt.State() == Jumped(old(rt.State()), cmd, index) && rt.events == old(rt.events)
  {
    rt.AddTrace(PathTrace("jump"));
    rt.stack.PopTo(index + 1);
    if Truthy(cmd.diagramID) && cmd.diagramID.value != rt.stack.frames[|rt.stack.frames| - 1].programID {
      rt.stack.Push(NewFrame(cmd.diagramID.value));
    }
    rt.stack.SetTopNodeID(OrNull(cmd.nextID));
    rt.AddTrace(DebugTrace(JUMP_DEBUG, COMMAND_NODE_TYPE));
  }

  method HandlePush(rt: Runtime, diagramID: ProgramId)
    requires |rt.stack.frames| > 0
    modifies rt, rt.stack
    ensures rt.State() == Pushed(old(rt.State()), diagramID) && rt.events == old(rt.events)
  {
    rt.AddTrace(PathTrace("push"));
    rt.stack.SetTopStorage(CALLED_COMMAND, Flag(true));
    rt.AddTrace(DebugTrace(PUSH_DEBUG, COMMAND_NODE_TYPE));
    rt.stack.Push(NewFrame(diagramID));
  }

  /** `CommandHandler.handle(runtime, variables)` on the live runtime. */
  method Handle(rt: Runtime, matcher: EventMatcher) returns (next: Option<NodeId>)
    requires CanHandle(rt.State(), matcher)
    modifies rt, rt.stack
    ensures (next, rt.State()) == HandleSpec(old(rt.State()), matcher)
    ensures rt.events == old(rt.events)
  {
    var m := GetCommand(rt.State(), matcher).value;
    var cmd := m.command;
    var effect := matcher(cmd.event, rt.request);
    if effect.Some? {
      rt.RunSideEffect(effect.value);
    }
    if cmd.kind == Jump {
      HandleJump(rt, cmd, m.index);
    }
    if cmd.kind == Push && Truthy(cmd.diagramID) {
      HandlePush(rt, cmd.diagramID.value);
    }
    next := None;
  }
}
