/** The cycle handler: the bounded loop that resolves the current node, dispatches it to the first
    capable handler, and stops on a null next id, a self-loop, a change of the stack's frame list,
    or the overflow ceiling. `CycleHandler` is the loop; `Step`/`Cycle`/`RunCycle` are its
    specification, one iteration of the do/while body at a time. */
module CycleHandler {
  import opened Wrappers
  import opened Types
  import opened Program
  import opened Runtime

  const HANDLER_OVERFLOW: nat := 400

  /** What the loop fixes at entry: the program, the handler list, the position of the reference
      frame (the top at entry) and the identity of the frame list at entry. */
  datatype Ctx = Ctx(program: ProgramModel, handlers: seq<Handler>, refIdx: nat, gen0: nat)

  /** The loop variables `i`, `nextID`, `node`, the runtime, and the lifecycle events emitted so far. */
  datatype Loop = Loop(i: nat, nextID: Option<NodeId>, node: Option<Node>, rt: RuntimeState, events: seq<LifecycleEvent>)

  /** `getHandlers().find((h) => h.canHandle(node, ...))`, scanning from position `from`; an
      exception in a `canHandle` ends the scan. */
  function Select(hs: seq<Handler>, node: Node, st: RuntimeState, p: ProgramModel, from: nat): (r: Try<Option<nat>>)
    requires from <= |hs|
    ensures r.Ok? && r.value.Some? ==>
              from <= r.value.value < |hs| && hs[r.value.value].canHandle(node, st, p) == Ok(true)
    ensures r.Ok? ==>
              forall j :: from <= j < (if r.value.Some? then r.value.value else |hs|) ==>
                hs[j].canHandle(node, st, p) == Ok(false)
    ensures r.Raised? ==>
              exists j :: from <= j < |hs| && hs[j].canHandle(node, st, p) == Raised(r.error) &&
                forall j' :: from <= j' < j ==> hs[j'].canHandle(node, st, p) == Ok(false)
    decreases |hs| - from
  {
    if from == |hs| then Ok(None)
    else
      match hs[from].canHandle(node, st, p)
      case Raised(e) => Raised(e)
      case Ok(accepts) => if accepts then Ok(Some(from)) else Select(hs, node, st, p, from + 1)
  }

  /** The result of the `try` block: next id, runtime afterwards, events emitted. */
  datatype Dispatched = Dispatched(next: Option<NodeId>, rt: RuntimeState, events: seq<LifecycleEvent>)

  /** The `try` block: find a handler; if there is one, emit `handlerWillHandle`, run it and emit
      `handlerDidHandle`; an exception anywhere emits `handlerDidCatch` instead and leaves the next
      id as it was. */
  function Dispatch(c: Ctx, n: Node, st: RuntimeState, next: Option<NodeId>): (d: Dispatched)
    ensures d.events == [] ==> d.next == next && d.rt == st
    ensures d.events == [] || d.events == [WillHandle(n), DidHandle(n)]
            || (|d.events| == 1 && d.events[0].DidCatch?)
            || (|d.events| == 2 && d.events[0] == WillHandle(n) && d.events[1].DidCatch?)
    ensures d.events != [] && d.events[|d.events| - 1].DidCatch? ==> d.next == next
    ensures (d.events == [] || d.events[0] != WillHandle(n)) ==> d.rt == st
    ensures d.events == [WillHandle(n), DidHandle(n)] <==>
              exists k :: 0 <= k < |c.handlers| && Select(c.handlers, n, st, c.program, 0) == Ok(Some(k)) &&
                c.handlers[k].handle(n, st, c.program) == Returned(d.next, d.rt)
  {
    match Select(c.handlers, n, st, c.program, 0)
    case Raised(e) => Dispatched(next, st, [DidCatch(e)])
    case Ok(found) =>
      if found.None? then Dispatched(next, st, [])
      else
        match c.handlers[found.value].handle(n, st, c.program)
        case Returned(nx, after) => Dispatched(nx, after, [WillHandle(n), DidHandle(n)])
        case Threw(e, after) => Dispatched(next, after, [WillHandle(n), DidCatch(e)])
  }

  /** `referenceFrame.setNodeID(id)`: the reference frame is the one at `k`. */
  function SetNodeAt(st: RuntimeState, k: nat, id: Option<NodeId>): RuntimeState {
    if k < |st.frames| then st.(frames := st.frames[k := st.frames[k].(nodeID := id)]) else st
  }

  /** The `else if (nextID)` branch at the top of an iteration. */
  function Resolve(c: Ctx, l: Loop): Loop {
    if Truthy(l.nextID) then
      l.(rt := SetNodeAt(l.rt, c.refIdx, l.nextID), node := c.program.GetNode(l.nextID), nextID := None)
    else l
  }

  /** One run of the do/while body. */
  function Step(c: Ctx, l: Loop): (l': Loop)
    // the ceiling: past 400 the loop breaks without resolving or handling anything
    ensures l.i > HANDLER_OVERFLOW ==> l' == l.(node := None)
    ensures l.i <= HANDLER_OVERFLOW ==> l'.i == l.i + 1
    // no resolved node: nothing is handled and the loop stops
    ensures l.i <= HANDLER_OVERFLOW && Resolve(c, l).node.None? ==>
              l'.node.None? && l'.events == l.events && l'.rt == Resolve(c, l).rt
    // the only frame change the loop itself makes: the reference frame, set to the truthy id the
    // previous handler call returned
    ensures l.i <= HANDLER_OVERFLOW ==>
              Resolve(c, l).rt == (if Truthy(l.nextID) then SetNodeAt(l.rt, c.refIdx, l.nextID) else l.rt)
    ensures l.i <= HANDLER_OVERFLOW && Resolve(c, l).node.Some? ==>
              var n := Resolve(c, l).node.value;
              var d := Dispatch(c, n, Resolve(c, l).rt, Resolve(c, l).nextID);
              && l'.nextID == d.next
              && l'.events == l.events + d.events
              // the request is consumed; REQUEST -> RUNNING is the only phase change made here
              && l'.rt.action != Request
              && l'.rt.action == (if d.rt.action == Request then Running else d.rt.action)
              // a node that returns its own id ends the runtime
              && (d.next == Some(n.id) ==> l'.rt.ended)
              && (l'.rt.ended <==> d.rt.ended || d.next == Some(n.id))
              && l'.rt == d.rt.(action := l'.rt.action, ended := l'.rt.ended)
              // exit conditions
              && (l'.node.Some? <==> Truthy(d.next) && !l'.rt.ended && l'.rt.generation == c.gen0)
              && (l'.node.Some? ==> l'.node == Resolve(c, l).node)
  {
    if l.i > HANDLER_OVERFLOW then l.(node := None)
    else
      var l1 := Resolve(c, l);
      if l1.node.None? then l1.(i := l.i + 1)
      else
        var n := l1.node.value;
        var d := Dispatch(c, n, l1.rt, l1.nextID);
        var s1 := if d.rt.action == Request then d.rt.(action := Running) else d.rt;
        var s2 := if Some(n.id) == d.next then s1.(ended := true) else s1;
        var stop := !Truthy(d.next) || s2.ended || s2.generation != c.gen0;
        Loop(l.i + 1, d.next, if stop then None else l1.node, s2, l1.events + d.events)
  }

  /** The do/while loop: run the body, continue while a node is left. */
  function Cycle(c: Ctx, l: Loop): (r: Loop)
    requires l.i <= HANDLER_OVERFLOW + 1
    ensures r.node.None?
    decreases HANDLER_OVERFLOW + 1 - l.i
  {
    var l' := Step(c, l);
    if l'.node.None? then l' else Cycle(c, l')
  }

  function StartCtx(p: ProgramModel, hs: seq<Handler>, st: RuntimeState): Ctx
    requires |st.frames| > 0
  {
    Ctx(p, hs, |st.frames| - 1, st.generation)
  }

  /** Entry: the reference frame is the top; `nextID` is null; the node is the reference frame's. */
  function StartLoop(p: ProgramModel, st: RuntimeState): Loop
    requires |st.frames| > 0
  {
    Loop(0, None, p.GetNode(st.frames[|st.frames| - 1].nodeID), st, [])
  }

  /** The effect of one call of `cycleHandler` on a runtime whose stack is not empty. When the
      reference frame names no node of the program, nothing is handled and nothing changes. */
  function RunCycle(p: ProgramModel, hs: seq<Handler>, st: RuntimeState): (r: Loop)
    requires |st.frames| > 0
    ensures r.node.None?
    ensures StartLoop(p, st).node.None? ==> r.rt == st && r.events == [] && r.i == 1
  {
    Cycle(StartCtx(p, hs, st), StartLoop(p, st))
  }

  /** The `try` block run on the live runtime. */
  method DispatchNode(rt: Runtime, program: ProgramModel, ghost c: Ctx, n: Node, nextID0: Option<NodeId>)
    returns (nextID: Option<NodeId>)
    requires c.handlers == rt.handlers && c.program == program
    modifies rt, rt.stack
    ensures var d := Dispatch(c, n, old(rt.State()), nextID0);
            nextID == d.next && rt.State() == d.rt && rt.events == old(rt.events) + d.events
  {
    nextID := nextID0;
    var st := rt.State();
    var selected := Select(rt.handlers, n, st, program, 0);
    match selected {
      case Raised(e) =>
        rt.Emit(DidCatch(e));
      case Ok(found) =>
        if found.Some? {
          rt.Emit(WillHandle(n));
          var outcome := rt.handlers[found.value].handle(n, st, program);
          match outcome {
            case Returned(next, after) =>
              rt.Load(after);
              nextID := next;
              rt.Emit(DidHandle(n));
            case Threw(e, after) =>
              rt.Load(after);
              rt.Emit(DidCatch(e));
          }
        }
    }
  }

  /** One run of the do/while body on the live runtime, with `node` already resolved. */
  method Finish(rt: Runtime, program: ProgramModel, ghost c: Ctx, gen0: nat, n: Node, nextID0: Option<NodeId>)
    returns (nextID: Option<NodeId>, node: Option<Node>)
    requires c.handlers == rt.handlers && c.program == program && c.gen0 == gen0
    modifies rt, rt.stack
    ensures var d := Dispatch(c, n, old(rt.State()), nextID0);
            var s1 := if d.rt.action == Request then d.rt.(action := Running) else d.rt;
            var s2 := if Some(n.id) == d.next then s1.(ended := true) else s1;
            var stop := !Truthy(d.next) || s2.ended || s2.generation != c.gen0;
            nextID == d.next && rt.State() == s2 && rt.events == old(rt.events) + d.events
            && node == (if stop then None else Some(n))
  {
    nextID := DispatchNode(rt, program, c, n, nextID0);
    if rt.action == Request {
      rt.SetAction(Running);
    }
    if nextID == Some(n.id) {
      rt.End();
    }
    node := Some(n);
    if !Truthy(nextID) || rt.ended || rt.stack.generation != gen0 {
      node := None;
    }
  }

  /** One run of the do/while body below the ceiling, on the live runtime. */
  method Iteration(rt: Runtime, program: ProgramModel, ghost c: Ctx, refIdx: nat, gen0: nat,
                   i: nat, nextID0: Option<NodeId>, node0: Option<Node>,
                   ghost ev0: seq<LifecycleEvent>, ghost log: seq<LifecycleEvent>)
    returns (nextID: Option<NodeId>, node: Option<Node>)
    requires c == Ctx(program, rt.handlers, refIdx, gen0)
    requires i <= HANDLER_OVERFLOW && rt.events == ev0 + log
    modifies rt, rt.stack
    ensures var l' := Step(c, Loop(i, nextID0, node0, old(rt.State()), log));
            l' == Loop(i + 1, nextID, node, rt.State(), l'.events) && rt.events == ev0 + l'.events
  {
    ghost var before := Loop(i, nextID0, node0, rt.State(), log);
    nextID, node := nextID0, node0;
    if Truthy(nextID) {
      rt.stack.SetNodeIDAt(refIdx, nextID);
      node := program.GetNode(nextID);
      nextID := None;
    }
    ghost var l1 := Resolve(c, before);
    assert l1 == Loop(i, nextID, node, rt.State(), log);
    if node.Some? {
      nextID, node := Finish(rt, program, c, gen0, node.value, nextID);
    }
  }

  /** `cycleHandler(runtime, program, variables)` */
  method CycleHandler(rt: Runtime, program: ProgramModel)
    requires |rt.stack.frames| > 0
    modifies rt, rt.stack
    ensures rt.State() == RunCycle(program, rt.handlers, old(rt.State())).rt
    ensures rt.events == old(rt.events) + RunCycle(program, rt.handlers, old(rt.State())).events
  {
    var refIdx := |rt.stack.frames| - 1;
    var gen0 := rt.stack.generation;
    ghost var c := StartCtx(program, rt.handlers, rt.State());
    ghost var init := StartLoop(program, rt.State());
    ghost var ev0 := rt.events;
    ghost var log: seq<LifecycleEvent> := [];

    var nextID: Option<NodeId> := None;
    var i: nat := 0;
    var node := program.GetNode(rt.stack.frames[refIdx].nodeID);
    var running := true;
    while running
      invariant i <= HANDLER_OVERFLOW + 1
      invariant rt.events == ev0 + log
      invariant running ==> Cycle(c, Loop(i, nextID, node, rt.State(), log)) == Cycle(c, init)
      invariant !running ==> Loop(i, nextID, node, rt.State(), log) == Cycle(c, init)
      decreases HANDLER_OVERFLOW + 1 - i, running
    {
      ghost var before := Loop(i, nextID, node, rt.State(), log);
      if i > HANDLER_OVERFLOW {
        node := None;
        running := false;
      } else {
        nextID, node := Iteration(rt, program, c, refIdx, gen0, i, nextID, node, ev0, log);
        log := Step(c, before).events;
        i := i + 1;
        running := node.Some?;
      }
      assert Loop(i, nextID, node, rt.State(), log) == Step(c, before);
    }
  }

  /** Number of handler calls (`handlerWillHandle` events) in an event log. */
  function HandledCount(ev: seq<LifecycleEvent>): nat
    decreases |ev|
  {
    if ev == [] then 0 else HandledCount(ev[..|ev| - 1]) + (if ev[|ev| - 1].WillHandle? then 1 else 0)
  }

  lemma {:induction false} HandledCountAppend(a: seq<LifecycleEvent>, b: seq<LifecycleEvent>)
    ensures HandledCount(a + b) == HandledCount(a) + HandledCount(b)
    decreases |b|
  {
    if b == [] {
      assert a + b == a;
    } else {
      var ab := a + b;
      assert ab[..|ab| - 1] == a + b[..|b| - 1];
      assert ab[|ab| - 1] == b[|b| - 1];
      HandledCountAppend(a, b[..|b| - 1]);
    }
  }

  /** A log of at most two events whose second is not a `handlerWillHandle` records at most one call. */
  lemma HandledCountSmall(ev: seq<LifecycleEvent>)
    requires |ev| <= 2 && (|ev| == 2 ==> !ev[1].WillHandle?)
    ensures HandledCount(ev) <= 1
  {
    if |ev| == 2 {
      assert ev[..1][..0] == [];
      assert HandledCount(ev[..1]) <= 1;
    } else if |ev| == 1 {
      assert ev[..0] == [];
    }
  }

  /** One iteration calls at most one handler, and none past the ceiling. */
  lemma StepCalls(c: Ctx, l: Loop)
    ensures HandledCount(Step(c, l).events) <= HandledCount(l.events) + (if l.i <= HANDLER_OVERFLOW then 1 else 0)
  {
    var l1 := Resolve(c, l);
    if l.i <= HANDLER_OVERFLOW && l1.node.Some? {
      var d := Dispatch(c, l1.node.value, l1.rt, l1.nextID);
      assert Step(c, l).events == l.events + d.events;
      HandledCountAppend(l.events, d.events);
      HandledCountSmall(d.events);
    }
  }

  lemma {:induction false} CycleCalls(c: Ctx, l: Loop)
    requires l.i <= HANDLER_OVERFLOW + 1
    ensures HandledCount(Cycle(c, l).events) <= HandledCount(l.events) + (HANDLER_OVERFLOW + 1 - l.i)
    decreases HANDLER_OVERFLOW + 1 - l.i
  {
    StepCalls(c, l);
    var l' := Step(c, l);
    if l'.node.Some? {
      CycleCalls(c, l');
    }
  }

  /** The overflow guard: one call of the cycle handler runs at most 401 handlers, since the loop
      breaks only once the counter exceeds 400. */
  lemma CallBound(p: ProgramModel, hs: seq<Handler>, st: RuntimeState)
    requires |st.frames| > 0
    ensures HandledCount(RunCycle(p, hs, st).events) <= HANDLER_OVERFLOW + 1
  {
    CycleCalls(StartCtx(p, hs, st), StartLoop(p, st));
  }

  /** A program of two nodes that hand over to each other forever. */
  function BareNode(id: NodeId): Node {
    Node(id, None, [], None, None, None, None, None, None)
  }

  const PING_PONG: ProgramModel :=
    ProgramModel("ping-pong", None, map["a" := BareNode("a"), "b" := BareNode("b")], [], [], "a")

  function Other(id: NodeId): NodeId {
    if id == "a" then "b" else "a"
  }

  /** A handler that accepts every node and continues at the other node, changing nothing. */
  const BOUNCE: Handler :=
    Handler((n: Node, s: RuntimeState, p: ProgramModel) => Ok(true),
            (n: Node, s: RuntimeState, p: ProgramModel) => Returned(Some(Other(n.id)), s))

  lemma {:induction false} PingPongCalls(c: Ctx, l: Loop)
    requires c.program == PING_PONG && c.handlers == [BOUNCE] && c.gen0 == l.rt.generation
    requires l.i <= HANDLER_OVERFLOW + 1 && !l.rt.ended
    requires l.node.Some? && (l.node.value.id == "a" || l.node.value.id == "b")
    requires l.nextID == None || l.nextID == Some(Other(l.node.value.id))
    ensures HandledCount(Cycle(c, l).events) == HandledCount(l.events) + (HANDLER_OVERFLOW + 1 - l.i)
    decreases HANDLER_OVERFLOW + 1 - l.i
  {
    var l' := Step(c, l);
    if l.i <= HANDLER_OVERFLOW {
      var l1 := Resolve(c, l);
      var n := l1.node.value;
      assert n.id == "a" || n.id == "b";
      assert Select(c.handlers, n, l1.rt, c.program, 0) == Ok(Some(0));
      var d := Dispatch(c, n, l1.rt, l1.nextID);
      assert d == Dispatched(Some(Other(n.id)), l1.rt, [WillHandle(n), DidHandle(n)]);
      HandledCountAppend(l.events, d.events);
      assert HandledCount(d.events) == 1 by {
        var w: seq<LifecycleEvent> := [WillHandle(n)];
        assert w[..0] == [];
        assert HandledCount(w) == 1;
        assert d.events[..1] == w;
        assert d.events[1] == DidHandle(n);
      }
      assert l'.events == l.events + d.events;
      assert l1.rt.generation == l.rt.generation;
      assert l'.node == Some(n);
      PingPongCalls(c, l');
      assert Cycle(c, l) == Cycle(c, l');
    } else {
      assert Cycle(c, l) == l';
    }
  }

  /** The bound is reached: on the two-node program the cycle runs exactly 401 handlers. */
  lemma OverflowReached(st: RuntimeState)
    requires st.frames == [Frame("ping-pong", Some("a"), map[], [])] && !st.ended
    ensures HandledCount(RunCycle(PING_PONG, [BOUNCE], st).events) == HANDLER_OVERFLOW + 1
  {
    var l := StartLoop(PING_PONG, st);
    assert l.node == Some(BareNode("a"));
    PingPongCalls(StartCtx(PING_PONG, [BOUNCE], st), l);
  }

  /** Once the request has been consumed it stays consumed: the loop never sets REQUEST. */
  lemma {:induction false} ActionStaysConsumed(c: Ctx, l: Loop)
    requires l.i <= HANDLER_OVERFLOW + 1 && l.rt.action != Request
    ensures Cycle(c, l).rt.action != Request
    decreases HANDLER_OVERFLOW + 1 - l.i
  {
    var l' := Step(c, l);
    assert l'.rt.action != Request;
    if l'.node.Some? {
      ActionStaysConsumed(c, l');
    }
  }

  /** When the reference frame names a node, the cycle leaves the runtime out of the REQUEST phase. */
  lemma RequestConsumed(p: ProgramModel, hs: seq<Handler>, st: RuntimeState)
    requires |st.frames| > 0 && StartLoop(p, st).node.Some?
    ensures RunCycle(p, hs, st).rt.action != Request
  {
    var c := StartCtx(p, hs, st);
    var l' := Step(c, StartLoop(p, st));
    if l'.node.Some? {
      ActionStaysConsumed(c, l');
    }
  }

  /** Every `handlerWillHandle` is followed at once by the `handlerDidHandle` of the same node or by
      a `handlerDidCatch`; any other `handlerDidCatch` stands alone. */
  predicate Paired(ev: seq<LifecycleEvent>)
    decreases |ev|
  {
    if ev == [] then true
    else if ev[0].WillHandle? then
      |ev| >= 2 && (ev[1] == DidHandle(ev[0].node) || ev[1].DidCatch?) && Paired(ev[2..])
    else ev[0].DidCatch? && Paired(ev[1..])
  }

  lemma {:induction false} PairedAppend(a: seq<LifecycleEvent>, b: seq<LifecycleEvent>)
    requires Paired(a) && Paired(b)
    ensures Paired(a + b)
    decreases |a|
  {
    if a == [] {
      assert a + b == b;
    } else {
      var ab := a + b;
      assert ab[0] == a[0];
      if a[0].WillHandle? {
        assert ab[1] == a[1];
        assert ab[2..] == a[2..] + b;
        PairedAppend(a[2..], b);
      } else {
        assert ab[1..] == a[1..] + b;
        PairedAppend(a[1..], b);
      }
    }
  }

  lemma {:induction false} CyclePaired(c: Ctx, l: Loop)
    requires l.i <= HANDLER_OVERFLOW + 1 && Paired(l.events)
    ensures Paired(Cycle(c, l).events)
    decreases HANDLER_OVERFLOW + 1 - l.i
  {
    var l1 := Resolve(c, l);
    var l' := Step(c, l);
    if l.i <= HANDLER_OVERFLOW && l1.node.Some? {
      var d := Dispatch(c, l1.node.value, l1.rt, l1.nextID);
      if |d.events| == 2 {
        assert d.events[2..] == [];
      } else if |d.events| == 1 {
        assert d.events[1..] == [];
      }
      PairedAppend(l.events, d.events);
    }
    if l'.node.Some? {
      CyclePaired(c, l');
    }
  }

  /** The lifecycle events of one call of the cycle handler are well paired. */
  lemma EventsPaired(p: ProgramModel, hs: seq<Handler>, st: RuntimeState)
    requires |st.frames| > 0
    ensures Paired(RunCycle(p, hs, st).events)
  {
    CyclePaired(StartCtx(p, hs, st), StartLoop(p, st));
  }
}
