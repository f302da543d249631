/** The pull-based evaluation protocol of `dspnode` and the `process` /
    `update` steps of the node library. Every operation threads the arena:
    it takes the graph state and returns the state after the call.

    Termination rests on two facts. A non-reentrant read sets the node's
    flag, so the set of idle nodes shrinks around every nested call. A
    reentrant read only re-runs `process`, which reads the inputs of a
    non-delay node, all of lower rank (see `Graph.Ranked`); a delay's
    `process` reads nothing, and its `update` is reached only from a
    non-reentrant read. */
module Protocol {
  import opened Wrappers
  import opened DelayLine
  import opened Graph
  import opened Combinators

  /** Every node's last tick is either what it was or the tick being read. */
  predicate TicksOnly(a: Arena, b: Arena, tick: int)
    requires |b| == |a|
  {
    forall i :: 0 <= i < |a| ==> b[i].lastTick == a[i].lastTick || b[i].lastTick == tick
  }

  /** A delay whose cached output is what its `process` would emit now. */
  predicate EmitCached(nd: Node) {
    && nd.kind.Delay? && nd.kind.line.Valid()
    && |nd.outputs| >= 1 && nd.outputs[0] == nd.kind.line.Emit()
  }

  /** The outputs of a delay across a stretch in which its line did not
      move: as they were, or output 0 overwritten by what the line emits,
      which is all that re-running its `process` can do. */
  predicate ReEmits(x: Node, y: Node) {
    x.kind.Delay? && x.kind.line.Valid() && |x.outputs| >= 1 ==>
      y.outputs == x.outputs || y.outputs == x.outputs[0 := x.kind.line.Emit()]
  }

  /** A node keeps its last tick and its private state; a delay at most
      re-emits, so one that has already emitted keeps its output. */
  predicate Frozen(a: Arena, b: Arena, i: NodeId)
    requires i < |a| && |b| == |a|
  {
    && b[i].lastTick == a[i].lastTick && b[i].kind == a[i].kind
    && (EmitCached(a[i]) ==> b[i].outputs == a[i].outputs)
    && ReEmits(a[i], b[i])
  }

  /** How a call at `tick` may change the arena: the graph and the flags
      stay, ticks only move to `tick`, and a node that is inside a read
      keeps its last tick and its state. */
  predicate Evolves(a: Arena, b: Arena, tick: int) {
    && Stable(a, b)
    && TicksOnly(a, b, tick)
    && forall i :: 0 <= i < |a| && a[i].inRead ==> Frozen(a, b, i)
  }

  lemma EvolvesTrans(a: Arena, b: Arena, c: Arena, tick: int)
    requires Evolves(a, b, tick) && Evolves(b, c, tick)
    ensures Evolves(a, c, tick)
  {
    assert forall i :: 0 <= i < |a| && a[i].inRead ==> b[i].inRead;
  }

  /** `outputs.at(0) = v`. */
  function SetOut(a: Arena, n: NodeId, v: real): (b: Arena)
    requires n < |a| && |a[n].outputs| >= 1
    ensures Stable(a, b) && b[n].outputs[0] == v
    ensures b[n].kind == a[n].kind && b[n].lastTick == a[n].lastTick
    ensures forall i :: 0 <= i < |a| && i != n ==> b[i] == a[i]
  {
    a[n := a[n].(outputs := a[n].outputs[0 := v])]
  }

  /** Writing a node's output is a step of a read at any tick, provided
      a delay that has already emitted gets the same value again. */
  lemma SetOutEvolves(a: Arena, n: NodeId, v: real, tick: int)
    requires n < |a| && |a[n].outputs| >= 1
    requires EmitCached(a[n]) ==> v == a[n].outputs[0]
    requires a[n].kind.Delay? && a[n].kind.line.Valid() ==> v == a[n].kind.line.Emit()
    ensures Evolves(a, SetOut(a, n, v), tick)
  {
    var b := SetOut(a, n, v);
    if EmitCached(a[n]) {
      assert b[n].outputs == a[n].outputs;
    }
    assert Frozen(a, b, n);
  }

  /** `dspnode::read(tick, port)`. */
  function Read(a: Arena, env: Env, rank: seq<nat>, n: NodeId, tick: int, port: nat): (r: (real, Arena))
    requires Valid(a, rank) && n < |a| && port < |a[n].outputs|
    ensures Evolves(a, r.1, tick)
    ensures r.0 == r.1[n].outputs[port]
    ensures !a[n].inRead ==> r.1[n].lastTick == tick
    ensures !a[n].inRead && a[n].kind.Delay? ==>
              r.1[n].kind.line == a[n].kind.line.Push(r.1[n].kind.line.buf[a[n].kind.line.Slot()])
    ensures !a[n].inRead && a[n].lastTick == tick && !a[n].kind.Delay? ==> r == (a[n].outputs[port], a)
    ensures !a[n].inRead && a[n].lastTick == tick && a[n].kind.Delay? ==>
              r.0 == a[n].outputs[port] || r.0 == a[n].kind.line.Emit()
    ensures !a[n].inRead && a[n].lastTick != tick && a[n].kind.Delay? ==> r.0 == a[n].kind.line.Emit()
    ensures a[n].inRead && a[n].kind.Delay? ==> r.0 == a[n].kind.line.Emit()
    decreases |Idle(a)|, rank[n], 5, 0
  {
    if a[n].inRead then
      var a1 := Process(a, env, rank, n, tick);
      (a1[n].outputs[port], a1)
    else
      var a4 := ReadIdle(a, env, rank, n, tick);
      (a4[n].outputs[port], a4)
  }

  /** The non-reentrant branch of `read`: raise the flag, process unless
      `tick` was already computed, update, lower the flag. */
  function ReadIdle(a: Arena, env: Env, rank: seq<nat>, n: NodeId, tick: int): (b: Arena)
    requires Valid(a, rank) && n < |a| && !a[n].inRead
    ensures Evolves(a, b, tick)
    ensures b[n].lastTick == tick
    ensures a[n].kind.Delay? ==> b[n].kind.line == a[n].kind.line.Push(b[n].kind.line.buf[a[n].kind.line.Slot()])
    ensures a[n].lastTick == tick && !a[n].kind.Delay? ==> b == a
    ensures a[n].lastTick == tick ==> ReEmits(a[n], b[n])
    ensures a[n].lastTick != tick && a[n].kind.Delay? ==> b[n].outputs[0] == a[n].kind.line.Emit()
    decreases |Idle(a)|, rank[n], 4, 0
  {
    var a1 := a[n := a[n].(inRead := true)];
    StableValid(a, a1, rank);
    assert Idle(a1) == Idle(a) - {n};
    var a2 := Refresh(a1, env, rank, n, tick);
    StableValid(a1, a2, rank);
    StableIdle(a1, a2);
    var a3 := Update(a2, env, rank, n, tick);
    assert ShapeOk(a2[n]);
    FlagRoundTrip(a, a2, a3, n, tick);
    a3[n := a3[n].(inRead := false)]
  }

  /** How raising the flag, refreshing, updating and lowering the flag
      compose into the contract of the non-reentrant branch. */
  lemma FlagRoundTrip(a: Arena, a2: Arena, a3: Arena, n: NodeId, tick: int)
    requires n < |a| && !a[n].inRead
    requires var a1 := a[n := a[n].(inRead := true)];
             && Stable(a1, a2) && TicksOnly(a1, a2, tick)
             && (forall i :: 0 <= i < |a| && i != n && a1[i].inRead ==> Frozen(a1, a2, i))
             && a2[n].lastTick == tick && a2[n].kind == a[n].kind
             && (a[n].lastTick == tick ==> a2 == a1)
             && (a[n].lastTick != tick && a[n].kind.Delay? ==> EmitCached(a2[n]))
    requires && Stable(a2, a3) && TicksOnly(a2, a3, tick)
             && (forall i :: 0 <= i < |a| && i != n && a2[i].inRead ==> Frozen(a2, a3, i))
             && a3[n].lastTick == a2[n].lastTick
             && (EmitCached(a2[n]) ==> a3[n].outputs == a2[n].outputs)
             && ReEmits(a2[n], a3[n])
             && (a2[n].kind.Delay? ==> a2[n].kind.line.Valid())
             && (a2[n].kind.Delay? ==> a3[n].kind.line == a2[n].kind.line.Push(a3[n].kind.line.buf[a2[n].kind.line.Slot()]))
             && (!a2[n].kind.Delay? ==> a3 == a2)
    ensures var b := a3[n := a3[n].(inRead := false)];
            && Evolves(a, b, tick)
            && b[n].lastTick == tick
            && (a[n].kind.Delay? ==> b[n].kind.line == a[n].kind.line.Push(b[n].kind.line.buf[a[n].kind.line.Slot()]))
            && (a[n].lastTick == tick && !a[n].kind.Delay? ==> b == a)
            && (a[n].lastTick == tick ==> ReEmits(a[n], b[n]))
            && (a[n].lastTick != tick && a[n].kind.Delay? ==> b[n].outputs[0] == a[n].kind.line.Emit())
  {
    var a1 := a[n := a[n].(inRead := true)];
    var b := a3[n := a3[n].(inRead := false)];
    assert Stable(a, b) by {
      forall i | 0 <= i < |a|
        ensures SameKind(a[i].kind, b[i].kind) && b[i].inputs == a[i].inputs
        ensures |b[i].outputs| == |a[i].outputs| && b[i].inRead == a[i].inRead
      {
        assert SameKind(a1[i].kind, a2[i].kind) && SameKind(a2[i].kind, a3[i].kind);
      }
    }
    forall i | 0 <= i < |a| && a[i].inRead
      ensures Frozen(a, b, i)
    {
      assert Frozen(a1, a2, i) && Frozen(a2, a3, i);
    }
    if a[n].lastTick == tick && !a[n].kind.Delay? {
      assert a3[n] == a[n].(inRead := true);
      assert b == a;
    }
  }

  /** Inside a non-reentrant read: run `process` and record `tick` unless
      `tick` is the last tick computed. */
  function Refresh(a: Arena, env: Env, rank: seq<nat>, n: NodeId, tick: int): (b: Arena)
    requires Valid(a, rank) && n < |a| && a[n].inRead
    ensures Stable(a, b) && TicksOnly(a, b, tick)
    ensures forall i :: 0 <= i < |a| && i != n && a[i].inRead ==> Frozen(a, b, i)
    ensures b[n].lastTick == tick && b[n].kind == a[n].kind
    ensures a[n].lastTick == tick ==> b == a
    ensures a[n].lastTick != tick && a[n].kind.Delay? ==> EmitCached(b[n])
    decreases |Idle(a)|, rank[n], 3, 1
  {
    if tick != a[n].lastTick then
      var p := Process(a, env, rank, n, tick);
      p[n := p[n].(lastTick := tick)]
    else a
  }

  /** `getInput(slot, tick)`: an unbound slot reads as 0. */
  function GetInput(a: Arena, env: Env, rank: seq<nat>, n: NodeId, slot: nat, tick: int): (r: (real, Arena))
    requires Valid(a, rank) && n < |a| && slot < |a[n].inputs|
    ensures Evolves(a, r.1, tick)
    ensures a[n].inputs[slot].None? ==> r == (0.0, a)
    decreases |Idle(a)| + (if a[n].kind.Delay? then 1 else 0), if a[n].kind.Delay? then 0 else rank[n], 1, 0
  {
    match a[n].inputs[slot]
    case None => (0.0, a)
    case Some(b) => Read(a, env, rank, b.node, tick, b.port)
  }

  /** The values of inputs `from`, `from`+1, ... read in slot order, as the
      loops of `sum::process` and `mul::process` read them. */
  function ReadInputs(a: Arena, env: Env, rank: seq<nat>, n: NodeId, tick: int, from: nat): (r: (seq<real>, Arena))
    requires Valid(a, rank) && n < |a| && !a[n].kind.Delay? && from <= |a[n].inputs|
    ensures Evolves(a, r.1, tick)
    ensures |r.0| == |a[n].inputs| - from
    ensures forall j :: from <= j < |a[n].inputs| && a[n].inputs[j].None? ==> r.0[j - from] == 0.0
    ensures (forall j :: from <= j < |a[n].inputs| ==> a[n].inputs[j].None?) ==> r.1 == a
    decreases |Idle(a)|, rank[n], 2, |a[n].inputs| - from
  {
    if from == |a[n].inputs| then ([], a)
    else
      var (x, a1) := GetInput(a, env, rank, n, from, tick);
      StableValid(a, a1, rank);
      StableIdle(a, a1);
      var (xs, a2) := ReadInputs(a1, env, rank, n, tick, from + 1);
      EvolvesTrans(a, a1, a2, tick);
      ([x] + xs, a2)
  }

  /** The `process` step of each node kind: compute the output for `tick`
      from the inputs (a delay reads none) and cache it. */
  function Process(a: Arena, env: Env, rank: seq<nat>, n: NodeId, tick: int): (b: Arena)
    requires Valid(a, rank) && n < |a|
    ensures Evolves(a, b, tick)
    decreases |Idle(a)|, rank[n], 3, 0
  {
    match a[n].kind
    case ConstSrc(c) => SetOutEvolves(a, n, c, tick); SetOut(a, n, c)
    case RefSrc(v) => SetOutEvolves(a, n, env.vars(v), tick); SetOut(a, n, env.vars(v))
    case CallbackSrc(f) => SetOutEvolves(a, n, env.samples(f), tick); SetOut(a, n, env.samples(f))
    case Sum =>
      var (xs, a1) := ReadInputs(a, env, rank, n, tick, 0);
      SetOutEvolves(a1, n, SumOf(xs), tick);
      EvolvesTrans(a, a1, SetOut(a1, n, SumOf(xs)), tick);
      SetOut(a1, n, SumOf(xs))
    case Mul =>
      var (xs, a1) := ReadInputs(a, env, rank, n, tick, 0);
      SetOutEvolves(a1, n, ProductOf(xs), tick);
      EvolvesTrans(a, a1, SetOut(a1, n, ProductOf(xs)), tick);
      SetOut(a1, n, ProductOf(xs))
    case CallbackFunc(f) =>
      var (x, a1) := GetInput(a, env, rank, n, 0, tick);
      SetOutEvolves(a1, n, env.funcs(f)(x), tick);
      EvolvesTrans(a, a1, SetOut(a1, n, env.funcs(f)(x)), tick);
      SetOut(a1, n, env.funcs(f)(x))
    case Delay(line) => SetOutEvolves(a, n, line.Emit(), tick); SetOut(a, n, line.Emit())
    case Mux =>
      var (sel, a1) := GetInput(a, env, rank, n, 0, tick);
      StableValid(a, a1, rank);
      StableIdle(a, a1);
      var k := MuxIndex(|a[n].inputs|, sel);
      var (x, a2) := GetInput(a1, env, rank, n, k, tick);
      EvolvesTrans(a, a1, a2, tick);
      SetOutEvolves(a2, n, x, tick);
      EvolvesTrans(a, a2, SetOut(a2, n, x), tick);
      SetOut(a2, n, x)
  }

  /** The `update` step: a delay consumes its input into the slot under
      its index and advances the index; every other kind does nothing. */
  function Update(a: Arena, env: Env, rank: seq<nat>, n: NodeId, tick: int): (b: Arena)
    requires Valid(a, rank) && n < |a|
    ensures Stable(a, b) && TicksOnly(a, b, tick)
    ensures forall i :: 0 <= i < |a| && i != n && a[i].inRead ==> Frozen(a, b, i)
    ensures a[n].inRead ==> b[n].lastTick == a[n].lastTick
    ensures a[n].inRead && EmitCached(a[n]) ==> b[n].outputs == a[n].outputs
    ensures a[n].inRead ==> ReEmits(a[n], b[n])
    ensures a[n].inRead && a[n].kind.Delay? ==>
              b[n].kind.line == a[n].kind.line.Push(b[n].kind.line.buf[a[n].kind.line.Slot()])
    ensures a[n].inRead && a[n].kind.Delay? && a[n].inputs == [None] ==>
              b == a[n := a[n].(kind := Delay(a[n].kind.line.Push(0.0)))]
    ensures !a[n].kind.Delay? ==> b == a
    decreases |Idle(a)| + 1, 0, 2, 0
  {
    if a[n].kind.Delay? then
      var (x, a1) := GetInput(a, env, rank, n, 0, tick);
      StableValid(a, a1, rank);
      a1[n := a1[n].(kind := Delay(a1[n].kind.line.Push(x)))]
    else a
  }
}
