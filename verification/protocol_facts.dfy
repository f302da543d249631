/** What the evaluation protocol guarantees to callers: memoization per
    tick, the behaviour of fresh nodes and sources, the cycle-breaking
    reentrant read of a delay, neutral values for unbound inputs, and that
    a read changes nothing outside the part of the graph it depends on. */
module ProtocolFacts {
  import opened Wrappers
  import opened DelayLine
  import opened Graph
  import opened Combinators
  import opened Protocol

  /** Memoization: right after a non-reentrant read of a node without an
      `update` step, reading it again at the same tick returns the same
      value and changes nothing, whatever the external variables and
      callbacks have become in between. */
  lemma ReadIdempotent(a: Arena, env: Env, env': Env, rank: seq<nat>, n: NodeId, tick: int, port: nat)
    requires Valid(a, rank) && n < |a| && port < |a[n].outputs|
    requires !a[n].inRead && !a[n].kind.Delay?
    ensures var (v, b) := Read(a, env, rank, n, tick, port);
            Valid(b, rank) && Read(b, env', rank, n, tick, port) == (v, b)
  {
    var (v, b) := Read(a, env, rank, n, tick, port);
    StableValid(a, b, rank);
  }

  /** A caller's driver loop: read output `port` of node `n` once per
      tick of `ticks`, in order, and collect the values. */
  function Drive(a: Arena, env: Env, rank: seq<nat>, n: NodeId, port: nat, ticks: seq<int>): (vs: seq<real>)
    requires Valid(a, rank) && n < |a| && port < |a[n].outputs|
    ensures |vs| == |ticks|
    decreases |ticks|
  {
    if |ticks| == 0 then []
    else
      var (v, b) := Read(a, env, rank, n, ticks[0], port);
      StableValid(a, b, rank);
      [v] + Drive(b, env, rank, n, port, ticks[1..])
  }

  /** A driver loop in which the outside world may change between reads:
      read output `port` of node `n` at `ticks[i]` under `envs[i]`. */
  function Follow(a: Arena, envs: seq<Env>, rank: seq<nat>, n: NodeId, port: nat, ticks: seq<int>): (vs: seq<real>)
    requires Valid(a, rank) && n < |a| && port < |a[n].outputs| && |envs| == |ticks|
    ensures |vs| == |ticks|
    decreases |ticks|
  {
    if |ticks| == 0 then []
    else
      var (v, b) := Read(a, envs[0], rank, n, ticks[0], port);
      StableValid(a, b, rank);
      [v] + Follow(b, envs[1..], rank, n, port, ticks[1..])
  }

  /** One turn of the loop with a changing outside world. */
  lemma FollowStep(a: Arena, envs: seq<Env>, rank: seq<nat>, n: NodeId, port: nat, ticks: seq<int>, v: real, b: Arena)
    requires Valid(a, rank) && n < |a| && port < |a[n].outputs| && |envs| == |ticks| > 0
    requires Read(a, envs[0], rank, n, ticks[0], port) == (v, b)
    ensures Valid(b, rank) && port < |b[n].outputs|
    ensures Follow(a, envs, rank, n, port, ticks) == [v] + Follow(b, envs[1..], rank, n, port, ticks[1..])
  {
    StableValid(a, b, rank);
  }

  /** `Drive` is the loop under an unchanging outside world. */
  lemma {:induction false} DriveIsFollow(a: Arena, env: Env, rank: seq<nat>, n: NodeId, port: nat, ticks: seq<int>)
    requires Valid(a, rank) && n < |a| && port < |a[n].outputs|
    ensures Drive(a, env, rank, n, port, ticks) == Follow(a, seq(|ticks|, _ => env), rank, n, port, ticks)
    decreases |ticks|
  {
    if |ticks| > 0 {
      var (v, b) := Read(a, env, rank, n, ticks[0], port);
      StableValid(a, b, rank);
      DriveIsFollow(b, env, rank, n, port, ticks[1..]);
      assert seq(|ticks|, _ => env)[1..] == seq(|ticks[1..]|, _ => env);
    }
  }

  /** One turn of the driver loop. */
  lemma DriveStep(a: Arena, env: Env, rank: seq<nat>, n: NodeId, port: nat, t: int, ts: seq<int>, v: real, b: Arena)
    requires Valid(a, rank) && n < |a| && port < |a[n].outputs|
    requires Read(a, env, rank, n, t, port) == (v, b)
    ensures Valid(b, rank) && port < |b[n].outputs|
    ensures Drive(a, env, rank, n, port, [t] + ts) == [v] + Drive(b, env, rank, n, port, ts)
  {
    StableValid(a, b, rank);
    assert ([t] + ts)[1..] == ts;
  }

  /** A node that has computed no tick yet and whose outputs are all 0,
      as the constructor leaves them, read at the initial tick -1 with
      any bindings: `process` is skipped and the read returns 0. Any node
      other than a delay is left exactly as it was. A delay whose line is
      still fresh keeps its output and tick, and its line consumes what
      its input reads. */
  lemma FreshReadAtNoTick(a: Arena, env: Env, rank: seq<nat>, n: NodeId, port: nat)
    requires Valid(a, rank) && n < |a| && port < |a[n].outputs|
    requires !a[n].inRead && a[n].lastTick == NoTick
    requires forall j :: 0 <= j < |a[n].outputs| ==> a[n].outputs[j] == 0.0
    requires a[n].kind.Delay? ==>
               a[n].kind.line.idx == 0 && forall j :: 0 <= j < |a[n].kind.line.buf| ==> a[n].kind.line.buf[j] == 0.0
    ensures Read(a, env, rank, n, NoTick, port).0 == 0.0
    ensures !a[n].kind.Delay? ==> Read(a, env, rank, n, NoTick, port).1 == a
    ensures a[n].kind.Delay? && |a[n].inputs| == 1 ==>
              var a1 := a[n := a[n].(inRead := true)];
              var b := Read(a, env, rank, n, NoTick, port).1;
              && Valid(a1, rank)
              && b[n].outputs == a[n].outputs && b[n].lastTick == NoTick
              && b[n].kind.line == a[n].kind.line.Push(GetInput(a1, env, rank, n, 0, NoTick).0)
  {
    var a1 := a[n := a[n].(inRead := true)];
    StableValid(a, a1, rank);
    if a[n].kind.Delay? {
      assert ShapeOk(a[n]);
      assert Refresh(a1, env, rank, n, NoTick) == a1;
      assert EmitCached(a1[n]);
      UpdateConsumesInput(a1, env, rank, n, NoTick);
    }
  }

  predicate IsSource(k: Kind) {
    k.ConstSrc? || k.RefSrc? || k.CallbackSrc?
  }

  /** What a source node emits: its constant, the referenced variable's
      current value, or what its callback returns. */
  function SourceValue(k: Kind, env: Env): (r: real)
    requires IsSource(k)
  {
    match k
    case ConstSrc(c) => c
    case RefSrc(v) => env.vars(v)
    case CallbackSrc(f) => env.samples(f)
  }

  /** A source that a read at `tick` may leave unprocessed only when its
      cached output already is what it would compute. */
  predicate SourceReady(nd: Node, env: Env, tick: int) {
    && IsSource(nd.kind) && !nd.inRead
    && (nd.lastTick == tick ==> nd.outputs == [SourceValue(nd.kind, env)])
  }

  /** The arena after source `m` has been read at `tick`. */
  function Touch(a: Arena, env: Env, m: NodeId, tick: int): (b: Arena)
    requires m < |a| && IsSource(a[m].kind)
    ensures |b| == |a| && b[m].kind == a[m].kind && SourceReady(b[m].(inRead := false), env, tick)
    ensures forall i :: 0 <= i < |a| && i != m ==> b[i] == a[i]
  {
    a[m := a[m].(outputs := [SourceValue(a[m].kind, env)], lastTick := tick)]
  }

  /** A source read at a new tick reflects the outside world at read time
      and records the tick; at a tick it has already computed it returns
      its cached value. Nothing else in the arena changes. */
  lemma ReadSource(a: Arena, env: Env, rank: seq<nat>, n: NodeId, tick: int)
    requires Valid(a, rank) && n < |a| && SourceReady(a[n], env, tick)
    ensures Read(a, env, rank, n, tick, 0) == (SourceValue(a[n].kind, env), Touch(a, env, n, tick))
  {
    assert ShapeOk(a[n]);
    var v := SourceValue(a[n].kind, env);
    if a[n].lastTick == tick {
      assert a[n].(outputs := [v], lastTick := tick) == a[n];
      assert Touch(a, env, n, tick) == a;
    } else {
      var a1 := a[n := a[n].(inRead := true)];
      StableValid(a, a1, rank);
      assert a1[n].outputs[0 := v] == [v];
      var a2 := a1[n := a1[n].(outputs := [v], lastTick := tick)];
      assert Process(a1, env, rank, n, tick) == a1[n := a1[n].(outputs := [v])];
      assert Refresh(a1, env, rank, n, tick) == a2;
      StableValid(a1, a2, rank);
      assert Update(a2, env, rank, n, tick) == a2;
      assert ReadIdle(a, env, rank, n, tick) == a[n := a[n].(outputs := [v], lastTick := tick)];
    }
  }

  /** Cycle breaking: a delay read while it is already inside a read
      re-runs only `process`; it returns the value buffered under its
      index and changes nothing but its own cached output. */
  lemma ReentrantDelayRead(a: Arena, env: Env, rank: seq<nat>, n: NodeId, tick: int)
    requires Valid(a, rank) && n < |a| && a[n].inRead && a[n].kind.Delay?
    ensures var v := a[n].kind.line.Emit();
            Read(a, env, rank, n, tick, 0) == (v, a[n := a[n].(outputs := [v])])
  {
    assert ShapeOk(a[n]);
    var v := a[n].kind.line.Emit();
    assert a[n].outputs[0 := v] == [v];
    assert Process(a, env, rank, n, tick) == a[n := a[n].(outputs := [v])];
  }

  /** The value a delay's `update` writes is the one its input 0 reads:
      the line consumes exactly that value, and everything else is as the
      input's read left it. The fact beyond `Update`'s definition is that
      the nested read of input 0, even one that re-enters the delay through
      a cycle, leaves the delay's own line untouched, so the value is pushed
      into the line as it was before that read. */
  lemma UpdateConsumesInput(a: Arena, env: Env, rank: seq<nat>, n: NodeId, tick: int)
    requires Valid(a, rank) && n < |a| && a[n].inRead && a[n].kind.Delay? && |a[n].inputs| == 1
    ensures var (x, a1) := GetInput(a, env, rank, n, 0, tick);
            && a1[n].kind == a[n].kind
            && Update(a, env, rank, n, tick) == a1[n := a1[n].(kind := Delay(a[n].kind.line.Push(x)))]
  {
    var (x, a1) := GetInput(a, env, rank, n, 0, tick);
    assert Frozen(a, a1, n);
  }

  /** A sum or product whose inputs are all unbound reads as 0, except
      that a product of no inputs at all is 1; the read touches no other
      node. */
  lemma UnboundCombinator(a: Arena, env: Env, rank: seq<nat>, n: NodeId, tick: int)
    requires Valid(a, rank) && n < |a| && (a[n].kind.Sum? || a[n].kind.Mul?)
    requires !a[n].inRead && a[n].lastTick != tick
    requires forall j :: 0 <= j < |a[n].inputs| ==> a[n].inputs[j].None?
    ensures var v := if a[n].kind.Mul? && |a[n].inputs| == 0 then 1.0 else 0.0;
            Read(a, env, rank, n, tick, 0) == (v, a[n := a[n].(outputs := [v], lastTick := tick)])
  {
    assert ShapeOk(a[n]);
    var a1 := a[n := a[n].(inRead := true)];
    StableValid(a, a1, rank);
    var (xs, a2) := ReadInputs(a1, env, rank, n, tick, 0);
    assert a2 == a1;
    forall k | 0 <= k < |xs|
      ensures xs[k] == 0.0
    {
      assert a1[n].inputs[k].None?;
      assert xs[k - 0] == 0.0;
    }
    NeutralInputs(xs);
    var v := if a[n].kind.Mul? && |a[n].inputs| == 0 then 1.0 else 0.0;
    assert a1[n].outputs[0 := v] == [v];
    var a3 := a1[n := a1[n].(outputs := [v], lastTick := tick)];
    assert Process(a1, env, rank, n, tick) == a1[n := a1[n].(outputs := [v])];
    assert Refresh(a1, env, rank, n, tick) == a3;
    StableValid(a1, a3, rank);
    assert Update(a3, env, rank, n, tick) == a3;
    assert ReadIdle(a, env, rank, n, tick) == a[n := a[n].(outputs := [v], lastTick := tick)];
  }

  /** A set of nodes that contains the producers of all its members. */
  predicate Closed(a: Arena, s: set<NodeId>) {
    forall i, j :: i in s && 0 <= i < |a| && 0 <= j < |a[i].inputs| && a[i].inputs[j].Some? ==>
      a[i].inputs[j].value.node in s
  }

  /** Every node outside `s` is exactly as it was. */
  predicate Untouched(a: Arena, b: Arena, s: set<NodeId>)
    requires |b| == |a|
  {
    forall i :: 0 <= i < |a| && i !in s ==> b[i] == a[i]
  }

  lemma UntouchedTrans(a: Arena, b: Arena, c: Arena, s: set<NodeId>)
    requires |b| == |a| && |c| == |a| && Untouched(a, b, s) && Untouched(b, c, s)
    ensures Untouched(a, c, s)
  {
  }

  lemma ClosedKept(a: Arena, b: Arena, s: set<NodeId>)
    requires SameGraph(a, b) && Closed(a, s)
    ensures Closed(b, s)
  {
    forall i, j | i in s && 0 <= i < |b| && 0 <= j < |b[i].inputs| && b[i].inputs[j].Some?
      ensures b[i].inputs[j].value.node in s
    {
      assert b[i].inputs == a[i].inputs;
    }
  }

  /** A read changes only nodes it can reach through bindings: every node
      outside a binding-closed set containing the node read is untouched. */
  lemma {:induction false} ReadFrame(a: Arena, env: Env, rank: seq<nat>, n: NodeId, tick: int, port: nat, s: set<NodeId>)
    requires Valid(a, rank) && n < |a| && port < |a[n].outputs| && n in s && Closed(a, s)
    ensures Untouched(a, Read(a, env, rank, n, tick, port).1, s)
    decreases |Idle(a)|, rank[n], 5, 0
  {
    if a[n].inRead {
      ProcessFrame(a, env, rank, n, tick, s);
    } else {
      ReadIdleFrame(a, env, rank, n, tick, s);
    }
  }

  lemma {:induction false} ReadIdleFrame(a: Arena, env: Env, rank: seq<nat>, n: NodeId, tick: int, s: set<NodeId>)
    requires Valid(a, rank) && n < |a| && !a[n].inRead && n in s && Closed(a, s)
    ensures Untouched(a, ReadIdle(a, env, rank, n, tick), s)
    decreases |Idle(a)|, rank[n], 4, 0
  {
    var a1 := a[n := a[n].(inRead := true)];
    StableValid(a, a1, rank);
    assert Idle(a1) == Idle(a) - {n};
    ClosedKept(a, a1, s);
    RefreshFrame(a1, env, rank, n, tick, s);
    var a2 := Refresh(a1, env, rank, n, tick);
    StableValid(a1, a2, rank);
    StableIdle(a1, a2);
    ClosedKept(a1, a2, s);
    UpdateFrame(a2, env, rank, n, tick, s);
  }

  lemma {:induction false} RefreshFrame(a: Arena, env: Env, rank: seq<nat>, n: NodeId, tick: int, s: set<NodeId>)
    requires Valid(a, rank) && n < |a| && a[n].inRead && n in s && Closed(a, s)
    ensures Untouched(a, Refresh(a, env, rank, n, tick), s)
    decreases |Idle(a)|, rank[n], 3, 1
  {
    if tick != a[n].lastTick {
      ProcessFrame(a, env, rank, n, tick, s);
    }
  }

  lemma {:induction false} ProcessFrame(a: Arena, env: Env, rank: seq<nat>, n: NodeId, tick: int, s: set<NodeId>)
    requires Valid(a, rank) && n < |a| && n in s && Closed(a, s)
    ensures Untouched(a, Process(a, env, rank, n, tick), s)
    decreases |Idle(a)|, rank[n], 3, 0
  {
    match a[n].kind
    case Sum => ReadInputsFrame(a, env, rank, n, tick, 0, s);
    case Mul => ReadInputsFrame(a, env, rank, n, tick, 0, s);
    case CallbackFunc(_) =>
      assert ShapeOk(a[n]);
      GetInputFrame(a, env, rank, n, 0, tick, s);
    case Mux =>
      assert ShapeOk(a[n]);
      GetInputFrame(a, env, rank, n, 0, tick, s);
      var (sel, a1) := GetInput(a, env, rank, n, 0, tick);
      StableValid(a, a1, rank);
      StableIdle(a, a1);
      ClosedKept(a, a1, s);
      GetInputFrame(a1, env, rank, n, MuxIndex(|a[n].inputs|, sel), tick, s);
    case _ =>
  }

  lemma {:induction false} GetInputFrame(a: Arena, env: Env, rank: seq<nat>, n: NodeId, slot: nat, tick: int, s: set<NodeId>)
    requires Valid(a, rank) && n < |a| && slot < |a[n].inputs| && n in s && Closed(a, s)
    ensures Untouched(a, GetInput(a, env, rank, n, slot, tick).1, s)
    decreases |Idle(a)| + (if a[n].kind.Delay? then 1 else 0), if a[n].kind.Delay? then 0 else rank[n], 1, 0
  {
    match a[n].inputs[slot]
    case None =>
    case Some(b) => ReadFrame(a, env, rank, b.node, tick, b.port, s);
  }

  lemma {:induction false} ReadInputsFrame(a: Arena, env: Env, rank: seq<nat>, n: NodeId, tick: int, from: nat, s: set<NodeId>)
    requires Valid(a, rank) && n < |a| && !a[n].kind.Delay? && from <= |a[n].inputs| && n in s && Closed(a, s)
    ensures Untouched(a, ReadInputs(a, env, rank, n, tick, from).1, s)
    decreases |Idle(a)|, rank[n], 2, |a[n].inputs| - from
  {
    if from < |a[n].inputs| {
      GetInputFrame(a, env, rank, n, from, tick, s);
      var a1 := GetInput(a, env, rank, n, from, tick).1;
      StableValid(a, a1, rank);
      StableIdle(a, a1);
      ClosedKept(a, a1, s);
      ReadInputsFrame(a1, env, rank, n, tick, from + 1, s);
      var a2 := ReadInputs(a1, env, rank, n, tick, from + 1).1;
      assert ReadInputs(a, env, rank, n, tick, from).1 == a2;
      UntouchedTrans(a, a1, a2, s);
    }
  }

  lemma {:induction false} UpdateFrame(a: Arena, env: Env, rank: seq<nat>, n: NodeId, tick: int, s: set<NodeId>)
    requires Valid(a, rank) && n < |a| && n in s && Closed(a, s)
    ensures Untouched(a, Update(a, env, rank, n, tick), s)
    decreases |Idle(a)| + 1, 0, 2, 0
  {
    if a[n].kind.Delay? {
      assert ShapeOk(a[n]);
      GetInputFrame(a, env, rank, n, 0, tick, s);
    }
  }
}
