/** Reads of the combinator nodes (`sum`, `mul`, `callbackFunc`, `mux`)
    whose inputs are fed directly by source nodes: the value each one
    returns, and the exact arena afterwards. */
module SourceReads {
  import opened Wrappers
  import opened DelayLine
  import opened Graph
  import opened Combinators
  import opened Protocol
  import opened ProtocolFacts

  /** What input binding `b` reads when it is fed by a source; an unbound
      slot reads 0. */
  function InputValue(a: Arena, env: Env, b: Option<Binding>): (v: real) {
    if b.Some? && b.value.node < |a| && IsSource(a[b.value.node].kind) then SourceValue(a[b.value.node].kind, env)
    else 0.0
  }

  function InputValues(a: Arena, env: Env, bs: seq<Option<Binding>>): (xs: seq<real>)
    ensures |xs| == |bs|
  {
    if |bs| == 0 then [] else [InputValue(a, env, bs[0])] + InputValues(a, env, bs[1..])
  }

  /** The arena after reading the source behind `b` at `tick`. */
  function TouchOne(a: Arena, env: Env, tick: int, b: Option<Binding>): (r: Arena)
    ensures |r| == |a|
  {
    if b.Some? && b.value.node < |a| && IsSource(a[b.value.node].kind) then Touch(a, env, b.value.node, tick)
    else a
  }

  /** The arena after reading the sources behind `bs`, in slot order. */
  function TouchAll(a: Arena, env: Env, tick: int, bs: seq<Option<Binding>>): (r: Arena)
    ensures |r| == |a|
    decreases |bs|
  {
    if |bs| == 0 then a else TouchAll(TouchOne(a, env, tick, bs[0]), env, tick, bs[1..])
  }

  /** Every bound input of `n` from slot `from` on is a source ready to be
      read at `tick`. */
  predicate FedBySources(a: Arena, env: Env, n: NodeId, tick: int, from: nat)
    requires n < |a|
  {
    forall j :: from <= j < |a[n].inputs| && a[n].inputs[j].Some? ==>
      a[n].inputs[j].value.node < |a| && SourceReady(a[a[n].inputs[j].value.node], env, tick)
  }

  /** The input values only depend on the kinds of the nodes. */
  lemma {:induction false} InputValuesByKind(a: Arena, a': Arena, env: Env, bs: seq<Option<Binding>>)
    requires |a'| == |a| && forall i :: 0 <= i < |a| ==> a'[i].kind == a[i].kind
    ensures InputValues(a', env, bs) == InputValues(a, env, bs)
    decreases |bs|
  {
    if |bs| > 0 {
      InputValuesByKind(a, a', env, bs[1..]);
    }
  }

  /** Reading sources leaves every non-source node as it was. */
  lemma {:induction false} TouchAllElsewhere(a: Arena, env: Env, tick: int, bs: seq<Option<Binding>>, n: NodeId, nd: Node)
    requires n < |a| && !IsSource(a[n].kind) && !IsSource(nd.kind)
    ensures TouchAll(a[n := nd], env, tick, bs) == TouchAll(a, env, tick, bs)[n := nd]
    ensures TouchAll(a, env, tick, bs)[n] == a[n]
    decreases |bs|
  {
    if |bs| > 0 {
      var a1 := TouchOne(a, env, tick, bs[0]);
      assert TouchOne(a[n := nd], env, tick, bs[0]) == a1[n := nd];
      TouchAllElsewhere(a1, env, tick, bs[1..], n, nd);
    }
  }

  /** `getInput` of a slot fed by a ready source. */
  lemma GetInputFromSource(a: Arena, env: Env, rank: seq<nat>, n: NodeId, slot: nat, tick: int)
    requires Valid(a, rank) && n < |a| && slot < |a[n].inputs|
    requires a[n].inputs[slot].Some? ==> SourceReady(a[a[n].inputs[slot].value.node], env, tick)
    ensures GetInput(a, env, rank, n, slot, tick) == (InputValue(a, env, a[n].inputs[slot]), TouchOne(a, env, tick, a[n].inputs[slot]))
  {
    match a[n].inputs[slot]
    case None =>
    case Some(b) =>
      assert BindingOk(a, b);
      assert ShapeOk(a[b.node]);
      ReadSource(a, env, rank, b.node, tick);
  }

  /** Reading a source keeps every source ready and every other node as
      it was. */
  lemma TouchOneKeepsFed(a: Arena, env: Env, n: NodeId, tick: int, from: nat, b: Option<Binding>)
    requires n < |a| && !IsSource(a[n].kind) && FedBySources(a, env, n, tick, from)
    ensures TouchOne(a, env, tick, b)[n] == a[n]
    ensures FedBySources(TouchOne(a, env, tick, b), env, n, tick, from)
  {
    var a1 := TouchOne(a, env, tick, b);
    forall j | from <= j < |a[n].inputs| && a[n].inputs[j].Some?
      ensures SourceReady(a1[a[n].inputs[j].value.node], env, tick)
    {
      var m := a[n].inputs[j].value.node;
      assert SourceReady(a[m], env, tick);
    }
  }

  /** The loop of `sum::process` / `mul::process` over source inputs:
      the values read are the sources' values, and the arena is the one
      after reading each source in slot order. */
  lemma {:induction false} ReadInputsFromSources(a: Arena, env: Env, rank: seq<nat>, n: NodeId, tick: int, from: nat)
    requires Valid(a, rank) && n < |a| && (a[n].kind.Sum? || a[n].kind.Mul?) && from <= |a[n].inputs|
    requires FedBySources(a, env, n, tick, from)
    ensures ReadInputs(a, env, rank, n, tick, from) ==
              (InputValues(a, env, a[n].inputs[from..]), TouchAll(a, env, tick, a[n].inputs[from..]))
    decreases |a[n].inputs| - from
  {
    var bs := a[n].inputs[from..];
    if from < |a[n].inputs| {
      var b := a[n].inputs[from];
      GetInputFromSource(a, env, rank, n, from, tick);
      var a1 := TouchOne(a, env, tick, b);
      StableValid(a, a1, rank);
      TouchOneKeepsFed(a, env, n, tick, from + 1, b);
      ReadInputsFromSources(a1, env, rank, n, tick, from + 1);
      assert bs[1..] == a[n].inputs[from + 1..];
      InputValuesByKind(a, a1, env, bs[1..]);
    }
  }

  /** The source inputs of `n`, unflagged read of `n` at a new tick: the
      arena after reading them, with `n` holding `v` computed for `tick`. */
  function AfterRead(a: Arena, sources: Arena, n: NodeId, v: real, tick: int): (r: Arena)
    requires n < |a| && |sources| == |a|
  {
    sources[n := a[n].(outputs := [v], lastTick := tick)]
  }

  /** A non-reentrant read at a new tick of a node without an `update`
      step returns what its `process` computes, and leaves the arena as
      `process` left it, with the tick recorded and the flag lowered. */
  lemma ReadThroughProcess(a: Arena, env: Env, rank: seq<nat>, n: NodeId, tick: int, t: Arena, v: real)
    requires Valid(a, rank) && n < |a| && !a[n].inRead && !a[n].kind.Delay? && a[n].lastTick != tick
    requires |t| == |a| && |a[n].outputs| == 1
    requires Valid(a[n := a[n].(inRead := true)], rank)
    requires Process(a[n := a[n].(inRead := true)], env, rank, n, tick) == t[n := a[n].(inRead := true, outputs := [v])]
    ensures Read(a, env, rank, n, tick, 0) == (v, AfterRead(a, t, n, v, tick))
  {
    var a1 := a[n := a[n].(inRead := true)];
    var a2 := t[n := a1[n].(outputs := [v], lastTick := tick)];
    assert Refresh(a1, env, rank, n, tick) == a2;
    StableValid(a1, a2, rank);
    assert Update(a2, env, rank, n, tick) == a2;
    assert ReadIdle(a, env, rank, n, tick) == AfterRead(a, t, n, v, tick);
  }

  /** The input loop of a flagged `sum` or `mul` over source inputs. */
  lemma FlaggedInputs(a: Arena, env: Env, rank: seq<nat>, n: NodeId, tick: int)
    requires Valid(a, rank) && n < |a| && (a[n].kind.Sum? || a[n].kind.Mul?)
    requires !a[n].inRead && FedBySources(a, env, n, tick, 0)
    ensures var a1 := a[n := a[n].(inRead := true)];
            && Valid(a1, rank)
            && ReadInputs(a1, env, rank, n, tick, 0)
               == (InputValues(a, env, a[n].inputs), TouchAll(a, env, tick, a[n].inputs)[n := a1[n]])
  {
    var bs := a[n].inputs;
    var a1 := a[n := a[n].(inRead := true)];
    StableValid(a, a1, rank);
    assert bs[0..] == bs;
    ReadInputsFromSources(a1, env, rank, n, tick, 0);
    InputValuesByKind(a, a1, env, bs);
    TouchAllElsewhere(a, env, tick, bs, n, a1[n]);
  }

  /** A `sum` or `mul` over source inputs, read at a new tick, returns the
      sum (product) of the sources' current values, in slot order. */
  lemma CombineSources(a: Arena, env: Env, rank: seq<nat>, n: NodeId, tick: int)
    requires Valid(a, rank) && n < |a| && (a[n].kind.Sum? || a[n].kind.Mul?)
    requires !a[n].inRead && a[n].lastTick != tick && FedBySources(a, env, n, tick, 0)
    ensures var xs := InputValues(a, env, a[n].inputs);
            var v := if a[n].kind.Sum? then SumOf(xs) else ProductOf(xs);
            Read(a, env, rank, n, tick, 0) == (v, AfterRead(a, TouchAll(a, env, tick, a[n].inputs), n, v, tick))
  {
    assert ShapeOk(a[n]);
    var xs := InputValues(a, env, a[n].inputs);
    var v := if a[n].kind.Sum? then SumOf(xs) else ProductOf(xs);
    var a1 := a[n := a[n].(inRead := true)];
    var t := TouchAll(a, env, tick, a[n].inputs);
    FlaggedInputs(a, env, rank, n, tick);
    assert a1[n].outputs[0 := v] == [v];
    assert Process(a1, env, rank, n, tick) == t[n := a1[n].(outputs := [v])];
    ReadThroughProcess(a, env, rank, n, tick, t, v);
  }

  /** A `callbackFunc` fed by a source, read at a new tick, applies its
      callback to the source's current value. */
  lemma CallbackOfSource(a: Arena, env: Env, rank: seq<nat>, n: NodeId, tick: int)
    requires Valid(a, rank) && n < |a| && a[n].kind.CallbackFunc?
    requires !a[n].inRead && a[n].lastTick != tick && FedBySources(a, env, n, tick, 0)
    ensures var b := a[n].inputs[0];
            var v := env.funcs(a[n].kind.func)(InputValue(a, env, b));
            Read(a, env, rank, n, tick, 0) == (v, AfterRead(a, TouchOne(a, env, tick, b), n, v, tick))
  {
    assert ShapeOk(a[n]);
    var b := a[n].inputs[0];
    var a1 := a[n := a[n].(inRead := true)];
    StableValid(a, a1, rank);
    GetInputFromSource(a1, env, rank, n, 0, tick);
    var v := env.funcs(a[n].kind.func)(InputValue(a, env, b));
    assert InputValue(a1, env, b) == InputValue(a, env, b);
    var t := TouchOne(a, env, tick, b);
    assert TouchOne(a1, env, tick, b) == t[n := a1[n]];
    assert a1[n].outputs[0 := v] == [v];
    assert Process(a1, env, rank, n, tick) == t[n := a1[n].(outputs := [v])];
    ReadThroughProcess(a, env, rank, n, tick, t, v);
  }

  /** A delay whose input is a source (or unbound), read at a new tick:
      it returns the value buffered under its index, and its line
      consumes the source's value, which the source computed for `tick`. */
  lemma DelayOfSource(a: Arena, env: Env, rank: seq<nat>, n: NodeId, tick: int)
    requires Valid(a, rank) && n < |a| && a[n].kind.Delay?
    requires !a[n].inRead && a[n].lastTick != tick && FedBySources(a, env, n, tick, 0)
    ensures var b := a[n].inputs[0];
            var line := a[n].kind.line;
            Read(a, env, rank, n, tick, 0)
              == (line.Emit(), TouchOne(a, env, tick, b)[n := a[n].(kind := Delay(line.Push(InputValue(a, env, b))),
                                                                outputs := [line.Emit()], lastTick := tick)])
  {
    assert ShapeOk(a[n]);
    var b := a[n].inputs[0];
    var line := a[n].kind.line;
    var e := line.Emit();
    var x := InputValue(a, env, b);
    var a1 := a[n := a[n].(inRead := true)];
    StableValid(a, a1, rank);
    assert a1[n].outputs[0 := e] == [e];
    assert Process(a1, env, rank, n, tick) == a1[n := a1[n].(outputs := [e])];
    var a' := a[n := a[n].(outputs := [e], lastTick := tick)];
    var a2 := a'[n := a'[n].(inRead := true)];
    assert Refresh(a1, env, rank, n, tick) == a2;
    StableValid(a, a', rank);
    FlaggedInput(a', env, rank, n, 0, tick);
    assert InputValue(a', env, b) == x;
    var t := TouchOne(a, env, tick, b);
    assert TouchOne(a', env, tick, b) == t[n := a'[n]];
    UpdateConsumesInput(a2, env, rank, n, tick);
    var a3 := t[n := a2[n].(kind := Delay(line.Push(x)))];
    assert Update(a2, env, rank, n, tick) == a3;
    var r := t[n := a[n].(kind := Delay(line.Push(x)), outputs := [e], lastTick := tick)];
    assert a3[n := a3[n].(inRead := false)] == r;
    assert ReadIdle(a, env, rank, n, tick) == r;
  }

  /** `getInput` of a flagged consumer, on a slot fed by a ready source. */
  lemma FlaggedInput(a: Arena, env: Env, rank: seq<nat>, n: NodeId, slot: nat, tick: int)
    requires Valid(a, rank) && n < |a| && !IsSource(a[n].kind) && slot < |a[n].inputs|
    requires a[n].inputs[slot].Some? ==> SourceReady(a[a[n].inputs[slot].value.node], env, tick)
    ensures var a1 := a[n := a[n].(inRead := true)];
            var b := a[n].inputs[slot];
            && Valid(a1, rank)
            && GetInput(a1, env, rank, n, slot, tick) == (InputValue(a, env, b), TouchOne(a, env, tick, b)[n := a1[n]])
  {
    var a1 := a[n := a[n].(inRead := true)];
    var b := a[n].inputs[slot];
    StableValid(a, a1, rank);
    GetInputFromSource(a1, env, rank, n, slot, tick);
    assert InputValue(a1, env, b) == InputValue(a, env, b);
    assert TouchOne(a1, env, tick, b) == TouchOne(a, env, tick, b)[n := a1[n]];
  }

  /** The `process` of a flagged `mux` over source inputs: it reads its
      selector, then only the input it selects, and outputs that value. */
  lemma MuxProcess(a: Arena, env: Env, rank: seq<nat>, n: NodeId, tick: int)
    requires Valid(a, rank) && n < |a| && a[n].kind.Mux? && |a[n].inputs| >= 1 && |a[n].outputs| == 1
    requires FedBySources(a, env, n, tick, 0)
    ensures var bs := a[n].inputs;
            var a1 := a[n := a[n].(inRead := true)];
            var k := MuxIndex(|bs|, InputValue(a, env, bs[0]));
            var v := InputValue(a, env, bs[k]);
            && Valid(a1, rank)
            && Process(a1, env, rank, n, tick)
               == TouchOne(TouchOne(a, env, tick, bs[0]), env, tick, bs[k])[n := a1[n].(outputs := [v])]
  {
    var bs := a[n].inputs;
    var a1 := a[n := a[n].(inRead := true)];
    var sel := InputValue(a, env, bs[0]);
    var t1 := TouchOne(a, env, tick, bs[0]);
    FlaggedInput(a, env, rank, n, 0, tick);
    TouchOneKeepsFed(a, env, n, tick, 0, bs[0]);
    assert Stable(a, t1);
    StableValid(a, t1, rank);
    var k := MuxIndex(|bs|, sel);
    var v := InputValue(a, env, bs[k]);
    FlaggedInput(t1, env, rank, n, k, tick);
    assert InputValue(t1, env, bs[k]) == v;
    assert t1[n := a1[n]] == t1[n := t1[n].(inRead := true)];
    assert a1[n].outputs[0 := v] == [v];
  }

  /** A `mux` over source inputs, read at a new tick, reads its selector,
      then only the input it selects, and returns that input's value. */
  lemma MuxOverSources(a: Arena, env: Env, rank: seq<nat>, n: NodeId, tick: int)
    requires Valid(a, rank) && n < |a| && a[n].kind.Mux?
    requires !a[n].inRead && a[n].lastTick != tick && FedBySources(a, env, n, tick, 0)
    ensures var bs := a[n].inputs;
            var k := MuxIndex(|bs|, InputValue(a, env, bs[0]));
            var v := InputValue(a, env, bs[k]);
            Read(a, env, rank, n, tick, 0) == (v, AfterRead(a, TouchOne(TouchOne(a, env, tick, bs[0]), env, tick, bs[k]), n, v, tick))
  {
    assert ShapeOk(a[n]);
    var bs := a[n].inputs;
    var k := MuxIndex(|bs|, InputValue(a, env, bs[0]));
    var v := InputValue(a, env, bs[k]);
    MuxProcess(a, env, rank, n, tick);
    ReadThroughProcess(a, env, rank, n, tick, TouchOne(TouchOne(a, env, tick, bs[0]), env, tick, bs[k]), v);
  }
}
