/** A delay fed by a reference source, read once per tick while the
    referenced variable changes between reads: the delay returns, at each
    read, the variable's value from d reads earlier. */
module DelayReads {
  import opened Wrappers
  import opened DelayLine
  import opened Graph
  import opened Protocol
  import opened ProtocolFacts
  import opened SourceReads

  /** A reference source of variable h (node 0) feeding a delay (node 1).
      The source shows `so`, last computed at `st`; the delay holds `line`
      and shows `dout`, last computed at `dt`. */
  function Tap(h: nat, so: real, st: int, line: Line, dout: real, dt: int): (a: Arena) {
    [Node(RefSrc(h), [], [so], st, false), Node(Delay(line), [Some(Binding(0, 0))], [dout], dt, false)]
  }

  const TapRank: seq<nat> := [0, 0]

  /** The values of variable h seen by the reads, in order. */
  function Values(envs: seq<Env>, h: nat): (xs: seq<real>)
    ensures |xs| == |envs|
    ensures forall i :: 0 <= i < |envs| ==> xs[i] == envs[i].vars(h)
  {
    if |envs| == 0 then [] else [envs[0].vars(h)] + Values(envs[1..], h)
  }

  lemma TapValid(h: nat, so: real, st: int, line: Line, dout: real, dt: int)
    requires line.Valid()
    ensures Valid(Tap(h, so, st, line, dout, dt), TapRank)
  {
    var a := Tap(h, so, st, line, dout, dt);
    assert ShapeOk(a[0]) && ShapeOk(a[1]);
  }

  /** One read of the delay at a new tick: it returns the value under its
      index, the source takes the variable's current value, and the line
      consumes it. */
  lemma TapStep(h: nat, so: real, st: int, line: Line, dout: real, dt: int, env: Env, u: int)
    requires line.Valid() && st != u && dt != u
    ensures Valid(Tap(h, so, st, line, dout, dt), TapRank)
    ensures var x := env.vars(h);
            Read(Tap(h, so, st, line, dout, dt), env, TapRank, 1, u, 0)
              == (line.Emit(), Tap(h, x, u, line.Push(x), line.Emit(), u))
  {
    var a := Tap(h, so, st, line, dout, dt);
    TapValid(h, so, st, line, dout, dt);
    assert SourceReady(a[0], env, u);
    assert FedBySources(a, env, 1, u, 0);
    DelayOfSource(a, env, TapRank, 1, u);
    var x := env.vars(h);
    var t := Touch(a, env, 0, u);
    assert TouchOne(a, env, u, a[1].inputs[0]) == t;
    assert t[1 := a[1].(kind := Delay(line.Push(x)), outputs := [line.Emit()], lastTick := u)]
        == Tap(h, x, u, line.Push(x), line.Emit(), u);
  }

  /** The i-th read of the loop after a first read that consumed x is
      the (i+1)-th read from the line before x. */
  lemma ShiftValues(line: Line, x: real, envs: seq<Env>, h: nat, i: nat)
    requires line.Valid() && |envs| > 0 && envs[0].vars(h) == x && 0 < i <= |envs|
    ensures PushAll(line.Push(x), Values(envs[1..], h)[..i - 1]) == PushAll(line, Values(envs, h)[..i])
  {
    var ys := Values(envs[1..], h)[..i - 1];
    PushAllFront(line, x, ys);
    assert Values(envs, h) == [x] + Values(envs[1..], h);
    assert ([x] + Values(envs[1..], h))[..i] == [x] + ys;
  }

  /** Reads at ticks that each differ from the one before: the i-th read
      returns what the line emits after consuming the first i values of
      the variable. */
  lemma {:induction false} TapFollows(h: nat, so: real, st: int, line: Line, dout: real, dt: int, envs: seq<Env>, ticks: seq<int>)
    requires line.Valid() && |envs| == |ticks|
    requires forall i :: 0 < i < |ticks| ==> ticks[i] != ticks[i - 1]
    requires |ticks| > 0 ==> st != ticks[0] && dt != ticks[0]
    ensures Valid(Tap(h, so, st, line, dout, dt), TapRank)
    ensures var vs := Follow(Tap(h, so, st, line, dout, dt), envs, TapRank, 1, 0, ticks);
            forall i :: 0 <= i < |ticks| ==> vs[i] == PushAll(line, Values(envs, h)[..i]).Emit()
    decreases |ticks|
  {
    TapValid(h, so, st, line, dout, dt);
    if |ticks| > 0 {
      var a := Tap(h, so, st, line, dout, dt);
      var u := ticks[0];
      var x := envs[0].vars(h);
      var b := Tap(h, x, u, line.Push(x), line.Emit(), u);
      TapStep(h, so, st, line, dout, dt, envs[0], u);
      FollowStep(a, envs, TapRank, 1, 0, ticks, line.Emit(), b);
      TapFollows(h, x, u, line.Push(x), line.Emit(), u, envs[1..], ticks[1..]);
      var rest := Follow(b, envs[1..], TapRank, 1, 0, ticks[1..]);
      var vs := Follow(a, envs, TapRank, 1, 0, ticks);
      forall i | 0 <= i < |ticks|
        ensures vs[i] == PushAll(line, Values(envs, h)[..i]).Emit()
      {
        if i == 0 {
          assert Values(envs, h)[..0] == [];
        } else {
          assert vs[i] == rest[i - 1];
          ShiftValues(line, x, envs, h, i);
        }
      }
    }
  }

  /** The test-style construction: binding the delay's input to the
      source gives the tap at tick -1 with every value 0. */
  lemma TapBuilds(h: nat, d: nat)
    requires d >= 1
    ensures BindIn([NewRefSrc(h), NewDelay(d)], 1, 0, Some(0), 0) == Ok(Tap(h, 0.0, NoTick, Fresh(d), 0.0, NoTick))
  {
    var none: Option<Binding> := None;
    assert [none][0 := Some(Binding(0, 0))] == [Some(Binding(0, 0))];
    assert seq(1, _ => 0.0) == [0.0];
    assert NewRefSrc(h) == Node(RefSrc(h), [], [0.0], NoTick, false);
    assert NewDelay(d) == Node(Delay(Fresh(d)), [none], [0.0], NoTick, false);
    var a0 := [NewRefSrc(h), NewDelay(d)];
    var a1 := a0[1 := NewDelay(d).(inputs := [Some(Binding(0, 0))])];
    assert a1 == Tap(h, 0.0, NoTick, Fresh(d), 0.0, NoTick);
    assert BindIn(a0, 1, 0, Some(0), 0) == Ok(a1);
  }

  /** A reference source bound to a freshly constructed `delay(d)`, read at
      ticks that each differ from the one before (the first other than
      -1): the i-th read returns the variable's value from d reads
      earlier, or 0 for the first d reads. */
  lemma FreshTap(h: nat, d: nat, envs: seq<Env>, ticks: seq<int>)
    requires d >= 1 && |envs| == |ticks|
    requires forall i :: 0 < i < |ticks| ==> ticks[i] != ticks[i - 1]
    requires |ticks| > 0 ==> ticks[0] != NoTick
    ensures Valid(Tap(h, 0.0, NoTick, Fresh(d), 0.0, NoTick), TapRank)
    ensures var vs := Follow(Tap(h, 0.0, NoTick, Fresh(d), 0.0, NoTick), envs, TapRank, 1, 0, ticks);
            forall i :: 0 <= i < |ticks| ==> vs[i] == Delayed(d, Values(envs, h)[..i])
  {
    var line := Fresh(d);
    TapFollows(h, 0.0, NoTick, line, 0.0, NoTick, envs, ticks);
    var vs := Follow(Tap(h, 0.0, NoTick, line, 0.0, NoTick), envs, TapRank, 1, 0, ticks);
    forall i | 0 <= i < |ticks|
      ensures vs[i] == Delayed(d, Values(envs, h)[..i])
    {
      EmitIsDelayed(d, Values(envs, h)[..i]);
    }
  }
}
