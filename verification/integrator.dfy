/** The integrator loop of the library's tests: a constant source of 1
    and a one-sample delay fed back into a two-input sum. Node 0 is the
    source, node 1 the delay (reading node 2), node 2 the sum (reading
    nodes 0 and 1). */
module Integrator {
  import opened Wrappers
  import opened DelayLine
  import opened Graph
  import opened Combinators
  import opened Protocol
  import opened ProtocolFacts

  function Src(out: real, t: int, busy: bool): (nd: Node) {
    Node(ConstSrc(1.0), [], [out], t, busy)
  }

  function Dly(x: real, k: nat, out: real, t: int, busy: bool): (nd: Node) {
    Node(Delay(Line([x], k)), [Some(Binding(2, 0))], [out], t, busy)
  }

  function Acc(out: real, t: int, busy: bool): (nd: Node) {
    Node(Sum, [Some(Binding(0, 0)), Some(Binding(1, 0))], [out], t, busy)
  }

  /** The loop between reads: every node last computed tick t, the source
      shows c, the delay shows d and holds x after k updates, the sum
      shows s. */
  function Loop(t: int, c: real, d: real, s: real, x: real, k: nat): (a: Arena) {
    [Src(c, t, false), Dly(x, k, d, t, false), Acc(s, t, false)]
  }

  const Rank: seq<nat> := [0, 0, 1]

  lemma LoopValid(a: Arena)
    requires |a| == 3 && a[0].kind == ConstSrc(1.0) && a[1].kind.Delay? && |a[1].kind.line.buf| == 1
    requires a[2].kind == Sum
    requires a[0].inputs == [] && a[1].inputs == [Some(Binding(2, 0))]
    requires a[2].inputs == [Some(Binding(0, 0)), Some(Binding(1, 0))]
    requires forall i :: 0 <= i < 3 ==> |a[i].outputs| == 1
    ensures Valid(a, Rank)
  {
    assert ShapeOk(a[0]) && ShapeOk(a[1]) && ShapeOk(a[2]);
  }

  /** The test builds the loop with three binds from freshly constructed
      nodes; the result is the loop at tick -1 with everything zero. */
  lemma Builds()
    ensures var a0 := [NewConstSrc(1.0), NewDelay(1), NewSum(2)];
            && BindIn(a0, 2, 0, Some(0), 0).Ok?
            && BindIn(BindIn(a0, 2, 0, Some(0), 0).value, 2, 1, Some(1), 0).Ok?
            && BindIn(BindIn(BindIn(a0, 2, 0, Some(0), 0).value, 2, 1, Some(1), 0).value, 1, 0, Some(2), 0)
               == Ok(Loop(NoTick, 0.0, 0.0, 0.0, 0.0, 0))
  {
    assert Fresh(1).buf == [0.0];
    assert NewConstSrc(1.0) == Src(0.0, NoTick, false);
    assert NewDelay(1) == Dly(0.0, 0, 0.0, NoTick, false).(inputs := [None]);
    assert NewSum(2) == Acc(0.0, NoTick, false).(inputs := [None, None]);
    var a0 := [NewConstSrc(1.0), NewDelay(1), NewSum(2)];
    assert a0 == [Src(0.0, NoTick, false), Dly(0.0, 0, 0.0, NoTick, false).(inputs := [None]),
                  Acc(0.0, NoTick, false).(inputs := [None, None])];
    var a1 := a0[2 := Acc(0.0, NoTick, false).(inputs := [Some(Binding(0, 0)), None])];
    var none: Option<Binding> := None;
    assert [none, none][0 := Some(Binding(0, 0))] == [Some(Binding(0, 0)), none];
    assert BindIn(a0, 2, 0, Some(0), 0) == Ok(a1);
    var a2 := a0[2 := Acc(0.0, NoTick, false)];
    assert [Some(Binding(0, 0)), none][1 := Some(Binding(1, 0))] == [Some(Binding(0, 0)), Some(Binding(1, 0))];
    assert a1[2 := Acc(0.0, NoTick, false)] == a2;
    assert BindIn(a1, 2, 1, Some(1), 0) == Ok(a2);
    assert [none][0 := Some(Binding(2, 0))] == [Some(Binding(2, 0))];
    assert a2[1 := Dly(0.0, 0, 0.0, NoTick, false)] == Loop(NoTick, 0.0, 0.0, 0.0, 0.0, 0);
    assert BindIn(a2, 1, 0, Some(2), 0) == Ok(Loop(NoTick, 0.0, 0.0, 0.0, 0.0, 0));
  }

  /** The inputs of the sum re-entered from the delay's `update`: the
      source is already computed for tick u and the delay, being read,
      re-emits its buffer; nothing changes. */
  lemma InnerInputs(x: real, k: nat, s: real, u: int, t: int, env: Env)
    ensures var a := [Src(1.0, u, false), Dly(x, k, x, u, true), Acc(s, t, true)];
            && Valid(a, Rank)
            && ReadInputs(a, env, Rank, 2, u, 0) == ([1.0, x], a)
  {
    var a := [Src(1.0, u, false), Dly(x, k, x, u, true), Acc(s, t, true)];
    LoopValid(a);
    ReentrantDelayRead(a, env, Rank, 1, u);
    assert a[1 := a[1].(outputs := [x])] == a;
    assert Read(a, env, Rank, 0, u, 0) == (1.0, a);
    assert Read(a, env, Rank, 1, u, 0) == (x, a);
    assert GetInput(a, env, Rank, 2, 0, u) == (1.0, a);
    assert GetInput(a, env, Rank, 2, 1, u) == (x, a);
    assert ReadInputs(a, env, Rank, 2, u, 2) == ([], a);
    assert [x] + [] == [x];
    assert ReadInputs(a, env, Rank, 2, u, 1) == ([x], a);
    assert [1.0] + [x] == [1.0, x];
  }

  /** The sum re-entered from the delay's `update`: it adds the source to
      the value the delay re-emits, and only its own output changes. */
  lemma InnerSum(x: real, k: nat, s: real, u: int, t: int, env: Env)
    ensures var a := [Src(1.0, u, false), Dly(x, k, x, u, true), Acc(s, t, true)];
            && Valid(a, Rank)
            && Read(a, env, Rank, 2, u, 0) == (1.0 + x, a[2 := Acc(1.0 + x, t, true)])
  {
    var a := [Src(1.0, u, false), Dly(x, k, x, u, true), Acc(s, t, true)];
    InnerInputs(x, k, s, u, t, env);
    assert SumOf([1.0, x]) == 1.0 + x by {
      assert [1.0, x][..1] == [1.0];
      assert [1.0][..0] == [];
    }
    assert a[2].outputs[0 := 1.0 + x] == [1.0 + x];
    assert a[2 := a[2].(outputs := [1.0 + x])] == a[2 := Acc(1.0 + x, t, true)];
    assert Process(a, env, Rank, 2, u) == a[2 := Acc(1.0 + x, t, true)];
  }

  /** The delay read from inside the sum: it emits its buffer, and its
      `update` re-enters the sum, which adds the source to that same
      buffered value; the sum is stored and the index advances. */
  lemma DelayTurn(x: real, k: nat, d: real, s: real, t: int, u: int, env: Env)
    requires t != u
    ensures var a := [Src(1.0, u, false), Dly(x, k, d, t, false), Acc(s, t, true)];
            && Valid(a, Rank)
            && Read(a, env, Rank, 1, u, 0)
               == (x, [Src(1.0, u, false), Dly(1.0 + x, k + 1, x, u, false), Acc(1.0 + x, t, true)])
  {
    var a := [Src(1.0, u, false), Dly(x, k, d, t, false), Acc(s, t, true)];
    LoopValid(a);
    assert Line([x], k).Slot() == 0;
    var c1 := a[1 := Dly(x, k, d, t, true)];
    LoopValid(c1);
    assert [d][0 := x] == [x];
    assert Process(c1, env, Rank, 1, u) == c1[1 := Dly(x, k, x, t, true)];
    var c2 := [Src(1.0, u, false), Dly(x, k, x, u, true), Acc(s, t, true)];
    assert Refresh(c1, env, Rank, 1, u) == c2;
    LoopValid(c2);
    InnerSum(x, k, s, u, t, env);
    var c3 := c2[2 := Acc(1.0 + x, t, true)];
    assert GetInput(c2, env, Rank, 1, 0, u) == (1.0 + x, c3);
    assert [x][0 := 1.0 + x] == [1.0 + x];
    assert Line([x], k).Push(1.0 + x) == Line([1.0 + x], k + 1);
    var c4 := [Src(1.0, u, false), Dly(1.0 + x, k + 1, x, u, true), Acc(1.0 + x, t, true)];
    assert Update(c2, env, Rank, 1, u) == c4;
    var c5 := [Src(1.0, u, false), Dly(1.0 + x, k + 1, x, u, false), Acc(1.0 + x, t, true)];
    assert c4[1 := Dly(1.0 + x, k + 1, x, u, false)] == c5;
    assert ReadIdle(a, env, Rank, 1, u) == c5;
  }

  /** The sum's first input at a new tick: the source yields 1 and
      records the tick. */
  lemma SourceInput(t: int, c: real, d: real, s: real, x: real, k: nat, u: int, env: Env)
    requires u != t
    ensures var a1 := [Src(c, t, false), Dly(x, k, d, t, false), Acc(s, t, true)];
            && Valid(a1, Rank)
            && GetInput(a1, env, Rank, 2, 0, u) == (1.0, [Src(1.0, u, false), Dly(x, k, d, t, false), Acc(s, t, true)])
  {
    var a1 := [Src(c, t, false), Dly(x, k, d, t, false), Acc(s, t, true)];
    LoopValid(a1);
    ReadSource(a1, env, Rank, 0, u);
    assert Touch(a1, env, 0, u) == [Src(1.0, u, false), Dly(x, k, d, t, false), Acc(s, t, true)];
  }

  /** The inputs of the sum, read in slot order at a new tick: the source
      yields 1, then the delay yields its buffer and takes its turn. */
  lemma OuterInputs(t: int, c: real, d: real, s: real, x: real, k: nat, u: int, env: Env)
    requires u != t
    ensures var a1 := [Src(c, t, false), Dly(x, k, d, t, false), Acc(s, t, true)];
            && Valid(a1, Rank)
            && ReadInputs(a1, env, Rank, 2, u, 0)
               == ([1.0, x], [Src(1.0, u, false), Dly(1.0 + x, k + 1, x, u, false), Acc(1.0 + x, t, true)])
  {
    var a1 := [Src(c, t, false), Dly(x, k, d, t, false), Acc(s, t, true)];
    SourceInput(t, c, d, s, x, k, u, env);
    var b1 := [Src(1.0, u, false), Dly(x, k, d, t, false), Acc(s, t, true)];
    LoopValid(b1);
    DelayTurn(x, k, d, s, t, u, env);
    var e := [Src(1.0, u, false), Dly(1.0 + x, k + 1, x, u, false), Acc(1.0 + x, t, true)];
    assert GetInput(b1, env, Rank, 2, 1, u) == (x, e);
    LoopValid(e);
    assert ReadInputs(e, env, Rank, 2, u, 2) == ([], e);
    assert [x] + [] == [x];
    assert ReadInputs(b1, env, Rank, 2, u, 1) == ([x], e);
    assert [1.0] + [x] == [1.0, x];
  }

  /** The sum's `process` at a new tick: it adds 1 to what the delay held
      and leaves the delay holding that sum. */
  lemma OuterProcess(t: int, c: real, d: real, s: real, x: real, k: nat, u: int, env: Env)
    requires u != t
    ensures var a1 := [Src(c, t, false), Dly(x, k, d, t, false), Acc(s, t, true)];
            && Valid(a1, Rank)
            && Process(a1, env, Rank, 2, u)
               == [Src(1.0, u, false), Dly(1.0 + x, k + 1, x, u, false), Acc(1.0 + x, t, true)]
  {
    OuterInputs(t, c, d, s, x, k, u, env);
    var e := [Src(1.0, u, false), Dly(1.0 + x, k + 1, x, u, false), Acc(1.0 + x, t, true)];
    assert SumOf([1.0, x]) == 1.0 + x by {
      assert [1.0, x][..1] == [1.0];
      assert [1.0][..0] == [];
    }
    assert e[2].outputs[0 := 1.0 + x] == [1.0 + x];
  }

  /** One read of the sum at a tick other than the loop's last: the value
      read is 1 plus what the delay held, and it becomes the new content
      of the delay. */
  lemma Step(t: int, c: real, d: real, s: real, x: real, k: nat, u: int, env: Env)
    requires u != t
    ensures Valid(Loop(t, c, d, s, x, k), Rank)
    ensures Read(Loop(t, c, d, s, x, k), env, Rank, 2, u, 0) == (1.0 + x, Loop(u, 1.0, x, 1.0 + x, 1.0 + x, k + 1))
  {
    var a := Loop(t, c, d, s, x, k);
    LoopValid(a);
    var a1 := a[2 := Acc(s, t, true)];
    assert a1 == [Src(c, t, false), Dly(x, k, d, t, false), Acc(s, t, true)];
    OuterProcess(t, c, d, s, x, k, u, env);
    var e := [Src(1.0, u, false), Dly(1.0 + x, k + 1, x, u, false), Acc(1.0 + x, t, true)];
    var f := e[2 := Acc(1.0 + x, u, true)];
    assert Refresh(a1, env, Rank, 2, u) == f;
    LoopValid(f);
    assert Update(f, env, Rank, 2, u) == f;
    assert ReadIdle(a, env, Rank, 2, u) == Loop(u, 1.0, x, 1.0 + x, 1.0 + x, k + 1);
  }

  /** Re-reading the sum at the loop's last tick returns the cached sum
      and changes nothing. */
  lemma Again(t: int, c: real, d: real, s: real, x: real, k: nat, env: Env)
    ensures Valid(Loop(t, c, d, s, x, k), Rank)
    ensures Read(Loop(t, c, d, s, x, k), env, Rank, 2, t, 0) == (s, Loop(t, c, d, s, x, k))
  {
    LoopValid(Loop(t, c, d, s, x, k));
  }

  /** Step with the loop's state written out: after the reads at ticks
      0, 1, 0 the loop holds 1, 2, 3. */
  lemma StepTo(t: int, x: real, k: nat, u: int, env: Env)
    requires u != t && x == k as real
    ensures Valid(Loop(t, 1.0, x - 1.0, x, x, k), Rank)
    ensures Read(Loop(t, 1.0, x - 1.0, x, x, k), env, Rank, 2, u, 0) == (x + 1.0, Loop(u, 1.0, x, x + 1.0, x + 1.0, k + 1))
  {
    Step(t, 1.0, x - 1.0, x, x, k, u, env);
  }

  /** The first read of the freshly built loop returns 1. */
  lemma FirstRead(env: Env, p: int)
    requires p != NoTick
    ensures Valid(Loop(NoTick, 0.0, 0.0, 0.0, 0.0, 0), Rank)
    ensures Read(Loop(NoTick, 0.0, 0.0, 0.0, 0.0, 0), env, Rank, 2, p, 0) == (1.0, Loop(p, 1.0, 0.0, 1.0, 1.0, 1))
  {
    Step(NoTick, 0.0, 0.0, 0.0, 0.0, 0, p, env);
    assert Loop(p, 1.0, 0.0, 1.0 + 0.0, 1.0 + 0.0, 0 + 1) == Loop(p, 1.0, 0.0, 1.0, 1.0, 1);
  }

  lemma DriveFrom3(env: Env, p: int, q: int)
    requires p != q
    ensures Valid(Loop(p, 1.0, 2.0, 3.0, 3.0, 3), Rank)
    ensures Drive(Loop(p, 1.0, 2.0, 3.0, 3.0, 3), env, Rank, 2, 0, [p, q]) == [3.0, 4.0]
  {
    var a := Loop(p, 1.0, 2.0, 3.0, 3.0, 3);
    var b := Loop(q, 1.0, 3.0, 4.0, 4.0, 4);
    Again(p, 1.0, 2.0, 3.0, 3.0, 3, env);
    DriveStep(a, env, Rank, 2, 0, p, [q], 3.0, a);
    StepTo(p, 3.0, 3, q, env);
    DriveStep(a, env, Rank, 2, 0, q, [], 4.0, b);
    assert Drive(b, env, Rank, 2, 0, []) == [];
    assert [q] + [] == [q];
    assert [p] + [q] == [p, q];
  }

  lemma DriveFrom2(env: Env, p: int, q: int)
    requires p != q
    ensures Valid(Loop(p, 1.0, 0.0, 1.0, 1.0, 1), Rank)
    ensures Drive(Loop(p, 1.0, 0.0, 1.0, 1.0, 1), env, Rank, 2, 0, [q, p, p, q]) == [2.0, 3.0, 3.0, 4.0]
  {
    var a := Loop(p, 1.0, 0.0, 1.0, 1.0, 1);
    var b := Loop(q, 1.0, 1.0, 2.0, 2.0, 2);
    var c := Loop(p, 1.0, 2.0, 3.0, 3.0, 3);
    StepTo(p, 1.0, 1, q, env);
    assert Read(a, env, Rank, 2, q, 0) == (2.0, b);
    DriveStep(a, env, Rank, 2, 0, q, [p, p, q], 2.0, b);
    StepTo(q, 2.0, 2, p, env);
    assert Read(b, env, Rank, 2, p, 0) == (3.0, c);
    DriveStep(b, env, Rank, 2, 0, p, [p, q], 3.0, c);
    DriveFrom3(env, p, q);
    assert [p] + [p, q] == [p, p, q];
    assert [q] + [p, p, q] == [q, p, p, q];
  }

  /** Reads of the sum at ticks p, q, p, p, q, for any two distinct ticks
      other than -1, from the freshly built loop return 1, 2, 3, 3, 4. */
  lemma Sequence(env: Env, p: int, q: int)
    requires p != q && p != NoTick
    ensures Valid(Loop(NoTick, 0.0, 0.0, 0.0, 0.0, 0), Rank)
    ensures Drive(Loop(NoTick, 0.0, 0.0, 0.0, 0.0, 0), env, Rank, 2, 0, [p, q, p, p, q]) == [1.0, 2.0, 3.0, 3.0, 4.0]
  {
    var a0 := Loop(NoTick, 0.0, 0.0, 0.0, 0.0, 0);
    var a1 := Loop(p, 1.0, 0.0, 1.0, 1.0, 1);
    FirstRead(env, p);
    DriveStep(a0, env, Rank, 2, 0, p, [q, p, p, q], 1.0, a1);
    DriveFrom2(env, p, q);
    assert [p] + [q, p, p, q] == [p, q, p, p, q];
  }

  /** The integrator test: reads at ticks 0, 1, 0, 0, 1 return 1, 2, 3,
      3, 4. */
  lemma IntegratorTest(env: Env)
    ensures Valid(Loop(NoTick, 0.0, 0.0, 0.0, 0.0, 0), Rank)
    ensures Drive(Loop(NoTick, 0.0, 0.0, 0.0, 0.0, 0), env, Rank, 2, 0, [0, 1, 0, 0, 1]) == [1.0, 2.0, 3.0, 3.0, 4.0]
  {
    Sequence(env, 0, 1);
  }
}
