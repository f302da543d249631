/** The single-node-kind test cases of the library, stated over the
    model: each graph has the nodes its test constructs, in that order,
    with the input bindings its `bind` calls make written out directly
    (the integrator and the delay tap are also built through `BindIn`),
    and each lemma states the values the test expects from its reads. */
module TestCases {
  import opened Wrappers
  import opened Graph
  import opened Combinators
  import opened Protocol
  import opened ProtocolFacts
  import opened SourceReads

  /** The outside world of the tests: the referenced variable 0 holds `x`,
      sample callback 0 returns 2, and function callback 0 maps y to 2y+1. */
  function World(x: real): (env: Env) {
    Env((_: nat) => x, (_: nat) => 2.0, (_: nat) => (y: real) => 2.0 * y + 1.0)
  }

  function In(node: NodeId): (b: Option<Binding>) {
    Some(Binding(node, 0))
  }

  /** A constant source reads as its constant. */
  lemma ConstantSource()
    ensures Valid([NewConstSrc(3.0)], [0])
    ensures Read([NewConstSrc(3.0)], World(0.0), [0], 0, 0, 0).0 == 3.0
  {
    var a := [NewConstSrc(3.0)];
    assert ShapeOk(a[0]);
    ReadSource(a, World(0.0), [0], 0, 0);
  }

  lemma RefValid(nd: Node)
    requires nd.kind.RefSrc? && nd.inputs == [] && |nd.outputs| == 1
    ensures Valid([nd], [0])
  {
    assert ShapeOk(nd);
  }

  /** The reference source test: the variable is 1 at tick 0 and 5 at
      tick 1; set to -17, it still reads 5 at tick 1, and -17 at tick 0. */
  lemma ReferenceSource()
    ensures var a0 := [NewRefSrc(0)];
            var a1 := [NewRefSrc(0).(outputs := [1.0], lastTick := 0)];
            var a2 := [NewRefSrc(0).(outputs := [5.0], lastTick := 1)];
            && Valid(a0, [0]) && Valid(a1, [0]) && Valid(a2, [0])
            && Read(a0, World(1.0), [0], 0, 0, 0) == (1.0, a1)
            && Read(a1, World(5.0), [0], 0, 1, 0) == (5.0, a2)
            && Read(a2, World(-17.0), [0], 0, 1, 0) == (5.0, a2)
            && Read(a2, World(-17.0), [0], 0, 0, 0).0 == -17.0
  {
    var a0 := [NewRefSrc(0)];
    var a1 := [NewRefSrc(0).(outputs := [1.0], lastTick := 0)];
    var a2 := [NewRefSrc(0).(outputs := [5.0], lastTick := 1)];
    RefValid(a0[0]);
    RefValid(a1[0]);
    RefValid(a2[0]);
    assert Read(a0, World(1.0), [0], 0, 0, 0) == (1.0, a1) by {
      ReadSource(a0, World(1.0), [0], 0, 0);
      assert Touch(a0, World(1.0), 0, 0) == a1;
    }
    assert Read(a1, World(5.0), [0], 0, 1, 0) == (5.0, a2) by {
      ReadSource(a1, World(5.0), [0], 0, 1);
      assert Touch(a1, World(5.0), 0, 1) == a2;
    }
    assert Read(a2, World(-17.0), [0], 0, 0, 0).0 == -17.0 by {
      ReadSource(a2, World(-17.0), [0], 0, 0);
    }
  }

  /** The sum test between reads: every node last computed tick t; the
      callback source shows p, the constant q and the sum s. */
  function SumArena(t: int, p: real, q: real, s: real): (a: Arena) {
    [ NewCallbackSrc(0).(outputs := [p], lastTick := t),
      NewConstSrc(3.0).(outputs := [q], lastTick := t),
      NewSum(2).(inputs := [In(0), In(1)], outputs := [s], lastTick := t) ]
  }

  /** Between reads the sum arena is valid, and at a new tick its sum
      reads sources only. */
  lemma SumReady(t: int, p: real, q: real, s: real, u: int, x: real)
    requires u != t
    ensures Valid(SumArena(t, p, q, s), [0, 0, 1]) && FedBySources(SumArena(t, p, q, s), World(x), 2, u, 0)
  {
    var a := SumArena(t, p, q, s);
    assert ShapeOk(a[0]) && ShapeOk(a[1]) && ShapeOk(a[2]);
  }

  /** One read of the sum at a new tick: both sources are computed and
      the sum reads 2 + 3. */
  lemma SumStep(t: int, p: real, q: real, s: real, u: int, x: real)
    requires u != t
    ensures Valid(SumArena(t, p, q, s), [0, 0, 1])
    ensures Read(SumArena(t, p, q, s), World(x), [0, 0, 1], 2, u, 0) == (5.0, SumArena(u, 2.0, 3.0, 5.0))
  {
    var a := SumArena(t, p, q, s);
    var env := World(x);
    var bs := [In(0), In(1)];
    SumReady(t, p, q, s, u, x);
    assert SumOf(InputValues(a, env, bs)) == 5.0 by {
      assert bs[1..][1..] == [];
      assert InputValues(a, env, bs) == [2.0, 3.0];
      assert [2.0, 3.0][..1] == [2.0];
      assert [2.0][..0] == [];
    }
    assert AfterRead(a, TouchAll(a, env, u, bs), 2, 5.0, u) == SumArena(u, 2.0, 3.0, 5.0) by {
      var a1 := Touch(a, env, 0, u);
      var a2 := Touch(a1, env, 1, u);
      assert TouchOne(a, env, u, bs[0]) == a1;
      assert TouchOne(a1, env, u, bs[1..][0]) == a2;
      assert TouchAll(a2, env, u, bs[1..][1..]) == a2;
      assert TouchAll(a, env, u, bs) == a2;
    }
    CombineSources(a, env, [0, 0, 1], 2, u);
  }

  /** Reads of the sum at two distinct ticks, the first other than -1,
      both give 5. */
  lemma SumTwice(x: real, p: int, q: int)
    requires p != q && p != NoTick
    ensures Valid(SumArena(NoTick, 0.0, 0.0, 0.0), [0, 0, 1])
    ensures Drive(SumArena(NoTick, 0.0, 0.0, 0.0), World(x), [0, 0, 1], 2, 0, [p, q]) == [5.0, 5.0]
  {
    var a0 := SumArena(NoTick, 0.0, 0.0, 0.0);
    var a1 := SumArena(p, 2.0, 3.0, 5.0);
    var a2 := SumArena(q, 2.0, 3.0, 5.0);
    SumStep(NoTick, 0.0, 0.0, 0.0, p, x);
    DriveStep(a0, World(x), [0, 0, 1], 2, 0, p, [q], 5.0, a1);
    SumStep(p, 2.0, 3.0, 5.0, q, x);
    DriveStep(a1, World(x), [0, 0, 1], 2, 0, q, [], 5.0, a2);
    assert Drive(a2, World(x), [0, 0, 1], 2, 0, []) == [];
    assert [q] + [] == [q];
    assert [p] + [q] == [p, q];
  }

  /** The sum test: a callback source returning 2 plus a constant 3 reads
      5 at tick 0 and again 5 at tick 1. */
  lemma SumOfSources(x: real)
    ensures Valid(SumArena(NoTick, 0.0, 0.0, 0.0), [0, 0, 1])
    ensures Drive(SumArena(NoTick, 0.0, 0.0, 0.0), World(x), [0, 0, 1], 2, 0, [0, 1]) == [5.0, 5.0]
  {
    SumTwice(x, 0, 1);
  }

  /** The multiplication test: constant sources of 3, 4 and 1.5 and a
      product of 3 inputs reading them in that order. */
  function MulArena(): (a: Arena) {
    [NewConstSrc(3.0), NewConstSrc(4.0), NewConstSrc(1.5), NewMul(3).(inputs := [In(0), In(1), In(2)])]
  }

  /** The multiplication arena is valid. */
  lemma MulValid()
    ensures Valid(MulArena(), [0, 0, 0, 1])
  {
    var a := MulArena();
    assert ShapeOk(a[0]) && ShapeOk(a[1]) && ShapeOk(a[2]) && ShapeOk(a[3]);
    assert WellFormed(a) by {
      assert forall j :: 0 <= j < 3 ==> BindingOk(a, a[3].inputs[j].value);
    }
  }

  /** At tick 0 the product reads sources only. */
  lemma MulReady(env: Env)
    ensures FedBySources(MulArena(), env, 3, 0, 0)
  {
    var a := MulArena();
    assert SourceReady(a[0], env, 0) && SourceReady(a[1], env, 0) && SourceReady(a[2], env, 0);
  }

  /** The multiplication test: constants 3, 4 and 1.5 multiply to 18. */
  lemma ProductOfConstants()
    ensures Valid(MulArena(), [0, 0, 0, 1]) && Read(MulArena(), World(0.0), [0, 0, 0, 1], 3, 0, 0).0 == 18.0
  {
    MulValid();
    MulReady(World(0.0));
    CombineSources(MulArena(), World(0.0), [0, 0, 0, 1], 3, 0);
    MulInputs(World(0.0));
  }

  lemma MulInputs(env: Env)
    ensures ProductOf(InputValues(MulArena(), env, [In(0), In(1), In(2)])) == 18.0
  {
    var a := MulArena();
    var bs := [In(0), In(1), In(2)];
    assert InputValues(a, env, bs) == [3.0, 4.0, 1.5] by {
      assert bs[1..][1..][1..] == [];
      assert InputValues(a, env, bs[1..][1..]) == [1.5];
      assert InputValues(a, env, bs[1..]) == [4.0, 1.5];
    }
    assert [3.0, 4.0, 1.5][..2] == [3.0, 4.0];
    assert [3.0, 4.0][..1] == [3.0];
    assert [3.0][..0] == [];
  }

  /** The callback function test: 2y+1 applied to the constant 2.5 is 6. */
  lemma CallbackOfConstant()
    ensures var a := [NewCallbackFunc(0).(inputs := [In(1)]), NewConstSrc(2.5)];
            Valid(a, [1, 0]) && Read(a, World(0.0), [1, 0], 0, 0, 0).0 == 6.0
  {
    var a := [NewCallbackFunc(0).(inputs := [In(1)]), NewConstSrc(2.5)];
    var env := World(0.0);
    assert ShapeOk(a[0]) && ShapeOk(a[1]);
    assert FedBySources(a, env, 0, 0, 0);
    CallbackOfSource(a, env, [1, 0], 0, 0);
  }

  /** The mux test between reads: constant sources of 1 and 2 (nodes 0
      and 1), the reference source of the selector (node 2) and a mux of
      3 inputs whose selector is node 2 (node 3). Each node shows the
      first component of its pair and last computed the second. */
  function MuxArena(c1: (real, int), c2: (real, int), r: (real, int), m: (real, int)): (a: Arena) {
    [ NewConstSrc(1.0).(outputs := [c1.0], lastTick := c1.1),
      NewConstSrc(2.0).(outputs := [c2.0], lastTick := c2.1),
      NewRefSrc(0).(outputs := [r.0], lastTick := r.1),
      NewMux(3).(inputs := [In(2), In(0), In(1)], outputs := [m.0], lastTick := m.1) ]
  }

  const MuxRank: seq<nat> := [0, 0, 0, 1]

  /** A constant source that has either never computed or shows its
      constant. */
  predicate Settled(p: (real, int), c: real) {
    p.1 == NoTick || p.0 == c
  }

  /** Between reads the mux arena is valid. */
  lemma MuxValid(c1: (real, int), c2: (real, int), r: (real, int), m: (real, int))
    ensures Valid(MuxArena(c1, c2, r, m), MuxRank)
  {
    var a := MuxArena(c1, c2, r, m);
    assert ShapeOk(a[0]) && ShapeOk(a[1]) && ShapeOk(a[2]) && ShapeOk(a[3]);
    assert WellFormed(a) by {
      assert forall j :: 0 <= j < 3 ==> BindingOk(a, a[3].inputs[j].value);
    }
  }

  /** At a new tick every input of the mux is a source ready to be read. */
  lemma MuxReady(c1: (real, int), c2: (real, int), r: (real, int), m: (real, int), u: int, x: real)
    requires u >= 0 && r.1 != u && Settled(c1, 1.0) && Settled(c2, 2.0)
    ensures FedBySources(MuxArena(c1, c2, r, m), World(x), 3, u, 0)
  {
    var a := MuxArena(c1, c2, r, m);
    assert SourceReady(a[0], World(x), u) && SourceReady(a[1], World(x), u) && SourceReady(a[2], World(x), u);
  }

  /** Reading the selector and the selected constant touches exactly those
      two sources. */
  lemma MuxTouches(c1: (real, int), c2: (real, int), r: (real, int), m: (real, int), u: int, x: real)
    ensures var a := MuxArena(c1, c2, r, m);
            var bs := a[3].inputs;
            var k := MuxIndex(3, x);
            var v := if k == 1 then 1.0 else 2.0;
            && InputValue(a, World(x), bs[0]) == x && InputValue(a, World(x), bs[k]) == v
            && AfterRead(a, TouchOne(TouchOne(a, World(x), u, bs[0]), World(x), u, bs[k]), 3, v, u)
               == MuxArena(if k == 1 then (1.0, u) else c1, if k == 2 then (2.0, u) else c2, (x, u), (v, u))
  {
    var a := MuxArena(c1, c2, r, m);
    var env := World(x);
    var bs := a[3].inputs;
    var k := MuxIndex(3, x);
    var t1 := Touch(a, env, 2, u);
    assert TouchOne(a, env, u, bs[0]) == t1;
    if k == 1 {
      assert TouchOne(t1, env, u, bs[k]) == Touch(t1, env, 0, u);
    } else {
      assert TouchOne(t1, env, u, bs[k]) == Touch(t1, env, 1, u);
    }
  }

  /** One mux read at a new tick with the selector variable at x: the mux
      reads the selector, then only the constant source it selects. */
  lemma MuxStep(c1: (real, int), c2: (real, int), r: (real, int), m: (real, int), u: int, x: real)
    requires u >= 0 && r.1 != u && m.1 != u && Settled(c1, 1.0) && Settled(c2, 2.0)
    ensures Valid(MuxArena(c1, c2, r, m), MuxRank)
    ensures var k := MuxIndex(3, x);
            var v := if k == 1 then 1.0 else 2.0;
            Read(MuxArena(c1, c2, r, m), World(x), MuxRank, 3, u, 0)
              == (v, MuxArena(if k == 1 then (1.0, u) else c1, if k == 2 then (2.0, u) else c2, (x, u), (v, u)))
  {
    MuxValid(c1, c2, r, m);
    MuxReady(c1, c2, r, m, u, x);
    MuxTouches(c1, c2, r, m, u, x);
    MuxOverSources(MuxArena(c1, c2, r, m), World(x), MuxRank, 3, u);
  }

  /** The mux test: selector values 0, 1, 2, 100 and -100, read at ticks
      0, 1, 0, 1, 0, select inputs 1, 1, 2, 2 and 1 and read 1, 1, 2, 2
      and 1. */
  lemma MuxSelection()
    ensures var s0 := MuxArena((0.0, NoTick), (0.0, NoTick), (0.0, NoTick), (0.0, NoTick));
            var s1 := MuxArena((1.0, 0), (0.0, NoTick), (0.0, 0), (1.0, 0));
            var s2 := MuxArena((1.0, 1), (0.0, NoTick), (1.0, 1), (1.0, 1));
            var s3 := MuxArena((1.0, 1), (2.0, 0), (2.0, 0), (2.0, 0));
            var s4 := MuxArena((1.0, 1), (2.0, 1), (100.0, 1), (2.0, 1));
            && Valid(s0, MuxRank) && Read(s0, World(0.0), MuxRank, 3, 0, 0) == (1.0, s1)
            && Valid(s1, MuxRank) && Read(s1, World(1.0), MuxRank, 3, 1, 0) == (1.0, s2)
            && Valid(s2, MuxRank) && Read(s2, World(2.0), MuxRank, 3, 0, 0) == (2.0, s3)
            && Valid(s3, MuxRank) && Read(s3, World(100.0), MuxRank, 3, 1, 0) == (2.0, s4)
            && Valid(s4, MuxRank) && Read(s4, World(-100.0), MuxRank, 3, 0, 0).0 == 1.0
  {
    MuxTable();
    MuxStep((0.0, NoTick), (0.0, NoTick), (0.0, NoTick), (0.0, NoTick), 0, 0.0);
    MuxStep((1.0, 0), (0.0, NoTick), (0.0, 0), (1.0, 0), 1, 1.0);
    MuxStep((1.0, 1), (0.0, NoTick), (1.0, 1), (1.0, 1), 0, 2.0);
    MuxStep((1.0, 1), (2.0, 0), (2.0, 0), (2.0, 0), 1, 100.0);
    MuxStep((1.0, 1), (2.0, 1), (100.0, 1), (2.0, 1), 0, -100.0);
  }
}
