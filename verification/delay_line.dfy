/** The circular buffer behind the `delay` node: `process` emits the slot
    under the running index, `update` overwrites that slot with the input
    and advances the index. */
module DelayLine {

  /** Buffer contents and the running write index (`dlyIndex`), which is
      never reduced: every access takes it modulo the buffer size. */
  datatype Line = Line(buf: seq<real>, idx: nat) {

    predicate Valid() {
      |buf| >= 1
    }

    /** The buffer position both `process` and `update` address. */
    function Slot(): (k: nat)
      requires Valid()
      ensures k < |buf|
      ensures k == idx || idx >= |buf|
    {
      idx % |buf|
    }

    /** What `process` writes to the node's output: the slot `update`
        overwrites next, which holds the value consumed one buffer length
        ago. Before the index wraps it is the slot at the index itself. */
    function Emit(): (r: real)
      requires Valid()
      ensures idx < |buf| ==> r == buf[idx]
      ensures |buf| == 1 ==> r == buf[0]
    {
      buf[Slot()]
    }

    /** What `update` does with the value read from the input. */
    function Push(x: real): (l: Line)
      requires Valid()
      ensures l.Valid() && |l.buf| == |buf|
      ensures l.idx == idx + 1
      ensures l.buf[Slot()] == x
      ensures forall j :: 0 <= j < |buf| && j != Slot() ==> l.buf[j] == buf[j]
      ensures |buf| == 1 ==> l.Emit() == x
    {
      Line(buf[Slot() := x], idx + 1)
    }
  }

  /** A freshly constructed `delay(d)`: d zeros, index 0. */
  function Fresh(d: nat): (l: Line)
    requires d >= 1
    ensures l.Valid() && |l.buf| == d && l.idx == 0
    ensures forall j :: 0 <= j < d ==> l.buf[j] == 0.0
  {
    Line(seq(d, _ => 0.0), 0)
  }

  /** The line after `update` has consumed every value of `xs`, oldest first. */
  function PushAll(l: Line, xs: seq<real>): (r: Line)
    requires l.Valid()
    ensures r.Valid() && |r.buf| == |l.buf| && r.idx == l.idx + |xs|
    decreases |xs|
  {
    if |xs| == 0 then l else PushAll(l, xs[..|xs| - 1]).Push(xs[|xs| - 1])
  }

  /** Consuming x and then ys is consuming [x] + ys. */
  lemma {:induction false} PushAllFront(l: Line, x: real, ys: seq<real>)
    requires l.Valid()
    ensures PushAll(l.Push(x), ys) == PushAll(l, [x] + ys)
    decreases |ys|
  {
    if |ys| > 0 {
      var k := |ys| - 1;
      var zs := [x] + ys;
      PushAllFront(l, x, ys[..k]);
      PushAllLast(l.Push(x), ys);
      PushAllLast(l, zs);
      assert zs[..|zs| - 1] == [x] + ys[..k] && zs[|zs| - 1] == ys[k];
    } else {
      assert [x] + ys == [x];
      PushAllLast(l, [x]);
      assert [x][..0] == [];
    }
  }

  lemma PushAllLast(l: Line, xs: seq<real>)
    requires l.Valid() && |xs| > 0
    ensures PushAll(l, xs) == PushAll(l, xs[..|xs| - 1]).Push(xs[|xs| - 1])
  {
  }

  /** The value a delay of size d should emit once it has consumed `xs`:
      the input consumed d updates earlier, or 0 while fewer than d have
      been consumed. */
  function Delayed(d: nat, xs: seq<real>): (v: real)
    requires d >= 1
  {
    if |xs| >= d then xs[|xs| - d] else 0.0
  }

  /** A positive multiple of d is at least d. */
  lemma {:induction false} MultipleAtLeast(d: int, t: int)
    requires d >= 1 && t >= 1
    ensures d * t >= d
    decreases t
  {
    if t > 1 {
      MultipleAtLeast(d, t - 1);
      assert d * t == d * (t - 1) + d;
    }
  }

  /** If x and y differ by a multiple of d that lies strictly between
      -d and d, they are equal. */
  lemma {:induction false} SmallMultiple(d: int, t: int, e: int)
    requires d >= 1 && e == d * t && -d < e < d
    ensures t == 0 && e == 0
  {
    if t >= 1 {
      MultipleAtLeast(d, t);
    }
  }

  /** Two integers whose distance is strictly between 0 and d never share
      a slot of a buffer of size d. */
  lemma {:induction false} DistinctSlots(u: int, k: int, d: nat)
    requires d >= 1 && u < k < u + d
    ensures u % d != k % d
  {
    var qu, qk := u / d, k / d;
    assert u == d * qu + u % d;
    assert k == d * qk + k % d;
    if u % d == k % d {
      assert k - u == d * qk - d * qu;
      assert d * qk - d * qu == d * (qk - qu);
      SmallMultiple(d, qk - qu, k - u);
    }
  }

  /** Stepping back a whole buffer length lands on the same slot. */
  lemma {:induction false} SlotPeriodic(k: int, d: nat)
    requires d >= 1
    ensures (k - d) % d == k % d
  {
    var q, r := k / d, k % d;
    var q', r' := (k - d) / d, (k - d) % d;
    assert k == d * q + r;
    assert k - d == d * q' + r';
    assert d * q - d - d * q' == r' - r;
    assert d * q - d - d * q' == d * (q - 1 - q');
    SmallMultiple(d, q - 1 - q', r' - r);
  }

  /** The slot of index u holds the value consumed at step u, or 0 for the
      d positions before the first update, for the last d steps. */
  ghost predicate Remembers(l: Line, xs: seq<real>)
    requires l.Valid()
  {
    && l.idx == |xs|
    && forall u :: |xs| - |l.buf| <= u < |xs| ==>
         l.buf[u % |l.buf|] == (if u >= 0 then xs[u] else 0.0)
  }

  lemma {:induction false} PushAllRemembers(d: nat, xs: seq<real>)
    requires d >= 1
    ensures Remembers(PushAll(Fresh(d), xs), xs)
    decreases |xs|
  {
    if |xs| > 0 {
      var k := |xs| - 1;
      var ys := xs[..k];
      var l := PushAll(Fresh(d), ys);
      PushAllRemembers(d, ys);
      var l' := l.Push(xs[k]);
      assert l' == PushAll(Fresh(d), xs);
      forall u | |xs| - d <= u < |xs|
        ensures l'.buf[u % d] == (if u >= 0 then xs[u] else 0.0)
      {
        if u == k {
          assert l.Slot() == k % d;
        } else {
          DistinctSlots(u, k, d);
          assert u % d != l.Slot();
          assert l'.buf[u % d] == l.buf[u % d];
          if u >= 0 {
            assert xs[u] == ys[u];
          }
        }
      }
    }
  }

  /** A delay line of size d started fresh emits, after consuming `xs`,
      exactly the input consumed d updates earlier (0 for the first d). */
  lemma EmitIsDelayed(d: nat, xs: seq<real>)
    requires d >= 1
    ensures PushAll(Fresh(d), xs).Emit() == Delayed(d, xs)
  {
    var l := PushAll(Fresh(d), xs);
    PushAllRemembers(d, xs);
    var k := |xs|;
    SlotPeriodic(k, d);
    assert l.buf[(k - d) % d] == (if k - d >= 0 then xs[k - d] else 0.0);
  }
}
