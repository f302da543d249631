/** Nodes, port bindings and the arena that holds a signal-flow graph.
    A flowdsp node pointer becomes an index into the arena; a node's private state (the delay buffer) lives in its kind. */
module Graph {
  import opened Wrappers
  import opened DelayLine

  type NodeId = nat

  /** The producer end of an input binding: a node and one of its outputs. */
  datatype Binding = Binding(node: NodeId, port: nat)

  /** The node library. External things are named by handles that an
      `Env` resolves: the variable a reference source follows, the
      function a callback source or callback block invokes. */
  datatype Kind =
    | ConstSrc(c: real)
    | RefSrc(variable: nat)
    | CallbackSrc(source: nat)
    | Sum
    | Mul
    | CallbackFunc(func: nat)
    | Delay(line: Line)
    | Mux

  /** The protocol state of one node: its input bindings, cached outputs,
      the tick it last computed and the reentrancy flag. */
  datatype Node = Node(
    kind: Kind,
    inputs: seq<Option<Binding>>,
    outputs: seq<real>,
    lastTick: int,
    inRead: bool)

  type Arena = seq<Node>

  /** What the world outside the graph supplies at read time: the current
      value of each referenced variable, what each sample callback returns
      and each unary callback function. */
  datatype Env = Env(vars: nat -> real, samples: nat -> real, funcs: nat -> real -> real)

  /** The tick no node has computed yet. */
  const NoTick: int := -1

  /** The base constructor: every input unbound, every output 0, no tick
      computed, not in a read. */
  function NewNode(kind: Kind, numInputs: nat, numOutputs: nat): (nd: Node)
    ensures |nd.inputs| == numInputs && |nd.outputs| == numOutputs
    ensures forall i :: 0 <= i < numInputs ==> nd.inputs[i].None?
    ensures forall j :: 0 <= j < numOutputs ==> nd.outputs[j] == 0.0
    ensures nd.lastTick == NoTick && !nd.inRead && nd.kind == kind
  {
    Node(kind, seq(numInputs, _ => None), seq(numOutputs, _ => 0.0), NoTick, false)
  }

  /** The constructors of the node library: each passes its kind's port
      counts to the base constructor. */
  function NewConstSrc(c: real): (nd: Node)
    ensures ShapeOk(nd) && nd.kind == ConstSrc(c) && nd.outputs == [0.0]
  {
    NewNode(ConstSrc(c), 0, 1)
  }

  function NewRefSrc(variable: nat): (nd: Node)
    ensures ShapeOk(nd) && nd.kind == RefSrc(variable) && nd.outputs == [0.0]
  {
    NewNode(RefSrc(variable), 0, 1)
  }

  function NewCallbackSrc(source: nat): (nd: Node)
    ensures ShapeOk(nd) && nd.kind == CallbackSrc(source) && nd.outputs == [0.0]
  {
    NewNode(CallbackSrc(source), 0, 1)
  }

  function NewSum(numInputs: nat): (nd: Node)
    ensures ShapeOk(nd) && nd.kind == Sum && |nd.inputs| == numInputs && nd.outputs == [0.0]
  {
    NewNode(Sum, numInputs, 1)
  }

  function NewMul(numInputs: nat): (nd: Node)
    ensures ShapeOk(nd) && nd.kind == Mul && |nd.inputs| == numInputs && nd.outputs == [0.0]
  {
    NewNode(Mul, numInputs, 1)
  }

  function NewCallbackFunc(func: nat): (nd: Node)
    ensures ShapeOk(nd) && nd.kind == CallbackFunc(func) && nd.inputs == [None] && nd.outputs == [0.0]
  {
    NewNode(CallbackFunc(func), 1, 1)
  }

  /** A mux of 0 inputs is constructible, but it is not `ShapeOk`: its
      `getInput(0)` would throw. */
  function NewMux(numInputs: nat): (nd: Node)
    ensures nd.kind == Mux && |nd.inputs| == numInputs && nd.outputs == [0.0]
    ensures ShapeOk(nd) <==> numInputs >= 1
  {
    NewNode(Mux, numInputs, 1)
  }

  /** `delay(d)`: one input, one output, and a line of d zeros that
      emits 0 first. */
  function NewDelay(numDelay: nat): (nd: Node)
    requires numDelay >= 1
    ensures ShapeOk(nd) && nd.kind == Delay(Fresh(numDelay)) && nd.inputs == [None] && nd.outputs == [0.0]
    ensures nd.kind.line.Emit() == 0.0
  {
    NewNode(Delay(Fresh(numDelay)), 1, 1)
  }

  /** The port counts each kind is constructed with. */
  predicate ShapeOk(nd: Node) {
    && |nd.outputs| == 1
    && match nd.kind
       case ConstSrc(_) => |nd.inputs| == 0
       case RefSrc(_) => |nd.inputs| == 0
       case CallbackSrc(_) => |nd.inputs| == 0
       case CallbackFunc(_) => |nd.inputs| == 1
       case Delay(line) => |nd.inputs| == 1 && line.Valid()
       case Mux => |nd.inputs| >= 1
       case _ => true
  }

  /** A binding names a node of the arena and one of that node's outputs. */
  predicate BindingOk(a: Arena, b: Binding) {
    b.node < |a| && b.port < |a[b.node].outputs|
  }

  /** Every node has its constructed shape and every binding resolves. */
  predicate WellFormed(a: Arena) {
    forall i :: 0 <= i < |a| ==>
      && ShapeOk(a[i])
      && forall j :: 0 <= j < |a[i].inputs| && a[i].inputs[j].Some? ==> BindingOk(a, a[i].inputs[j].value)
  }

  /** `rank` witnesses that the graph without the input edges of delay
      nodes is acyclic: every other node reads only nodes of lower rank. */
  predicate Ranked(a: Arena, rank: seq<nat>)
    requires WellFormed(a)
  {
    && |rank| == |a|
    && forall i, j :: 0 <= i < |a| && 0 <= j < |a[i].inputs| && a[i].inputs[j].Some? && !a[i].kind.Delay? ==>
         rank[a[i].inputs[j].value.node] < rank[i]
  }

  predicate Valid(a: Arena, rank: seq<nat>) {
    WellFormed(a) && Ranked(a, rank)
  }

  /** Two kinds agree up to the contents of a delay buffer. */
  predicate SameKind(k: Kind, k': Kind) {
    if k.Delay? then k'.Delay? && |k'.line.buf| == |k.line.buf| else k' == k
  }

  /** The wiring and shape of the graph: arena size, every node's kind up
      to its delay buffer contents, its bindings and its output count. */
  predicate SameGraph(a: Arena, b: Arena) {
    && |b| == |a|
    && forall i :: 0 <= i < |a| ==>
         && SameKind(a[i].kind, b[i].kind)
         && b[i].inputs == a[i].inputs
         && |b[i].outputs| == |a[i].outputs|
  }

  /** What a completed read never changes: the graph and every node's
      reentrancy flag. */
  predicate Stable(a: Arena, b: Arena) {
    && SameGraph(a, b)
    && forall i :: 0 <= i < |a| ==> b[i].inRead == a[i].inRead
  }

  lemma StableValid(a: Arena, b: Arena, rank: seq<nat>)
    requires Valid(a, rank) && SameGraph(a, b)
    ensures Valid(b, rank)
  {
    forall i | 0 <= i < |b|
      ensures ShapeOk(b[i])
    {
      assert ShapeOk(a[i]);
    }
  }

  /** Nodes not currently inside a read. */
  function Idle(a: Arena): (s: set<NodeId>) {
    set i | 0 <= i < |a| && !a[i].inRead
  }

  lemma StableIdle(a: Arena, b: Arena)
    requires Stable(a, b)
    ensures Idle(b) == Idle(a)
  {
    assert forall i :: i in Idle(b) <==> i in Idle(a);
  }

  datatype BindError = InexistentPort | OutOfRange

  /** `bind` as written: the producer port is compared with THIS node's
      input count (not the slot), and only then is the slot range-checked
      by `at`. A null producer clears the slot. */
  function Bind(nd: Node, slot: nat, producer: Option<NodeId>, port: nat): (r: Result<Node, BindError>)
    ensures r.Ok? <==> port < |nd.inputs| && slot < |nd.inputs|
    ensures r.Err? ==> (r.error == InexistentPort <==> port >= |nd.inputs|)
    ensures r.Ok? ==> |r.value.inputs| == |nd.inputs|
    ensures r.Ok? ==> r.value.inputs[slot] == (if producer.Some? then Some(Binding(producer.value, port)) else None)
    ensures r.Ok? ==> forall j :: 0 <= j < |nd.inputs| && j != slot ==> r.value.inputs[j] == nd.inputs[j]
    ensures r.Ok? ==> r.value.(inputs := nd.inputs) == nd
  {
    if port < |nd.inputs| then
      if slot < |nd.inputs| then
        var b := match producer case Some(p) => Some(Binding(p, port)) case None => None;
        Ok(nd.(inputs := nd.inputs[slot := b]))
      else
        Err(OutOfRange)
    else
      Err(InexistentPort)
  }

  /** `consumer.bind(slot, producer, port)` inside an arena. */
  function BindIn(a: Arena, consumer: NodeId, slot: nat, producer: Option<NodeId>, port: nat): (r: Result<Arena, BindError>)
    requires consumer < |a|
    ensures r.Ok? <==> Bind(a[consumer], slot, producer, port).Ok?
    ensures r.Ok? ==> |r.value| == |a| && forall i :: 0 <= i < |a| && i != consumer ==> r.value[i] == a[i]
  {
    match Bind(a[consumer], slot, producer, port)
    case Ok(nd) => Ok(a[consumer := nd])
    case Err(e) => Err(e)
  }

  /** Binding a slot to an existing node and one of its outputs keeps the
      arena well formed. */
  lemma BindKeepsWellFormed(a: Arena, consumer: NodeId, slot: nat, producer: Option<NodeId>, port: nat)
    requires WellFormed(a) && consumer < |a|
    requires producer.Some? ==> BindingOk(a, Binding(producer.value, port))
    ensures BindIn(a, consumer, slot, producer, port).Ok? ==> WellFormed(BindIn(a, consumer, slot, producer, port).value)
  {
    var r := BindIn(a, consumer, slot, producer, port);
    if r.Ok? {
      var b := r.value;
      forall i | 0 <= i < |b|
        ensures ShapeOk(b[i])
      {
        assert ShapeOk(a[i]);
      }
      forall i, j | 0 <= i < |b| && 0 <= j < |b[i].inputs| && b[i].inputs[j].Some?
        ensures BindingOk(b, b[i].inputs[j].value)
      {
        assert b[b[i].inputs[j].value.node].outputs == a[b[i].inputs[j].value.node].outputs;
        if i != consumer || j != slot {
          assert b[i].inputs[j] == a[i].inputs[j];
        }
      }
    }
  }

  /** The port check of `bind` looks at the consumer's input count, not
      at the producer's outputs: a sum of 3 inputs accepts output 2 of a
      constant source, which has a single output, and the arena stops
      being well formed. */
  lemma BindAcceptsMissingOutput()
    ensures var a := [NewConstSrc(1.0), NewSum(3)];
            && WellFormed(a)
            && BindIn(a, 1, 0, Some(0), 2).Ok?
            && !WellFormed(BindIn(a, 1, 0, Some(0), 2).value)
  {
    var a := [NewConstSrc(1.0), NewSum(3)];
    var b := BindIn(a, 1, 0, Some(0), 2).value;
    assert b[1].inputs[0] == Some(Binding(0, 2));
    assert !BindingOk(b, b[1].inputs[0].value);
  }
}
