# flowdsp: the pull-based node protocol, in Dafny

flowdsp is a small C++ signal-flow library. A program builds a graph of
processing nodes (`dspnode`), wires each node's input slots to other nodes'
outputs with `bind`, and then pulls values out of it one tick at a time with
`read(tick, port)`. Each node memoizes its outputs per tick. A reentrancy flag
(`inRead`) breaks cycles: a node that is asked for its output while it is
already computing re-runs only its `process` step. The node library is built
on that protocol: constant, reference and callback sources, sum, product,
unary callback, delay line and multiplexer.

This project models that core over an arena of nodes.

- `wrappers.dfy`: `Option` and `Result`.
- `delay_line.dfy` (module `DelayLine`): the circular buffer of `delay`, with
  its running index taken modulo the buffer size. It proves that a fresh
  delay of size d emits exactly the input consumed d updates earlier.
- `graph.dfy` (module `Graph`): nodes, kinds, bindings, the base constructor
  and every concrete node's constructor, well-formedness, and `bind`.
- `combinators.dfy` (module `Combinators`): the folds of `sum` and `mul`, and
  the input selection of `mux`, with the C++ `int()` cast as truncation
  toward zero.
- `protocol.dfy` (module `Protocol`): `read`, `getInput`, and the
  `process`/`update` step of every node kind. Each is a function from the
  arena to the arena after the call.
- `protocol_facts.dfy` (module `ProtocolFacts`): the guarantees callers rely
  on, as all-inputs lemmas:
  - memoization per tick;
  - what sources read;
  - the reentrant read of a delay;
  - neutral values of unbound inputs;
  - a frame property: a read touches only what it can reach.
- `source_reads.dfy` (module `SourceReads`): the exact value and final arena
  of a sum, product, callback block, mux or delay whose inputs are sources.
- `delay_reads.dfy` (module `DelayReads`): a reference source feeding a
  delay, read once per tick while the variable changes between reads. The
  delay returns the variable's value from d reads earlier.
- `integrator.dfy` and `test_cases.dfy` (modules `Integrator` and
  `TestCases`): the library's test cases, stated as lemmas over the model.
  The integrator lemma `Builds` builds its graph with the three `bind` calls
  of its test.

A node pointer becomes an index into the arena. A node's private state lives
in its kind (`Delay(line)`). The outside world — the variable a reference
source follows, the sample and function callbacks — is an `Env` parameter
fixed for the duration of one read.

Termination of `read` does not follow from the code alone: reading a node
that can reach a cycle through no delay, and that actually runs `process`
along it, recurses without bound. The model therefore carries a `rank` for
each node, and every non-delay node reads only nodes of lower rank
(`Graph.Ranked`). The measure is the number of nodes not currently inside a
read, then the rank. A rank is a sufficient condition for termination, not
a necessary one, and it is required of the whole arena. It therefore also
excludes graphs the code evaluates in finite time:

- a delay-free cycle that the node being read cannot reach;
- a mux bound to itself on an input its selector never picks;
- a sum bound to itself that is only ever read at its last tick, where
  `read` skips `process`.

Facts about the code that the model follows:

- `bind` compares the producer port with the consumer's own input count and
  throws if it is not smaller. Only after that is the slot range-checked, by
  `at`. The producer's outputs are never consulted.
  `Graph.BindAcceptsMissingOutput` shows an accepted binding to an output the
  producer does not have.
- Every non-reentrant `read` runs `update` after the memoization check, even
  when the tick is unchanged. So reading a delay node twice at the same tick
  consumes its input twice and advances its buffer. Such a second read can
  also return a different value than the first: when input 0 leads back to
  the delay, the re-entered delay re-runs `process` and overwrites its cached
  output with what its line emits before the push. The integrator still
  returns 3, 3 for two reads at tick 0, because the node read there is the
  sum, and a memoized sum touches nothing.
- `read` indexes `outputs[port]` without a bounds check.

## Model

| member | source | states |
|---|---|---|
| Graph.NewNode | src/flowdsp.hpp:25-27 | a constructed node has the requested numbers of inputs and outputs, every input unbound, every output 0, last tick -1 and the flag clear |
| Graph.NewConstSrc | src/flowdsp.hpp:96 | a constant source has no inputs, one output initialised to 0, and its constructed shape |
| Graph.NewRefSrc | src/flowdsp.hpp:106 | a reference source has no inputs, one output initialised to 0, and its constructed shape |
| Graph.NewCallbackSrc | src/flowdsp.hpp:85-86 | a callback source has no inputs, one output initialised to 0, and its constructed shape |
| Graph.NewSum | src/flowdsp.hpp:115 | a sum of N has N inputs and one output initialised to 0 |
| Graph.NewMul | src/flowdsp.hpp:129 | a product of N has N inputs and one output initialised to 0 |
| Graph.NewCallbackFunc | src/flowdsp.hpp:145 | a callback block has one unbound input and one output initialised to 0 |
| Graph.NewMux | src/flowdsp.hpp:169 | a mux of N has N inputs and one output; it has a usable shape exactly when N >= 1, since its `process` reads input 0 |
| Graph.NewDelay | src/flowdsp.hpp:156-159 | `delay(d)` has one unbound input, one output initialised to 0, and a fresh line of d zeros that emits 0 first |
| Graph.Bind | src/flowdsp.hpp:29-36 | bind succeeds exactly when the port is below the consumer's input count and the slot is in range; a bad port is reported before a bad slot; on success only the named slot changes, to the producer and port or to unbound for a null producer |
| Graph.BindIn | src/flowdsp.hpp:29-36 | binding inside an arena succeeds exactly when `Bind` does and changes no other node |
| Graph.BindKeepsWellFormed | src/flowdsp.hpp:29-36 | binding a slot to an existing producer output keeps every binding of the graph resolvable |
| Graph.BindAcceptsMissingOutput | src/flowdsp.hpp:30-33 | the port check is against the consumer's inputs: a sum of 3 accepts output 2 of a one-output source, and the graph is no longer well formed |
| DelayLine.Line.Slot | src/flowdsp.hpp:160-161 | `dlyIndex % size` is a valid buffer position, and equals the index until the index wraps |
| DelayLine.Line.Emit | src/flowdsp.hpp:160 | `process` emits the slot under the index: before the index wraps, the slot at the index itself; for a one-sample delay, its only cell |
| DelayLine.Line.Push | src/flowdsp.hpp:161 | `update` writes the value into the slot under the index, leaves every other slot as it was, keeps the size and advances the index by one; a one-sample delay then emits the value just written |
| DelayLine.PushAllFront | src/flowdsp.hpp:161 | consuming x and then ys leaves the line as consuming [x] + ys does |
| DelayLine.Fresh | src/flowdsp.hpp:156-159 | a new delay line of size d holds d zeros at index 0 |
| DelayLine.PushAll | src/flowdsp.hpp:161 | after consuming n values, the line keeps its size and its index has advanced by n |
| DelayLine.PushAllRemembers | src/flowdsp.hpp:160-161 | after consuming xs, the slot of each of the last d indices u holds xs[u] (0 before the first update) |
| DelayLine.EmitIsDelayed | src/flowdsp.hpp:152-162 | a fresh delay of size d, after consuming xs, emits the input consumed d updates earlier, or 0 while fewer than d were consumed |
| Combinators.SumOf | src/flowdsp.hpp:116-121 | the sum loop over non-negative inputs gives a non-negative total, and over non-positive inputs a non-positive one (its splitting over concatenation is `SumSplits`) |
| Combinators.ProductOf | src/flowdsp.hpp:130-135 | the product loop over non-negative inputs gives a non-negative product (its splitting over concatenation is `ProductSplits`) |
| Combinators.NeutralInputs | src/flowdsp.hpp:116-135 | all-zero inputs sum to 0 and multiply to 0, except that the empty product is 1 |
| Combinators.SumSplits | src/flowdsp.hpp:116-121 | the accumulating loop of sum splits over concatenated inputs: the sum of xs + ys is the sum of xs plus the sum of ys |
| Combinators.ProductSplits | src/flowdsp.hpp:130-135 | the accumulating loop of mul splits over concatenated inputs: the product of xs + ys is the product of xs times the product of ys |
| Combinators.Trunc | src/flowdsp.hpp:174 | `int(x)` truncates toward zero: below x by less than 1 for x >= 0, above it by less than 1 for x < 0 |
| Combinators.MuxIndex | src/flowdsp.hpp:171-174 | the selected input is always an existing input, and never the selector itself when there are at least two inputs |
| Combinators.MuxSelectsNearest | src/flowdsp.hpp:170-175 | the selector is rounded half-up and saturated: below 1.5 selects input 1, from n-1.5 on selects input n-1, otherwise the input j with j-0.5 <= sel < j+0.5 |
| Combinators.MuxTable | test/test_flowdsp.cpp:85-103 | a 3-input mux maps selector values 0, 1, 2, 100 and -100 to inputs 1, 1, 2, 2 and 1 |
| Protocol.SetOut | src/flowdsp.hpp:87 | `outputs.at(0) = v` sets output 0 to v and changes nothing else: no other node, not the node's kind, tick or graph |
| Protocol.Read | src/flowdsp.hpp:40-55 | a read changes no wiring or flags and moves ticks only to the tick read; it returns the node's cached output; a non-reentrant read records the tick; a repeated read of a non-delay node at its last tick returns the cache and changes nothing; every non-reentrant read of a delay advances it by one update; a delay read at a new tick, or reentrantly, returns the value buffered under its index; a delay read again at its last tick returns its cached output or, when its input re-enters it, the value buffered under its index before the update |
| Protocol.ReadIdle | src/flowdsp.hpp:44-52 | the non-reentrant branch records the tick, skips all work at an unchanged tick for non-delay nodes, and pushes exactly one value into a delay; at an unchanged tick a delay's outputs stay as they were or get output 0 re-emitted from its line |
| Protocol.Refresh | src/flowdsp.hpp:46-49 | `process` runs only when the tick differs from the last one; then the tick is recorded and a delay's output is the value under its index |
| Protocol.GetInput | src/flowdsp.hpp:59-64 | an unbound slot reads 0 and changes nothing; a bound one obeys the contract of a read |
| Protocol.ReadInputs | src/flowdsp.hpp:116-135 | the loops of sum and mul read one value per input slot, 0 for unbound slots, and change nothing when every slot is unbound |
| Protocol.Process | src/flowdsp.hpp:74-176 | every kind's `process` keeps the graph and the flags, moves ticks only to the tick read, and keeps the tick and private state (kind, delay line) of every node inside a read; the outputs of such a delay either stay or get output 0 re-emitted from its line, and stay when they already show what the line emits |
| Protocol.Update | src/flowdsp.hpp:161 | `update` changes nothing for non-delay nodes; for a delay inside a read it writes one value into the slot under the index and advances the index, keeping its tick; its outputs stay or get output 0 re-emitted from the line as it was before the push, and stay when they already show what the line emits (input 0 can re-enter the delay through a cycle and re-run `process`); with input 0 unbound, the value written is 0 and nothing else changes |
| ProtocolFacts.ReadIdempotent | src/flowdsp.hpp:40-55 | right after a non-reentrant read of a non-delay node, a second read at the same tick returns the same value and changes nothing, however the outside world has changed |
| ProtocolFacts.FreshReadAtNoTick | src/flowdsp.hpp:40-53 | a node that has computed no tick and whose outputs are still 0, with any bindings, read at tick -1 returns 0: a non-delay node is left unchanged, and a delay with a fresh line keeps its output and tick while its line consumes what input 0 reads |
| ProtocolFacts.UpdateConsumesInput | src/flowdsp.hpp:161 | a delay's `update` writes exactly the value `getInput(0)` returns, into the line as it was before that read; the rest of the arena is as that read left it |
| ProtocolFacts.DriveIsFollow | src/flowdsp.hpp:40-55 | reading once per tick under an unchanging outside world is the general driver loop with the same world at every read |
| ProtocolFacts.ReadSource | src/flowdsp.hpp:82-108 | a source read returns its constant, its variable's current value or its callback's result, records the tick and changes no other node; at its last tick it returns its cache, which the lemma's readiness condition makes equal to the current value — a stale cache after the variable changed is the memo clause of `Protocol.Read` |
| ProtocolFacts.ReentrantDelayRead | src/flowdsp.hpp:41-43 | a delay already inside a read re-runs only `process`: it returns its buffered value and changes nothing but its own output |
| ProtocolFacts.UnboundCombinator | src/flowdsp.hpp:113-136 | a sum or product with every input unbound reads 0, except that a product of no inputs reads 1, and changes only its own node |
| ProtocolFacts.ReadFrame | src/flowdsp.hpp:40-64 | a read leaves every node outside a binding-closed set containing the node read exactly as it was |
| ProtocolFacts.ReadIdleFrame | src/flowdsp.hpp:44-52 | the non-reentrant branch touches only the binding-closed set of the node |
| ProtocolFacts.RefreshFrame | src/flowdsp.hpp:46-49 | running `process` for a new tick touches only the binding-closed set of the node |
| ProtocolFacts.ProcessFrame | src/flowdsp.hpp:74-176 | every kind's `process` touches only the binding-closed set of the node |
| ProtocolFacts.GetInputFrame | src/flowdsp.hpp:59-64 | reading an input touches only the binding-closed set of the consumer |
| ProtocolFacts.ReadInputsFrame | src/flowdsp.hpp:116-135 | the input loops of sum and mul touch only the binding-closed set of the node |
| ProtocolFacts.UpdateFrame | src/flowdsp.hpp:161 | a delay's `update` touches only the binding-closed set of the node |
| SourceReads.GetInputFromSource | src/flowdsp.hpp:59-64 | a slot fed by a source reads the source's current value, and the arena afterwards is the one with that source refreshed |
| SourceReads.ReadInputsFromSources | src/flowdsp.hpp:116-135 | over source inputs, the loops of sum and mul read the sources' values in slot order and refresh each source once |
| SourceReads.ReadThroughProcess | src/flowdsp.hpp:44-52 | a non-reentrant read at a new tick of a node without `update` returns what its `process` computed, with the tick recorded and the flag lowered |
| SourceReads.CombineSources | src/flowdsp.hpp:113-136 | a sum (product) of source inputs read at a new tick returns the sum (product) of the sources' values, and the final arena is exact |
| SourceReads.CallbackOfSource | src/flowdsp.hpp:142-147 | a callback block fed by a source returns its function applied to the source's value |
| SourceReads.DelayOfSource | src/flowdsp.hpp:40-64 | a delay fed by a source (or unbound), read at a new tick, returns its buffered value; the source is refreshed, and the line consumes the source's value (0 when unbound), with the tick recorded |
| SourceReads.MuxOverSources | src/flowdsp.hpp:167-176 | a mux over sources reads its selector, then only the selected input, returns that input's value, and changes nothing else |
| DelayReads.TapBuilds | src/flowdsp.hpp:29-36 | binding a fresh delay's input to a fresh reference source succeeds and gives the tap at tick -1 with every value 0 |
| DelayReads.TapStep | src/flowdsp.hpp:152-162 | a read of the source-fed delay at a new tick returns the value under its index; the source takes the variable's current value, and the line consumes it |
| DelayReads.TapFollows | src/flowdsp.hpp:152-162 | reading the source-fed delay at ticks that each differ from the one before, the i-th read returns what the line emits after consuming the first i values of the variable |
| DelayReads.FreshTap | src/flowdsp.hpp:152-162 | a fresh `delay(d)` fed by a reference source, read at changing ticks, returns at read i the variable's value at read i-d, or 0 for the first d reads |
| Integrator.Builds | test/test_flowdsp.cpp:52-57 | the three binds of the integrator test, applied to fresh nodes, succeed and give the loop at tick -1 with every value 0 |
| Integrator.Step | src/flowdsp.hpp:152-162 | in the integrator, a read of the sum at a new tick returns 1 plus the delay's content, which the delay then stores |
| Integrator.Again | src/flowdsp.hpp:46-49 | in the integrator, a read at the last tick returns the cached sum and changes nothing |
| Integrator.Sequence | src/flowdsp.hpp:40-55 | for any two distinct ticks p and q (p other than -1), reads of the integrator at p, q, p, p, q return 1, 2, 3, 3, 4: the output depends only on the order of tick changes, not on the tick values |
| Integrator.IntegratorTest | test/test_flowdsp.cpp:58-62 | reads of the integrator at ticks 0, 1, 0, 0, 1 return 1, 2, 3, 3, 4 |
| TestCases.ConstantSource | test/test_flowdsp.cpp:6-9 | a constant source of 3 reads 3 |
| TestCases.ReferenceSource | test/test_flowdsp.cpp:22-32 | a reference source reads 1 and then 5 as its variable changes; at the same tick it keeps 5 after the variable becomes -17; at another tick it reads -17 |
| TestCases.SumOfSources | test/test_flowdsp.cpp:12-20 | a callback source returning 2 plus a constant 3 reads 5 at tick 0 and 5 at tick 1 |
| TestCases.ProductOfConstants | test/test_flowdsp.cpp:34-41 | the product of constants 3, 4 and 1.5 reads 18 |
| TestCases.CallbackOfConstant | test/test_flowdsp.cpp:43-49 | the callback 2y+1 applied to a constant 2.5 reads 6 |
| TestCases.MuxSelection | test/test_flowdsp.cpp:85-103 | with the selector at 0, 1, 2, 100 and -100 at alternating ticks, the mux reads 1, 1, 2, 2 and 1 |

## Left out

- Floating point: `Tflow` is `double` and is modelled as `real`. Rounding, overflow, infinities and NaN are not modelled.
- Callbacks and referenced variables are values of `Env`, fixed during one read. A callback that itself reads the graph, or has side effects, is not modelled.
- Protocol.Read: requires `port` to be below the node's output count. `outputs[port]` is unchecked in the code, and reading past the end is undefined behaviour.
- Protocol.ReadIdle: its own contract, like that of `Protocol.Read`, says only that a delay consumes one value into the slot under its index. Which value is stated separately: `ProtocolFacts.UpdateConsumesInput` for any input, `SourceReads.DelayOfSource` for a source input. Putting the input's read into the contracts of the mutually recursive protocol functions themselves would make their proofs much more expensive.
- Protocol.Read: requires a rank witnessing that every cycle passes through a delay. That is sufficient for termination but not necessary. It also excludes graphs whose delay-free cycles the code never follows (see above).
- Exceptions thrown by `at` are not modelled as outcomes of `read`. They are excluded by well-formedness: each node has its constructed port counts, and every binding names an existing node and output. An exception escaping `read` would leave `inRead` set; that is not modelled either.
- A delay of size 0 is not modelled: the delay constructor requires a size of at least 1, because `delay(0)` takes a remainder modulo zero in `process`.
- A mux of 0 inputs is excluded by well-formedness. Its `getInput` throws.
- The running index of a delay line is unbounded. The code's `unsigned int dlyIndex` wraps at 2^32, which changes the slot sequence only after 2^32 updates, and only for sizes that are not powers of two.
- Ticks are unbounded integers rather than `int`. Negative port or input counts, which the C++ `int` constructor parameters admit, are not modelled.
- `delay::update` is modelled with the input read before the slot is written and the index advanced (C++17 sequencing of the assignment).
- `reset` and `cachedData`: declared but never used by the core, so not modelled.
- The `swapPorts` node of the tests: a two-output node defined only in the test file, not in the library.
- The 10^7-read loop of the integrator test: a performance check with nothing to state.
