# Stim circuits and the dense state-vector simulator, in Dafny

This project models two parts of Stim, a library for simulating and analysing
stabilizer circuits.

**The circuit object (`stim.Circuit`).** A circuit is an ordered list of items.
Each item is either an instruction or a `REPEAT count { body }` block. An
instruction has a gate, a list of targets, a list of parens arguments and a tag.
A block has a repeat count, a body circuit and a tag. The circuit's behaviour is
pinned down by the binding's test file, and the model follows it:

- appending validates the instruction (the gate name, the argument count and
  values, the target modifiers, record lookbacks, pairing for two-qubit gates)
  and leaves the circuit unchanged when it refuses;
- an appended instruction fuses with the last one when both have the same gate,
  arguments and tag;
- concatenation (`+`, `+=`) and repetition (`*`, `*=`);
- the counters `num_detectors`, `num_ticks` and `num_observables`, multiplied
  through nested repeat blocks;
- Python indexing, slicing with any step, `insert` and `pop`;
- `flattened()`, `without_noise()` and `inverse()`.

Module `Circuits` (`circuit.dfy`) holds the circuit as a value and its pure
operations. Module `CircuitTransforms` (`transforms.dfy`) holds the three
whole-circuit rewrites. Module `CircuitObject` (`circuit_object.dfy`) holds the
mutable `Circuit` class, whose in-place methods are stated through those
functions. Module `CircuitExamples` (`circuit_examples.dfy`) proves the results
the tests expect on their concrete circuits. Module `Gates` (`gates.dfy`) is
the gate vocabulary and its static facts.

**The dense state-vector simulator (`VectorSim`, `vector_sim.cc`).** The state
is a buffer of 2^n complex amplitudes held in an `array`. Module
`VectorSimulator` (`vector_sim.dfy`) models these operations:

- the constructor;
- `mat_vec_mul`;
- `apply(matrix, qubits)`, which builds the mask table, gathers each group of
  amplitudes `base | masks[k]`, multiplies it by the matrix and scatters the
  results back in place;
- the named-gate overloads, which look the gate up in `GATE_UNITARIES`;
- the `PauliString` overload.

Amplitudes are exact numbers `a + b*sqrt(2)` with real `a` and `b`. That is
enough to write every entry of the gate table exactly: its `0.7071…` constant
is `1/sqrt(2)`. Module `Bits` (`bits.dfy`) defines the `|`, `&` and `& ~`
operations on indices bit by bit.

## Model

| member | source | states |
|---|---|---|
| `Gates.Lookup` | src/stim/circuit/circuit_pybind_test.py:67-84 | gate names and aliases (CNOT for CX, CORRELATED_ERROR for E) resolve to gates; anything else is not found |
| `Gates.ArgRule` | src/stim/circuit/circuit_pybind_test.py:613-623 | how many parens arguments each gate takes: exactly one for the single-probability channels, E and OBSERVABLE_INCLUDE; 3 for PAULI_CHANNEL_1 and 15 for PAULI_CHANNEL_2; any number for coordinates, DETECTOR and the identity errors; none or one for measurements; none for the rest |
| `Gates.InverseGate` | src/stim/circuit/circuit_pybind_test.py:1145-1152 | the inverse of each invertible gate: S and S_DAG swap, as do the other square-root pairs and SPP with SPP_DAG; the Paulis, H, CX, CZ, SWAP and TICK are their own inverses |
| `Gates.Fusable` | src/stim/circuit/circuit_pybind_test.py:2226-2236 | the gates whose adjacent instructions may merge: everything except the annotations, TICK and the correlated-error pair |
| `Gates.LookupName` | src/stim/circuit/circuit_pybind_test.py:67-84 | every gate is found under the name the circuit prints for it |
| `Gates.LookupCanonical` | src/stim/circuit/circuit_pybind_test.py:67-84 | a name that resolves (an alias such as CNOT included) prints as a canonical name that resolves to the same gate, so `CNOT 0 1` reads back as `CX 0 1` |
| `Gates.InverseGateInvolution` | src/stim/circuit/circuit_pybind_test.py:1145-1152 | the inverse of a gate's inverse is the gate (S and S_DAG swap), and the inverse takes its targets, arguments and fusion the same way |
| `Circuits.CheckInstruction` | src/stim/circuit/circuit_pybind_test.py:45-65 | the validation an append runs, reporting the first failure in this order: argument count, argument values, targets given to TICK or SHIFT_COORDS, target modifiers and lookbacks, combiner placement, an odd target count for a pair gate |
| `Circuits.PushItem` | src/stim/circuit/circuit_pybind_test.py:67-77 | appending one item: an instruction with the same gate, arguments and tag as the last one is merged into it, targets concatenated |
| `Circuits.Concat` | src/stim/circuit/circuit_pybind_test.py:87-131 | `a + b`: the items of b appended one after the other to a, so a fusible boundary pair merges |
| `Circuits.Mul` | src/stim/circuit/circuit_pybind_test.py:134-166 | `c * k`: empty for k = 0, c itself for k = 1, a circuit that is one repeat block gets its count multiplied and keeps its tag, and anything else is wrapped in an untagged `REPEAT k` |
| `Circuits.Count` | src/stim/circuit/circuit_pybind_test.py:350-366 | occurrences of a gate, a repeat block counting its body's occurrences times its count |
| `Circuits.NumObservables` | src/stim/circuit/circuit_pybind_test.py:369-383 | one more than the largest observable index at any depth, 0 when there is none |
| `Circuits.Get` | src/stim/circuit/circuit_pybind_test.py:386-420 | `c[index]`: the item at index, negative counting from the end, or IndexError outside [-len, len) |
| `Circuits.Slice` | src/stim/circuit/circuit_pybind_test.py:423-449 | `c[start:stop:step]`: the items of the slice range, or a failure for step 0 |
| `Circuits.InsertAt` | src/stim/circuit/circuit_pybind_test.py:1811-1873 | `insert(index, x)`: x spliced in before the resolved index, or IndexError outside [-len, len] |
| `Circuits.PopAt` | src/stim/circuit/circuit_pybind_test.py:1876-1891 | `pop(index)`: the item at the resolved index and the rest, or IndexError outside [-len, len) |
| `Circuits.CheckInstructionCorrect` | src/stim/circuit/circuit_pybind_test.py:45-65 | the append check passes exactly on well-formed instructions: right argument count and values, no targets for TICK, legal modifiers on every target, lookbacks in (-2^30, 0), `*` between Pauli targets, an even target count for two-qubit gates |
| `Circuits.PushItemAtoms` | src/stim/circuit/circuit_pybind_test.py:2226-2236 | appending with fusion applies the same gate to the same targets, with the same tags, in the same order as appending without it |
| `Circuits.PushItemNormalized` | src/stim/circuit/circuit_pybind_test.py:67-77 | appending keeps the circuit in the shape appends build: no two adjacent instructions that could fuse |
| `Circuits.ConcatAtoms` | src/stim/circuit/circuit_pybind_test.py:87-131 | `a + b` applies the operations of a and then those of b, in order |
| `Circuits.ConcatShape` | src/stim/circuit/circuit_pybind_test.py:87-131 | `a + b` is `a` followed by `b` item by item, except that a fusible boundary pair becomes one instruction with a's targets then b's; adding an empty circuit on either side changes nothing |
| `Circuits.ConcatNormalized` | src/stim/circuit/circuit_pybind_test.py:2226-2236 | concatenating two circuits with no fusible neighbours gives a circuit with none |
| `Circuits.ConcatWellFormed` | src/stim/circuit/circuit_pybind_test.py:87-111 | concatenating valid circuits gives a valid circuit |
| `Circuits.FuseWellFormed` | src/stim/circuit/circuit_pybind_test.py:67-77 | fusing two valid instructions gives a valid instruction |
| `Circuits.PushItemWellFormed` | src/stim/circuit/circuit_pybind_test.py:67-84 | appending a valid item to a valid circuit gives a valid circuit |
| `Circuits.MulMul` | src/stim/circuit/circuit_pybind_test.py:134-166 | `(c * a) * b == c * (a * b)` for every non-zero a |
| `Circuits.MulWellFormed` | src/stim/circuit/circuit_pybind_test.py:134-166 | repetition never produces a repeat count of 0 |
| `Circuits.ConcatCount` | src/stim/circuit/circuit_pybind_test.py:350-366 | detector and tick counts add up over concatenation |
| `Circuits.MulCount` | src/stim/circuit/circuit_pybind_test.py:1478-1496 | detector and tick counts multiply through repetition: `count(c * k) == k * count(c)` |
| `Circuits.NumObservablesCorrect` | src/stim/circuit/circuit_pybind_test.py:369-383 | `num_observables` exceeds every observable index used at any depth, and is 0 or one more than an index that is used |
| `Circuits.GetNegative` | src/stim/circuit/circuit_pybind_test.py:386-420 | `c[-j]` succeeds for `1 <= j <= len` and reads the same item as `c[len - j]` |
| `Circuits.Range` | src/stim/circuit/circuit_pybind_test.py:423-449 | the range keeps the slice's step, and every index it visits, after Python's adjustment of start and stop, lies inside the circuit |
| `Circuits.ClampBound` | src/stim/circuit/circuit_pybind_test.py:423-449 | a bound that indexes the circuit (negative counting from the end) resolves to the index Get reads; a bound past the end clamps to len for a positive step, one before the start to -1 for a negative step; the result stays in the step's interval |
| `Circuits.SliceBounds` | src/stim/circuit/circuit_pybind_test.py:423-449 | a start or stop that indexes the circuit is the index of the item Get reads; an omitted start is the first item for a positive step and the last for a negative one; an omitted stop is len for a positive step and -1 for a negative one |
| `Circuits.UpRangeSelects` | src/stim/circuit/circuit_pybind_test.py:440-449 | with a positive step the range starts at lo and visits exactly the indices i with `lo <= i < hi` and `(i - lo) % step == 0`, the k-th visit being `lo + k * step`, so in increasing order |
| `Circuits.DownRangeSelects` | src/stim/circuit/circuit_pybind_test.py:1155-1159 | with a negative step the range starts at lo and visits exactly the indices i with `hi < i <= lo` and `(lo - i) % -step == 0`, the k-th visit being `lo + k * step`, so in decreasing order |
| `Circuits.RangeSelects` | src/stim/circuit/circuit_pybind_test.py:423-449 | the range of any slice with a non-zero step starts at the adjusted start and visits exactly the indices Python selects between the adjusted bounds, the k-th visit k steps from the start |
| `Circuits.SliceStart` | src/stim/circuit/circuit_pybind_test.py:423-449 | the adjusted start lies in [0, len] for a positive step and in [-1, len - 1] for a negative one |
| `Circuits.SliceStop` | src/stim/circuit/circuit_pybind_test.py:423-449 | the adjusted stop lies in the same interval as the start |
| `Circuits.UpRange` | src/stim/circuit/circuit_pybind_test.py:423-449 | with a positive step, the range keeps the step and every index it visits lies inside the circuit |
| `Circuits.DownRange` | src/stim/circuit/circuit_pybind_test.py:1155-1159 | with a negative step, the range keeps the step and every index it visits walking down lies inside the circuit |
| `Circuits.SliceWhole` | src/stim/circuit/circuit_pybind_test.py:1155-1159 | `c[:]` equals c and `c[::-1]` is c reversed |
| `Circuits.SliceItems` | src/stim/circuit/circuit_pybind_test.py:423-449 | a slice with a non-zero step succeeds, and its k-th item is the circuit's item at `start + k * step` |
| `Circuits.SliceCovers` | src/stim/circuit/circuit_pybind_test.py:423-449 | every index Python selects lies inside the circuit, and its item appears in the slice at the position that counts its steps from the start |
| `Circuits.SliceZeroStep` | src/stim/circuit/circuit_pybind_test.py:423-449 | a slice with step 0 is refused |
| `Circuits.PopInsert` | src/stim/circuit/circuit_pybind_test.py:1811-1891 | popping, at the same non-negative index, the item just inserted returns it and restores the circuit |
| `Circuits.InsertShape` | src/stim/circuit/circuit_pybind_test.py:1811-1873 | an insert at `-len <= i <= len` splices x in at `i` (at `len + i` when i is negative): the items before stay, x follows, and the rest move up by `|x|` |
| `CircuitTransforms.AddCoordsAssoc` | src/stim/circuit/circuit_pybind_test.py:982-1009 | summing coordinate shifts is associative, so successive SHIFT_COORDS accumulate regardless of grouping |
| `CircuitTransforms.AddCoordsNone` | src/stim/circuit/circuit_pybind_test.py:885-896 | adding no shift leaves the coordinates as they are |
| `CircuitTransforms.AddCoordsEmpty` | src/stim/circuit/circuit_pybind_test.py:885-896 | shifting from no coordinates gives the shift itself |
| `CircuitTransforms.Flattened` | src/stim/circuit/circuit_pybind_test.py:982-1009 | `flattened()`: blocks written out count times, SHIFT_COORDS dropped and folded into the coordinates of later QUBIT_COORDS and DETECTOR, instructions appended with fusion |
| `CircuitTransforms.WithoutNoise` | src/stim/circuit/circuit_pybind_test.py:964-979 | `without_noise()`: noise channels dropped, measurement flip probabilities cleared, block bodies cleaned, instructions appended with fusion |
| `CircuitTransforms.Inverse` | src/stim/circuit/circuit_pybind_test.py:1145-1152 | `inverse()`: the items in reverse order, each instruction with its inverse gate and its targets reversed (pairs kept together for pair gates), each block with its count, its tag and its body inverted; NotInvertible when some gate has no inverse |
| `CircuitTransforms.FlattenedShape` | src/stim/circuit/circuit_pybind_test.py:982-1009 | `flattened()` leaves no repeat block, no SHIFT_COORDS and no fusible neighbours |
| `CircuitTransforms.FlattenedCounts` | src/stim/circuit/circuit_pybind_test.py:982-1009 | flattening keeps `num_detectors` and `num_ticks` |
| `CircuitTransforms.FlattenedShiftsLaterCoords` | src/stim/circuit/circuit_pybind_test.py:885-896 | the two-item case: `SHIFT_COORDS(d)` then a QUBIT_COORDS or DETECTOR flattens to that one instruction with d added to its coordinates; the shift disappears |
| `CircuitTransforms.FlattenedUnrolls` | src/stim/circuit/circuit_pybind_test.py:982-1009 | for every circuit, `flattened()` applies, in order, the operations of the reference unrolling: blocks written out count times, SHIFT_COORDS dropped, every QUBIT_COORDS and DETECTOR moved by the shifts before it |
| `CircuitTransforms.UnrollAppend` | src/stim/circuit/circuit_pybind_test.py:982-1009 | unrolling `a + b` is unrolling a, then unrolling b under the shift accumulated so far plus the total shift of a |
| `CircuitTransforms.UnrollShiftsLaterCoords` | src/stim/circuit/circuit_pybind_test.py:982-1009 | in any circuit `pre + [inst] + post`, a QUBIT_COORDS or DETECTOR inst is unrolled with the total shift of pre added to its coordinates, and post is unrolled under that shift |
| `CircuitTransforms.FlattenedShiftsCoords` | src/stim/circuit/circuit_pybind_test.py:982-1009 | consequently `flattened()` of `pre + [inst] + post` applies pre's operations, then inst moved by the total shift of pre, then post's operations under that shift |
| `CircuitTransforms.FlatItemsShift` | src/stim/circuit/circuit_pybind_test.py:982-1009 | the shift flattening carries forward is the shift before it plus the circuit's total shift, a repeat block contributing its body's shift once per repetition |
| `CircuitTransforms.FlatRepeatShift` | src/stim/circuit/circuit_pybind_test.py:982-1009 | a block repeated k times moves the coordinates by k times its body's shift; repeated 0 times it moves nothing |
| `CircuitTransforms.FlattenedIdempotent` | src/stim/circuit/circuit_pybind_test.py:982-1009 | `flattened(flattened(c)) == flattened(c)` |
| `CircuitTransforms.WithoutNoiseClean` | src/stim/circuit/circuit_pybind_test.py:964-979 | `without_noise()` leaves no noise channel and no measurement flip probability at any depth |
| `CircuitTransforms.WithoutNoiseKeeps` | src/stim/circuit/circuit_pybind_test.py:964-979 | a noise-free circuit in appended shape is returned unchanged |
| `CircuitTransforms.WithoutNoiseAtoms` | src/stim/circuit/circuit_pybind_test.py:964-979 | for every circuit, `without_noise()` applies the operations of the input in order with noise-channel operations removed, measurement flip probabilities cleared, and each block kept with its count and tag and its body cleaned |
| `CircuitTransforms.WithoutNoiseIdempotent` | src/stim/circuit/circuit_pybind_test.py:964-979 | `without_noise()` is idempotent |
| `CircuitTransforms.WithoutNoiseCounts` | src/stim/circuit/circuit_pybind_test.py:2291-2301 | removing noise keeps every DETECTOR and TICK: `num_detectors` and `num_ticks` are unchanged |
| `CircuitTransforms.ReversePairsTwice` | src/stim/circuit/circuit_pybind_test.py:1145-1152 | reversing the order of the target pairs keeps the length and, done twice, gives the targets back |
| `CircuitTransforms.InverseTargetsTwice` | src/stim/circuit/circuit_pybind_test.py:1145-1152 | the targets of an instruction inverted twice are its own |
| `CircuitTransforms.InverseInvolution` | src/stim/circuit/circuit_pybind_test.py:1145-1152 | on a valid circuit it accepts, `inverse()` is an involution |
| `CircuitObject.BuildInstruction` | src/stim/circuit/circuit_pybind_test.py:45-84 | the instruction an append builds from a gate name, targets, optional arguments and a tag, or GateNotFound, or the validation error |
| `CircuitObject.AppendArgs` | src/stim/circuit/circuit_pybind_test.py:613-623 | the arguments an append uses: those given; none for `append` when omitted; a single 0 for `append_operation` on a gate taking exactly one |
| `CircuitObject.ItemAppendError` | src/stim/circuit/circuit_pybind_test.py:504-519 | appending an existing instruction or block refuses extra targets, extra arguments, a new tag and a repeat count of 0, in that order |
| `CircuitObject.BuildInstructionCorrect` | src/stim/circuit/circuit_pybind_test.py:45-84 | an append fails with "gate not found" for an unknown name, and otherwise succeeds exactly when the named instruction is well formed; it then carries the gate, targets and tag given |
| `CircuitObject.LegacyArgs` | src/stim/circuit/circuit_pybind_test.py:613-623 | called without arguments on a gate that needs some, `append` is refused for the argument count; `append_operation` gives a one-argument gate such as X_ERROR the argument 0, and refuses a gate needing more, as `append` does |
| `CircuitObject.Circuit.constructor` | src/stim/circuit/circuit_pybind_test.py:45-46 | a new circuit is empty |
| `CircuitObject.Circuit.Clear` | src/stim/circuit/circuit_pybind_test.py:207-213 | `clear()` empties the circuit in place |
| `CircuitObject.Circuit.AddAssign` | src/stim/circuit/circuit_pybind_test.py:87-111 | `c += d` sets c to `c + d`, reading d before writing, so `c += c` doubles c |
| `CircuitObject.Circuit.MulAssign` | src/stim/circuit/circuit_pybind_test.py:154-166 | `c *= k` sets c to `c * k` in place |
| `CircuitObject.Circuit.Append` | src/stim/circuit/circuit_pybind_test.py:2304-2315 | a refused `append` reports the failure and changes nothing; an accepted one appends the instruction, fusing it with the last one when it can |
| `CircuitObject.Circuit.AppendOperation` | src/stim/circuit/circuit_pybind_test.py:45-84 | as `append`; when arguments are omitted, a gate taking exactly one argument gets the single argument 0, and a gate needing more is refused |
| `CircuitObject.Circuit.AppendWith` | src/stim/circuit/circuit_pybind_test.py:613-623 | the append shared by both entry points: validate first, mutate only on success |
| `CircuitObject.Circuit.AppendItem` | src/stim/circuit/circuit_pybind_test.py:463-519 | appending an existing instruction or block refuses extra targets, arguments or a tag, and a repeat count of 0; otherwise it appends the item |
| `CircuitObject.Circuit.Insert` | src/stim/circuit/circuit_pybind_test.py:1811-1873 | `insert` changes the circuit exactly as InsertAt says, and leaves it alone on an out-of-range index |
| `CircuitObject.Circuit.Pop` | src/stim/circuit/circuit_pybind_test.py:1876-1891 | `pop` returns and removes the item at the index, and leaves the circuit alone on an out-of-range index |
| `CircuitExamples.RefusesUnknownGate` | src/stim/circuit/circuit_pybind_test.py:45-65 | `append_operation("NOT_A_GATE", [0])` fails with "gate not found" |
| `CircuitExamples.RefusesOddPair` | src/stim/circuit/circuit_pybind_test.py:45-65 | `CNOT 0` is refused for an odd target count |
| `CircuitExamples.RefusesBadX` | src/stim/circuit/circuit_pybind_test.py:45-65 | `X(0.5) 0`, `X !0` and `X X0` are refused |
| `CircuitExamples.RecTargetRange` | src/stim/circuit/circuit_pybind_test.py:45-65 | lookbacks `rec[0]`, `rec[1]` and `rec[-2^30]` are refused; `rec[-1]` and `rec[-15]` are accepted |
| `CircuitExamples.BuildX` | src/stim/circuit/circuit_pybind_test.py:67-69 | the appends `X 0`, `X 1 2` and `X 3` succeed |
| `CircuitExamples.BuildCnot` | src/stim/circuit/circuit_pybind_test.py:70 | `CNOT 0 1` is appended as `CX 0 1` |
| `CircuitExamples.BuildM` | src/stim/circuit/circuit_pybind_test.py:71 | `M 0 !1` is accepted |
| `CircuitExamples.BuildXError` | src/stim/circuit/circuit_pybind_test.py:72 | `X_ERROR(0.25) 0` is accepted |
| `CircuitExamples.BuildCorrelated` | src/stim/circuit/circuit_pybind_test.py:73 | `CORRELATED_ERROR(0.5) X0 Y1` is appended as `E(0.5) X0 Y1` |
| `CircuitExamples.BuildDetector` | src/stim/circuit/circuit_pybind_test.py:74 | `DETECTOR rec[-1]` is accepted |
| `CircuitExamples.BuildObservable` | src/stim/circuit/circuit_pybind_test.py:75 | `OBSERVABLE_INCLUDE(5) rec[-1] rec[-2]` is accepted |
| `CircuitExamples.AppendFusesX` | src/stim/circuit/circuit_pybind_test.py:67-77 | the three X appends print as the single line `X 0 1 2 3` |
| `CircuitExamples.StrictRefusesChannel` | src/stim/circuit/circuit_pybind_test.py:613-623 | `append("X_ERROR", [5])` is refused for its missing argument |
| `CircuitExamples.StrictRefusesObservable` | src/stim/circuit/circuit_pybind_test.py:613-623 | `append("OBSERVABLE_INCLUDE", [])` is refused for its missing argument |
| `CircuitExamples.LegacyFillsChannel` | src/stim/circuit/circuit_pybind_test.py:613-623 | `append_operation("X_ERROR", [5])` gives `X_ERROR(0) 5` |
| `CircuitExamples.ItemRefusals` | src/stim/circuit/circuit_pybind_test.py:504-519 | appending an instruction or block with targets, arguments, a new tag or a repeat count of 0 is refused |
| `CircuitExamples.ConcatApart` | src/stim/circuit/circuit_pybind_test.py:87-131 | when the last item of a and the first of b cannot fuse, `a + b` is the two item lists one after the other |
| `CircuitExamples.AddExamples` | src/stim/circuit/circuit_pybind_test.py:87-131 | the sums of the add tests, `c += c` included |
| `CircuitExamples.FuseUntilTagChanges` | src/stim/circuit/circuit_pybind_test.py:2226-2236 | appending a, a, b, a, where b differs from a only in its tag, fuses the first two and no more |
| `CircuitExamples.TagFuse` | src/stim/circuit/circuit_pybind_test.py:2226-2236 | appending `H[test1] 0`, `H[test1] 0`, `H[test2] 0`, `H[test1] 0` builds `H[test1] 0 0`, `H[test2] 0`, `H[test1] 0` |
| `CircuitExamples.TagExamples` | src/stim/circuit/circuit_pybind_test.py:1995-2038 | `+=` keeps a block's tag, `*` wraps tagged instructions in an untagged block, and a tagged insert lands at its index |
| `CircuitExamples.MulExamples` | src/stim/circuit/circuit_pybind_test.py:134-166 | `c * 2` is one `REPEAT 2`, `(c * 2) * 3` one `REPEAT 6`, `c * 1` is c and `c * 0` is empty |
| `CircuitExamples.ShallowDetectors` | src/stim/circuit/circuit_pybind_test.py:350-366 | the detector counts of the flat and singly repeated circuits of the test |
| `CircuitExamples.NestedDetectors` | src/stim/circuit/circuit_pybind_test.py:350-366 | the nested million-fold repeats hold 10^12 + 1 detectors |
| `CircuitExamples.DeepObservables` | src/stim/circuit/circuit_pybind_test.py:369-383 | observables 2, 3 and 4, the last two inside nested million-fold repeats, give `num_observables == 5` |
| `CircuitExamples.InterleavedTicks` | src/stim/circuit/circuit_pybind_test.py:1478-1496 | `H 0; TICK; CX 0 1; TICK` has two ticks |
| `CircuitExamples.NestedTicks` | src/stim/circuit/circuit_pybind_test.py:1478-1496 | `TICK` alone has one tick, and `TICK` then 100 repeats of two ticks and a 10-fold tick block hold 1201 ticks |
| `CircuitExamples.IndexingExamples` | src/stim/circuit/circuit_pybind_test.py:386-420 | out-of-range indices fail and in-range ones, negative included, return the item (a repeat block counting as one) |
| `CircuitExamples.SliceIs` | src/stim/circuit/circuit_pybind_test.py:423-449 | a slice equals the items at the indices its range selects |
| `CircuitExamples.SliceMiddle` | src/stim/circuit/circuit_pybind_test.py:434-439 | `c[1:-1]` is the repeat block and `Y 2` |
| `CircuitExamples.SliceEven` | src/stim/circuit/circuit_pybind_test.py:440-443 | `c[::2]` is `H 0` and `Y 2` |
| `CircuitExamples.SliceOdd` | src/stim/circuit/circuit_pybind_test.py:444-449 | `c[1::2]` is the repeat block and `Z 3` |
| `CircuitExamples.SliceReversed` | src/stim/circuit/circuit_pybind_test.py:1155-1159 | the empty circuit reversed is empty, and `X 1; Y 2; Z 3` reversed is `Z 3; Y 2; X 1` |
| `CircuitExamples.InsertExamples` | src/stim/circuit/circuit_pybind_test.py:1811-1840 | the refused and accepted inserts of the insert test |
| `CircuitExamples.PopExamples` | src/stim/circuit/circuit_pybind_test.py:1876-1891 | the refused and accepted pops of the pop test |
| `CircuitExamples.FlatCons` | src/stim/circuit/circuit_pybind_test.py:982-1009 | flattening handles a leading instruction and then the rest |
| `CircuitExamples.TagFlattened` | src/stim/circuit/circuit_pybind_test.py:2181-2191 | flattening keeps instruction tags and drops the block's tag |
| `CircuitExamples.FlatFront` | src/stim/circuit/circuit_pybind_test.py:2181-2191 | flattening an instruction followed by a block emits the instruction, tag kept, and then the block's iterations |
| `CircuitExamples.FlatTwice` | src/stim/circuit/circuit_pybind_test.py:2181-2191 | two iterations of a one-instruction body that fuses with itself but not with the instruction before emit that instruction fused twice |
| `CircuitExamples.ShiftedQubitCoords` | src/stim/circuit/circuit_pybind_test.py:982-990 | `SHIFT_COORDS(5, 0)` then `QUBIT_COORDS(1, 2, 3) 0` flattens to `QUBIT_COORDS(6, 2, 3) 0` |
| `CircuitExamples.FlattenedShiftingDetectors` | src/stim/circuit/circuit_pybind_test.py:982-1009 | in the flattened test circuit, iteration k of the repeat block carries detectors `(5, k)` and `(6, k)` |
| `CircuitExamples.FlattenedIteration` | src/stim/circuit/circuit_pybind_test.py:982-1009 | under coordinates shifted k times, one pass over the test's block body emits iteration k, with detectors `(5, k)` and `(6, k)`, and leaves the shift at k + 1 |
| `CircuitExamples.ShiftThenCoords` | src/stim/circuit/circuit_pybind_test.py:982-990 | `SHIFT_COORDS(5, 0)` then `QUBIT_COORDS(1, 2, 3) 0` flatten to `QUBIT_COORDS(6, 2, 3) 0`, the shift staying in force for what follows |
| `CircuitExamples.FlattenedBlock` | src/stim/circuit/circuit_pybind_test.py:982-1009 | the test circuit flattens to the moved `QUBIT_COORDS` followed by the five iterations of its block, in order |
| `CircuitExamples.CleanStep` | src/stim/circuit/circuit_pybind_test.py:964-979 | without_noise of a circuit is the cleaned prefix followed by the cleaned last item |
| `CircuitExamples.CleanChannels` | src/stim/circuit/circuit_pybind_test.py:964-979 | a noise channel, a gate, a noisy measurement and a block of noise then a gate clean to the gate, the bare measurement and the block holding only the gate |
| `CircuitExamples.WithoutNoiseDropsChannels` | src/stim/circuit/circuit_pybind_test.py:964-979 | the without_noise test circuit |
| `CircuitExamples.CleanAllNoise` | src/stim/circuit/circuit_pybind_test.py:2393-2402 | a circuit of noise channels only, of any length, cleans to the empty circuit |
| `CircuitExamples.CleanTagged` | src/stim/circuit/circuit_pybind_test.py:2291-2301 | a gate, a noise channel, a noisy measurement and an annotation clean to the gate, the bare measurement and the annotation, tags kept |
| `CircuitExamples.WithoutNoiseKeepsTags` | src/stim/circuit/circuit_pybind_test.py:2291-2301 | the tagged without_noise test circuit |
| `CircuitExamples.WithoutNoiseDropsIdentityErrors` | src/stim/circuit/circuit_pybind_test.py:2393-2402 | `I_ERROR` and `II_ERROR`, with or without arguments, are removed |
| `CircuitExamples.InverseIs` | src/stim/circuit/circuit_pybind_test.py:1145-1152 | an inverse equals the items reversed, each inverted |
| `CircuitExamples.Inverse4` | src/stim/circuit/circuit_pybind_test.py:2239-2254 | the inverse of four invertible items is their inverses in reverse order |
| `CircuitExamples.InverseReversesPairs` | src/stim/circuit/circuit_pybind_test.py:1145-1152 | `S 0 1; CX 0 1 0 2` inverts to `CX 0 2 0 1; S_DAG 1 0` |
| `CircuitExamples.InverseKeepsTags` | src/stim/circuit/circuit_pybind_test.py:2239-2254 | the tagged inverse test: blocks and instructions keep their tags, and `SPP X0*Y1` becomes `SPP_DAG Y1*X0` |
| `CircuitExamples.InvertTaggedS` | src/stim/circuit/circuit_pybind_test.py:2239-2254 | `S[test1] 0` inverts to `S_DAG[test1] 0` |
| `CircuitExamples.InvertTaggedCx` | src/stim/circuit/circuit_pybind_test.py:2239-2254 | `CX[test2] 0 1` inverts to itself, tag kept |
| `CircuitExamples.InvertTaggedSpp` | src/stim/circuit/circuit_pybind_test.py:2239-2254 | `SPP[test3] X0*Y1` inverts to `SPP_DAG[test3] Y1*X0` |
| `CircuitExamples.InvertTaggedBlock` | src/stim/circuit/circuit_pybind_test.py:2239-2254 | the block `REPEAT[test4] 2 { H[test5] 0 }` is its own inverse |
| `VectorSimulator.VectorSim.constructor` | vector_sim.cc:6-9 | the buffer has 2^n amplitudes, 1 at index 0 and 0 everywhere else |
| `VectorSimulator.Dot` | vector_sim.cc:15-18 | the inner loop of `mat_vec_mul`: `row[col] * vec[col]` summed over col from 0, left to right |
| `VectorSimulator.NewAmp` | vector_sim.cc:42-50 | the new amplitude at index i: the row of the matrix picked by the last mask-table entry equal to the in-group part of i, times the amplitudes of i's group |
| `VectorSimulator.Applied` | vector_sim.cc:38-51 | the whole buffer after `apply(matrix, qubits)`: every index gets its new amplitude, and the length is unchanged |
| `VectorSimulator.MatVecMul` | vector_sim.cc:11-22 | the result is as long as the input and entry `row` is the sum over `col` of `matrix[row][col] * vec[col]` |
| `VectorSimulator.IdentityMatVec` | vector_sim.cc:11-22 | multiplying by the identity matrix returns the input |
| `VectorSimulator.Masks` | vector_sim.cc:25-36 | the nested loops build exactly the mask table |
| `VectorSimulator.MaskBits` | vector_sim.cc:28-34 | bit j of `masks[k]` is set exactly when some q has bit q set in k and `qubits[q] == j` |
| `VectorSimulator.FullMaskBits` | vector_sim.cc:37 | `masks.back()` has exactly the bits of the target qubits |
| `VectorSimulator.MaskTableShape` | vector_sim.cc:25-37 | `masks[0] == 0`, the last entry is the full mask, and every mask lies within it |
| `VectorSimulator.FullMaskBound` | vector_sim.cc:37 | the assert `masks.back() < state.size()` holds exactly when every target qubit is below n |
| `VectorSimulator.Split` | vector_sim.cc:38-41 | every index is `base | part` with `base & full == 0` and part within the full mask |
| `VectorSimulator.Join` | vector_sim.cc:44-49 | `base | m` stays in the buffer and gives back base and m |
| `VectorSimulator.EveryIndexRewritten` | vector_sim.cc:38-51 | every index of the buffer is written by some group, even with repeated target qubits |
| `VectorSimulator.MasksInjective` | vector_sim.cc:28-36 | with distinct target qubits, distinct k give distinct masks |
| `VectorSimulator.GroupsPartition` | vector_sim.cc:38-51 | with distinct target qubits, every index is `base | masks[k]` for exactly one base and one k, so each amplitude is read and rewritten exactly once |
| `VectorSimulator.SingleMasks` | vector_sim.cc:25-36 | for one target qubit q the mask table is `[0, 1 << q]` |
| `VectorSimulator.SingleAmp` | vector_sim.cc:54-56 | with one target qubit, the new amplitude at i is row (bit q of i) of the matrix times the pair of amplitudes differing only in bit q |
| `VectorSimulator.TableShape` | vector_sim.cc:84-108 | CNOT, CZ and SWAP are 4x4 matrices and every other table entry is 2x2 |
| `VectorSimulator.XSwaps` | vector_sim.cc:87 | X on qubit q swaps each amplitude with the one whose index differs in bit q |
| `VectorSimulator.XTwice` | vector_sim.cc:87 | X applied twice restores the buffer |
| `VectorSimulator.YSwaps` | vector_sim.cc:88 | Y swaps each pair differing in bit q, multiplying by i or -i |
| `VectorSimulator.ZPhase` | vector_sim.cc:89 | Z negates exactly the amplitudes whose index has bit q set |
| `VectorSimulator.IdentityKeeps` | vector_sim.cc:85 | I leaves the buffer as it is |
| `VectorSimulator.AppliedNeg` | vector_sim.cc:38-51 | apply is linear in the buffer: applying to the negated buffer gives the negated result |
| `VectorSimulator.PauliPrefixStep` | vector_sim.cc:68-79 | qubit k of the string applies Z to qubit `offset + k` when its x and y bits are both set, X for x alone, Y for y alone, and nothing when neither is set |
| `VectorSimulator.PauliSignOnly` | vector_sim.cc:62-80 | a Pauli string without x or y bits only applies its sign |
| `VectorSimulator.PauliSignNegates` | vector_sim.cc:62-80 | a negative string yields the negation of what the positive one yields |
| `VectorSimulator.VectorSim.GatherGroup` | vector_sim.cc:42-46 | collects the amplitudes at `base | masks[k]` in mask-table order |
| `VectorSimulator.VectorSim.ScatterGroup` | vector_sim.cc:48-50 | writes `out[k]` to `base | masks[k]`, later writes winning, and changes no other index |
| `VectorSimulator.VectorSim.ApplyGroup` | vector_sim.cc:39-50 | one pass of the sweep: the amplitudes of group base become the matrix times their old values, groups below base stay done and those above stay untouched |
| `VectorSimulator.VectorSim.Apply` | vector_sim.cc:24-52 | in place, the buffer becomes the matrix applied to every group; its length is unchanged |
| `VectorSimulator.VectorSim.ApplyNamed` | vector_sim.cc:54-56 | an unknown gate name fails and leaves the buffer alone; a known one is applied to the qubit |
| `VectorSimulator.VectorSim.ApplyNamed2` | vector_sim.cc:58-60 | the same for a two-qubit gate |
| `VectorSimulator.VectorSim.ApplyPauli` | vector_sim.cc:62-80 | negates the buffer if the sign is set, then applies Z, X or Y to qubit `offset + k` as the x and y bits of k say |

## Left out

- The circuit's text syntax: the parser and printer. Circuits are already-parsed
  values, and gate aliases resolve through `Gates.Lookup`.
- `repr`/`eval` round-trips, pickling, hashing, copying, `approx_equals`, file
  I/O and diagrams.
- Conversion of Python values into targets: `stim.PauliString` arguments,
  generators and arbitrary objects. The model takes a list of `Target` values.
  The "empty PauliString" refusal is not modelled.
- Sampling and reference sampling, which depend on randomness or an unseen engine.
- The detector-error-model compiler, decomposition, graphlike-error and
  undetectable-error search, SAT export, `has_flow`, detecting regions,
  `decomposed`, `with_inlined_feedback` and `get_final_qubit_coordinates`. Their
  implementation is not part of this model.
- `Gates` lists the gates the tests use plus their close relatives, not Stim's
  whole gate table. S to S_DAG, self-inverse CX and H, and SPP to SPP_DAG come
  from the tests. The other inverse pairs follow the gates' definitions.
- `CircuitTransforms.Inverse`: which circuits `inverse()` refuses is a modelling
  choice. The tests show only inverses that succeed. The model inverts unitary
  gates, TICK and repeat blocks. It fails with NotInvertible on any other gate
  (measurements, resets, noise channels, annotations) at any depth, as
  `CircuitTransforms.InverseFails` states.
- `CircuitObject.AppendArgs`: `append_operation` fills in an omitted argument
  only for gates taking exactly one. That is the only case the tests show
  (`X_ERROR`). For PAULI_CHANNEL_1 and PAULI_CHANNEL_2 the model refuses the
  omitted arguments, as `append` does.
- `Circuits.CheckInstruction` checks argument values only for probabilities
  (noise channels and measurement flip probabilities) and observable indices.
  It does not check that qubit indices are below 2^24 or that a lookback
  reaches into existing measurements.
- `CircuitObject.Circuit.Insert`: inserting never fuses the inserted items
  with their neighbours; the insert tests never put two fusible instructions
  side by side.
- `VectorSimulator.VectorSim.Apply` does not model the 32-bit `int` behind
  `1 << qubits[q]`, which overflows at 31 or more qubits; indices are
  unbounded naturals.
- `VectorSimulator.VectorSim.constructor` does not model the 32-bit `int`
  behind `1 << num_qubits` either: the buffer has 2^n entries for every n.
- `VectorSimulator.VectorSim.Apply` takes the two `assert`s of `apply` as
  preconditions. It also requires every matrix row to have 2^|qubits| entries,
  which the C++ does not check (a shorter row is read out of bounds).
- `VectorSimulator.MatVecMul` uses exact arithmetic: no `float` rounding.
  Amplitudes are numbers `a + b*sqrt(2)`, so the table's `0.7071067811865475244f`
  is the exact `1/sqrt(2)`.
- `VectorSimulator.PauliString`: `pauli_string.h` is not part of this model. The
  string is given directly as its sign and its x and y bits per qubit, read
  as the overload reads them (x and y both set means Z).
