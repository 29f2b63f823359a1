/**
 * The concrete circuits of the circuit binding's tests, with the results those
 * tests expect, stated against the model.
 */
module CircuitExamples {
  import opened Wrappers
  import opened Gates
  import opened Circuits
  import opened CircuitTransforms
  import opened CircuitObject

  function Q(index: nat): Target { Qubit(index, false) }

  /** `gate t0 t1 ...`, untagged and without arguments. */
  function G(g: Gate, targets: seq<Target>): Item
  {
    Op(Instruction(g, targets, [], ""))
  }

  function GA(g: Gate, targets: seq<Target>, args: seq<real>, tag: string): Item
  {
    Op(Instruction(g, targets, args, tag))
  }

  // --- test_circuit_append_operation -----------------------------------------

  lemma RefusesUnknownGate()
    ensures BuildInstruction("NOT_A_GATE", [Q(0)], None, "", true) == Failure(GateNotFound)
  {
    assert Lookup("NOT_A_GATE") == None;
  }

  lemma RefusesOddPair()
    ensures BuildInstruction("CNOT", [Q(0)], None, "", true) == Failure(OddTargetCount)
  {
  }

  lemma RefusesBadX()
    ensures BuildInstruction("X", [Q(0)], Some([0.5]), "", true) == Failure(WrongArgCount)
    ensures BuildInstruction("X", [Qubit(0, true)], None, "", true) == Failure(InvalidModifiers)
    ensures BuildInstruction("X", [PauliTarget(PauliX, 0, false)], None, "", true) == Failure(InvalidModifiers)
  {
  }

  lemma RecTargetRange()
    ensures RecTarget(0).Failure? && RecTarget(1).Failure? && RecTarget(-0x4000_0000).Failure?
    ensures RecTarget(-1).Success? && RecTarget(-15).Success?
  {
  }

  // The instructions built by the successful appends of that test.

  lemma BuildX()
    ensures BuildInstruction("X", [Q(0)], None, "", true) == Success(Instruction(X, [Q(0)], [], ""))
    ensures BuildInstruction("X", [Q(1), Q(2)], None, "", true) == Success(Instruction(X, [Q(1), Q(2)], [], ""))
    ensures BuildInstruction("X", [Q(3)], None, "", true) == Success(Instruction(X, [Q(3)], [], ""))
  {
    assert Lookup("X") == Some(X);
    XValid([Q(0)]);
    XValid([Q(1), Q(2)]);
    XValid([Q(3)]);
    BuildInstructionCorrect("X", [Q(0)], None, "", true);
    BuildInstructionCorrect("X", [Q(1), Q(2)], None, "", true);
    BuildInstructionCorrect("X", [Q(3)], None, "", true);
  }

  /** X on plain qubit targets is valid. */
  lemma XValid(ts: seq<Target>)
    requires forall k :: 0 <= k < |ts| ==> ts[k].Qubit? && !ts[k].inverted
    ensures AppendArgs(X, None, true) == []
    ensures WellFormedInstruction(Instruction(X, ts, [], ""))
  {
    assert forall k :: 0 <= k < |ts| ==> TargetError(X, ts[k]).None?;
    assert CombinersPlaced(ts) by {
      assert forall k :: 0 <= k < |ts| ==> ts[k] != Combiner;
    }
  }

  lemma BuildCnot()
    ensures BuildInstruction("CNOT", [Q(0), Q(1)], None, "", true) == Success(Instruction(CX, [Q(0), Q(1)], [], ""))
  {
    assert Lookup("CNOT") == Some(CX);
    BuildInstructionCorrect("CNOT", [Q(0), Q(1)], None, "", true);
  }

  lemma BuildM()
    ensures BuildInstruction("M", [Q(0), Qubit(1, true)], None, "", true) == Success(Instruction(M, [Q(0), Qubit(1, true)], [], ""))
  {
    assert Lookup("M") == Some(M);
    MValid();
    BuildInstructionCorrect("M", [Q(0), Qubit(1, true)], None, "", true);
  }

  lemma MValid()
    ensures AppendArgs(M, None, true) == []
    ensures WellFormedInstruction(Instruction(M, [Q(0), Qubit(1, true)], [], ""))
  {
    var ts := [Q(0), Qubit(1, true)];
    assert forall k :: 0 <= k < |ts| ==> TargetError(M, ts[k]).None?;
  }

  lemma BuildXError()
    ensures BuildInstruction("X_ERROR", [Q(0)], Some([0.25]), "", true) == Success(Instruction(X_ERROR, [Q(0)], [0.25], ""))
  {
    assert Lookup("X_ERROR") == Some(X_ERROR);
    BuildInstructionCorrect("X_ERROR", [Q(0)], Some([0.25]), "", true);
  }

  lemma BuildCorrelated()
    ensures BuildInstruction("CORRELATED_ERROR", [PauliTarget(PauliX, 0, false), PauliTarget(PauliY, 1, false)], Some([0.5]), "", true) == Success(Instruction(E, [PauliTarget(PauliX, 0, false), PauliTarget(PauliY, 1, false)], [0.5], ""))
  {
    assert Lookup("CORRELATED_ERROR") == Some(E);
    CorrelatedValid();
    BuildInstructionCorrect("CORRELATED_ERROR", [PauliTarget(PauliX, 0, false), PauliTarget(PauliY, 1, false)], Some([0.5]), "", true);
  }

  lemma CorrelatedValid()
    ensures AppendArgs(E, Some([0.5]), true) == [0.5]
    ensures WellFormedInstruction(Instruction(E, [PauliTarget(PauliX, 0, false), PauliTarget(PauliY, 1, false)], [0.5], ""))
  {
    var ts := [PauliTarget(PauliX, 0, false), PauliTarget(PauliY, 1, false)];
    assert forall k :: 0 <= k < |ts| ==> TargetError(E, ts[k]).None?;
    assert CombinersPlaced(ts) by {
      assert forall k :: 0 <= k < |ts| ==> !ts[k].Combiner?;
    }
  }

  lemma BuildDetector()
    ensures BuildInstruction("DETECTOR", [Rec(-1)], None, "", true) == Success(Instruction(DETECTOR, [Rec(-1)], [], ""))
  {
    assert Lookup("DETECTOR") == Some(DETECTOR);
    DetectorValid();
    BuildInstructionCorrect("DETECTOR", [Rec(-1)], None, "", true);
  }

  lemma DetectorValid()
    ensures AppendArgs(DETECTOR, None, true) == []
    ensures WellFormedInstruction(Instruction(DETECTOR, [Rec(-1)], [], ""))
  {
    var ts := [Rec(-1)];
    assert forall k :: 0 <= k < |ts| ==> TargetError(DETECTOR, ts[k]).None?;
  }

  lemma BuildObservable()
    ensures BuildInstruction("OBSERVABLE_INCLUDE", [Rec(-1), Rec(-2)], Some([5.0]), "", true) == Success(Instruction(OBSERVABLE_INCLUDE, [Rec(-1), Rec(-2)], [5.0], ""))
  {
    assert Lookup("OBSERVABLE_INCLUDE") == Some(OBSERVABLE_INCLUDE);
    ObservableValid();
    BuildInstructionCorrect("OBSERVABLE_INCLUDE", [Rec(-1), Rec(-2)], Some([5.0]), "", true);
  }

  lemma ObservableValid()
    ensures AppendArgs(OBSERVABLE_INCLUDE, Some([5.0]), true) == [5.0]
    ensures WellFormedInstruction(Instruction(OBSERVABLE_INCLUDE, [Rec(-1), Rec(-2)], [5.0], ""))
  {
    assert (5.0).Floor == 5;
    var ts := [Rec(-1), Rec(-2)];
    assert forall k :: 0 <= k < |ts| ==> TargetError(OBSERVABLE_INCLUDE, ts[k]).None?;
  }

  /** The three X appends fuse into one instruction. */
  lemma AppendFusesX()
    ensures PushItem(PushItem(PushItem([], G(X, [Q(0)])), G(X, [Q(1), Q(2)])), G(X, [Q(3)]))
      == [G(X, [Q(0), Q(1), Q(2), Q(3)])]
  {
    var s1 := [G(X, [Q(0)])];
    assert PushItem([], G(X, [Q(0)])) == s1;
    assert s1[..0] == [];
    assert [Q(0)] + [Q(1), Q(2)] == [Q(0), Q(1), Q(2)];
    var s2 := PushItem(s1, G(X, [Q(1), Q(2)]));
    assert s2 == [G(X, [Q(0), Q(1), Q(2)])];
    assert s2[..0] == [];
    assert [Q(0), Q(1), Q(2)] + [Q(3)] == [Q(0), Q(1), Q(2), Q(3)];
  }

  // --- test_backwards_compatibility_vs_safety_append_vs_append_operation ----

  lemma StrictRefusesChannel()
    ensures BuildInstruction("X_ERROR", [Q(5)], None, "", false) == Failure(WrongArgCount)
  {
  }

  lemma StrictRefusesObservable()
    ensures BuildInstruction("OBSERVABLE_INCLUDE", [], None, "", false) == Failure(WrongArgCount)
  {
  }

  lemma LegacyFillsChannel()
    ensures BuildInstruction("X_ERROR", [Q(5)], None, "", true) == Success(Instruction(X_ERROR, [Q(5)], [0.0], ""))
  {
    assert seq(1, _ => 0.0) == [0.0];
  }

  // --- appending items (test_append_tag and the append_operation item tests) -

  lemma ItemRefusals()
    ensures ItemAppendError(G(H, [Q(1)]), [Q(2)], None, "") == Some(TargetsGiven)
    ensures ItemAppendError(G(H, [Q(1)]), [], Some([0.1]), "") == Some(ArgsGiven)
    ensures ItemAppendError(Repeat(5, [G(H, [Q(1)])], ""), [Q(2)], None, "") == Some(TargetsGiven)
    ensures ItemAppendError(Repeat(10, [], ""), [], None, "newtag") == Some(TagGiven)
    ensures ItemAppendError(GA(H, [Q(2), Q(3)], [], "test"), [], None, "newtag") == Some(TagGiven)
    ensures ItemAppendError(Repeat(0, [G(H, [Q(1)])], ""), [], None, "") == Some(RepeatZero)
  {
  }

  // --- test_circuit_iadd / test_circuit_add ----------------------------------

  /** Concatenation where the boundary does not fuse is plain sequence
    * concatenation. */
  lemma ConcatApart(a: seq<Item>, b: seq<Item>)
    requires |a| > 0 && |b| > 0 && !Fusible(a[|a| - 1], b[0])
    ensures Concat(a, b) == a + b
  {
    assert PushItem(a, b[0]) == a + [b[0]];
    assert a + [b[0]] + b[1..] == a + b;
  }

  lemma AddExamples()
    ensures Concat([G(X, [Q(1), Q(2)])], [G(Y, [Q(3)]), G(M, [Q(4)])]) == [G(X, [Q(1), Q(2)]), G(Y, [Q(3)]), G(M, [Q(4)])]
    ensures var c := [G(X, [Q(1), Q(2)]), G(Y, [Q(3)]), G(M, [Q(4)])]; Concat(c, c) == c + c
    ensures var c2 := [G(Y, [Q(3)]), G(M, [Q(4)])]; Concat(c2, c2) == c2 + c2
  {
    var x := [G(X, [Q(1), Q(2)])];
    var c2 := [G(Y, [Q(3)]), G(M, [Q(4)])];
    ConcatApart(x, c2);
    assert x + c2 == [G(X, [Q(1), Q(2)]), G(Y, [Q(3)]), G(M, [Q(4)])];
    var c := x + c2;
    ConcatApart(c, c);
    ConcatApart(c2, c2);
  }

  // --- test_tag_fuse ---------------------------------------------------------

  /** Appending a, a, b, a where b differs from a only in its tag: the first
    * two fuse, and the tag change stops any further fusion. */
  lemma FuseUntilTagChanges(a: Instruction, b: Instruction)
    requires Fusable(a.gate) && b == a.(tag := b.tag) && b.tag != a.tag
    ensures PushItem(PushItem(PushItem(PushItem([], Op(a)), Op(a)), Op(b)), Op(a))
      == [Op(Fuse(a, a)), Op(b), Op(a)]
  {
    assert PushItem([], Op(a)) == [Op(a)];
    assert [Op(a)][..0] == [];
    assert PushItem([Op(a)], Op(a)) == [Op(Fuse(a, a))];
    assert PushItem([Op(Fuse(a, a))], Op(b)) == [Op(Fuse(a, a)), Op(b)];
  }

  lemma TagFuse()
    ensures PushItem(PushItem(PushItem(PushItem([],
        GA(H, [Q(0)], [], "test1")), GA(H, [Q(0)], [], "test1")), GA(H, [Q(0)], [], "test2")), GA(H, [Q(0)], [], "test1"))
      == [GA(H, [Q(0), Q(0)], [], "test1"), GA(H, [Q(0)], [], "test2"), GA(H, [Q(0)], [], "test1")]
  {
    var a := Instruction(H, [Q(0)], [], "test1");
    FuseUntilTagChanges(a, a.(tag := "test2"));
    assert [Q(0)] + [Q(0)] == [Q(0), Q(0)];
  }

  // --- test_tags_iadd / test_tags_imul / test_tags_mul / test_tag_insert -----

  lemma TagExamples()
    ensures var c := [GA(H, [Q(0)], [], "test"), GA(CX, [Q(1), Q(2)], [], "test2")];
      var block := Repeat(3, [GA(M, [Q(4)], [0.25], "test4")], "test3");
      && Concat(c, [block]) == c + [block]
      && Mul(c, 2) == [Repeat(2, c, "")]
    ensures InsertAt([GA(H, [Q(0)], [], "test1"), GA(S, [Q(0)], [], "test2")], 1, [GA(CX, [Q(0), Q(1)], [], "test3")])
      == Success([GA(H, [Q(0)], [], "test1"), GA(CX, [Q(0), Q(1)], [], "test3"), GA(S, [Q(0)], [], "test2")])
  {
    var c := [GA(H, [Q(0)], [], "test"), GA(CX, [Q(1), Q(2)], [], "test2")];
    var block := Repeat(3, [GA(M, [Q(4)], [0.25], "test4")], "test3");
    ConcatShape(c, [block]);
    var hs := [GA(H, [Q(0)], [], "test1"), GA(S, [Q(0)], [], "test2")];
    assert hs[..1] + [GA(CX, [Q(0), Q(1)], [], "test3")] + hs[1..]
      == [GA(H, [Q(0)], [], "test1"), GA(CX, [Q(0), Q(1)], [], "test3"), GA(S, [Q(0)], [], "test2")];
  }

  // --- test_circuit_mul --------------------------------------------------------

  lemma MulExamples()
    ensures var c := [G(Y, [Q(3)]), G(M, [Q(4)])];
      && Mul(c, 2) == [Repeat(2, c, "")]
      && Mul(Mul(c, 2), 3) == [Repeat(6, c, "")]
      && Mul(c, 3) == [Repeat(3, c, "")]
      && Mul(Mul(c, 3), 1) == [Repeat(3, c, "")]
      && Mul(Mul(Mul(c, 3), 1), 0) == []
  {
  }

  // --- test_num_detectors / test_num_observables / test_num_ticks -------------

  // The counters of short circuits, item by item.

  lemma Count1(a: Item, g: Gate)
    ensures Count([a], g) == ItemCount(a, g)
  {
    assert [a][..0] == [];
  }

  lemma Count2(a: Item, b: Item, g: Gate)
    ensures Count([a], g) == ItemCount(a, g)
    ensures Count([a, b], g) == ItemCount(a, g) + ItemCount(b, g)
  {
    Count1(a, g);
    var s := [a, b];
    assert s[..1] == [a];
  }

  /** An untagged block counts its body's gates once per repetition. */
  lemma BlockCount(n: nat, body: seq<Item>, g: Gate, c: nat)
    requires Count(body, g) == c
    ensures ItemCount(Repeat(n, body, ""), g) == n * c
  {
  }

  lemma Count4(a: Item, b: Item, c: Item, d: Item, g: Gate)
    ensures Count([a, b, c], g) == ItemCount(a, g) + ItemCount(b, g) + ItemCount(c, g)
    ensures Count([a, b, c, d], g) == ItemCount(a, g) + ItemCount(b, g) + ItemCount(c, g) + ItemCount(d, g)
  {
    Count2(a, b, g);
    assert [a, b, c][..2] == [a, b];
    assert [a, b, c, d][..3] == [a, b, c];
  }

  lemma Observables3(a: Item, b: Item, c: Item)
    ensures NumObservables([a]) == ItemObservables(a)
    ensures NumObservables([a, b]) == Max(ItemObservables(a), ItemObservables(b))
    ensures NumObservables([a, b, c]) == Max(Max(ItemObservables(a), ItemObservables(b)), ItemObservables(c))
  {
    assert [a][..0] == [];
    assert [a, b][..1] == [a];
    assert [a, b, c][..2] == [a, b];
  }

  lemma ShallowDetectors()
    ensures NumDetectors([]) == 0
    ensures NumDetectors([G(DETECTOR, [])]) == 1
    ensures NumDetectors([Repeat(1000, [G(DETECTOR, [])], "")]) == 1000
  {
    var det := G(DETECTOR, []);
    Count1(det, DETECTOR);
    Count1(Repeat(1000, [det], ""), DETECTOR);
  }

  lemma NestedDetectors()
    ensures NumDetectors([
      G(DETECTOR, []),
      Repeat(1000000, [Repeat(1000000, [G(M, [Q(0)]), GA(DETECTOR, [Rec(-1)], [], "")], "")], "")
    ]) == 1000000 * 1000000 + 1
  {
    var det := G(DETECTOR, []);
    var m := G(M, [Q(0)]);
    var rec := GA(DETECTOR, [Rec(-1)], [], "");
    Count2(m, rec, DETECTOR);
    BlockCount(1000000, [m, rec], DETECTOR, 1);
    var inner := Repeat(1000000, [m, rec], "");
    Count1(inner, DETECTOR);
    BlockCount(1000000, [inner], DETECTOR, 1000000);
    var outer := Repeat(1000000, [inner], "");
    Count2(det, outer, DETECTOR);
  }

  lemma SingleObservables()
    ensures NumObservables([]) == 0
    ensures NumObservables([GA(OBSERVABLE_INCLUDE, [], [0.0], "")]) == 1
    ensures NumObservables([GA(OBSERVABLE_INCLUDE, [], [1.0], "")]) == 2
  {
    var o0 := GA(OBSERVABLE_INCLUDE, [], [0.0], "");
    var o1 := GA(OBSERVABLE_INCLUDE, [], [1.0], "");
    assert (0.0).Floor == 0 && (1.0).Floor == 1;
    Observables3(o0, o0, o0);
    Observables3(o1, o1, o1);
  }

  /** The nested block of the test: the inner OBSERVABLE_INCLUDE(3) sits two
    * blocks deep, the OBSERVABLE_INCLUDE(4) one block deep. */
  lemma NestedObservables(inner: Item, o4: Item)
    requires inner == Repeat(1000000, [G(M, [Q(0)]), GA(OBSERVABLE_INCLUDE, [Rec(-1)], [3.0], "")], "")
    requires o4 == GA(OBSERVABLE_INCLUDE, [], [4.0], "")
    ensures NumObservables([inner, o4]) == 5
  {
    var m := G(M, [Q(0)]);
    var o3 := GA(OBSERVABLE_INCLUDE, [Rec(-1)], [3.0], "");
    assert (3.0).Floor == 3 && (4.0).Floor == 4;
    Observables3(m, o3, o3);
    assert ItemObservables(inner) == 4;
    Observables3(inner, o4, o4);
  }

  lemma DeepObservables()
    ensures NumObservables([
      G(M, [Q(0)]),
      GA(OBSERVABLE_INCLUDE, [], [2.0], ""),
      Repeat(1000000, [
        Repeat(1000000, [G(M, [Q(0)]), GA(OBSERVABLE_INCLUDE, [Rec(-1)], [3.0], "")], ""),
        GA(OBSERVABLE_INCLUDE, [], [4.0], "")
      ], "")
    ]) == 5
  {
    var m := G(M, [Q(0)]);
    var o2 := GA(OBSERVABLE_INCLUDE, [], [2.0], "");
    var inner := Repeat(1000000, [m, GA(OBSERVABLE_INCLUDE, [Rec(-1)], [3.0], "")], "");
    var o4 := GA(OBSERVABLE_INCLUDE, [], [4.0], "");
    NestedObservables(inner, o4);
    var block := Repeat(1000000, [inner, o4], "");
    assert ItemObservables(block) == 5;
    assert (2.0).Floor == 2;
    assert ItemObservables(o2) == 3;
    ObservablesAfterBlock(m, o2, block);
  }

  lemma ObservablesAfterBlock(m: Item, o2: Item, block: Item)
    requires ItemObservables(m) == 0 && ItemObservables(o2) == 3 && ItemObservables(block) == 5
    ensures NumObservables([m, o2, block]) == 5
  {
    Observables3(m, o2, block);
  }

  lemma NestedTicks()
    ensures NumTicks([G(TICK, [])]) == 1
    ensures NumTicks([
      G(TICK, []),
      Repeat(100, [G(TICK, []), G(TICK, []), Repeat(10, [G(TICK, [])], "")], "")
    ]) == 1201
  {
    var tick := G(TICK, []);
    Count1(tick, TICK);
    BlockCount(10, [tick], TICK, 1);
    var ten := Repeat(10, [tick], "");
    Count4(tick, tick, ten, ten, TICK);
    BlockCount(100, [tick, tick, ten], TICK, 12);
    var hundred := Repeat(100, [tick, tick, ten], "");
    Count2(tick, hundred, TICK);
  }

  lemma InterleavedTicks()
    ensures NumTicks([G(H, [Q(0)]), G(TICK, []), G(CX, [Q(0), Q(1)]), G(TICK, [])]) == 2
  {
    Count4(G(H, [Q(0)]), G(TICK, []), G(CX, [Q(0), Q(1)]), G(TICK, []), TICK);
  }

  // --- test_indexing_operations --------------------------------------------------

  lemma IndexingExamples()
    ensures Get([], 0).Failure? && Get([], -1).Failure?
    ensures Get([G(X, [Q(0)])], 0) == Get([G(X, [Q(0)])], -1) == Success(G(X, [Q(0)]))
    ensures Get([G(X, [Q(0)])], 1).Failure? && Get([G(X, [Q(0)])], -2).Failure?
    ensures var c := [G(X, [Q(5), Q(6)]), Repeat(1000, [G(H, [Q(5)])], ""), GA(M, [Qubit(0, true)], [], "")];
      Get(c, 3).Failure? && Get(c, -4).Failure? && Get(c, 1) == Success(Repeat(1000, [G(H, [Q(5)])], ""))
  {
  }

  // --- test_slicing / test_circuit_slice_reverse --------------------------------

  lemma SliceIs(items: seq<Item>, start: Option<int>, stop: Option<int>, step: int, first: int, expected: seq<Item>)
    requires step != 0 && Range(|items|, start, stop, step) == SliceRange(first, step, |expected|)
    requires forall k :: 0 <= k < |expected| ==> 0 <= first + k * step < |items| && expected[k] == items[first + k * step]
    ensures Slice(items, start, stop, Some(step)) == Success(expected)
  {
    SliceItems(items, start, stop, step);
    var sl := Slice(items, start, stop, Some(step)).value;
    assert |sl| == |expected|;
    assert forall k :: 0 <= k < |sl| ==> sl[k] == expected[k];
    assert sl == expected;
  }

  /** The four-item circuit of test_slicing. */
  function SliceCircuit(): seq<Item>
  {
    [G(H, [Q(0)]), Repeat(5, [G(X, [Q(1)])], ""), G(Y, [Q(2)]), G(Z, [Q(3)])]
  }

  lemma SliceMiddle()
    ensures Slice(SliceCircuit(), Some(1), Some(-1), None) == Success([Repeat(5, [G(X, [Q(1)])], ""), G(Y, [Q(2)])])
  {
    var c := SliceCircuit();
    assert SliceStart(4, Some(1), 1) == 1 && SliceStop(4, Some(-1), 1) == 3;
    assert Range(4, Some(1), Some(-1), 1) == SliceRange(1, 1, 2);
    SliceIs(c, Some(1), Some(-1), 1, 1, [c[1], c[2]]);
  }

  lemma SliceEven()
    ensures Slice(SliceCircuit(), None, None, Some(2)) == Success([G(H, [Q(0)]), G(Y, [Q(2)])])
  {
    var c := SliceCircuit();
    assert SliceStart(4, None, 2) == 0 && SliceStop(4, None, 2) == 4;
    assert Range(4, None, None, 2) == SliceRange(0, 2, 2);
    SliceIs(c, None, None, 2, 0, [c[0], c[2]]);
  }

  lemma SliceOdd()
    ensures Slice(SliceCircuit(), Some(1), None, Some(2)) == Success([Repeat(5, [G(X, [Q(1)])], ""), G(Z, [Q(3)])])
  {
    var c := SliceCircuit();
    assert SliceStart(4, Some(1), 2) == 1 && SliceStop(4, None, 2) == 4;
    assert Range(4, Some(1), None, 2) == SliceRange(1, 2, 2);
    SliceIs(c, Some(1), None, 2, 1, [c[1], c[3]]);
  }

  lemma SliceReversed()
    ensures Slice([], None, None, Some(-1)) == Success([])
    ensures Slice([G(X, [Q(1)]), G(Y, [Q(2)]), G(Z, [Q(3)])], None, None, Some(-1))
      == Success([G(Z, [Q(3)]), G(Y, [Q(2)]), G(X, [Q(1)])])
  {
    SliceWhole([]);
    assert Reverse([]) == [];
    var d := [G(X, [Q(1)]), G(Y, [Q(2)]), G(Z, [Q(3)])];
    SliceWhole(d);
    assert Reverse(d) == [d[2], d[1], d[0]];
  }

  // --- test_insert / test_pop ------------------------------------------------------

  lemma InsertExamples()
    ensures InsertAt([], 1, [G(H, [Q(1)])]).Failure? && InsertAt([], -1, [G(H, [Q(1)])]).Failure?
    ensures InsertAt([], 0, [G(H, [Q(1)])]) == Success([G(H, [Q(1)])])
    ensures InsertAt([G(H, [Q(1)])], 2, [G(S, [Q(2)])]).Failure? && InsertAt([G(H, [Q(1)])], -2, [G(S, [Q(2)])]).Failure?
    ensures InsertAt([G(H, [Q(1)])], 0, [G(S, [Q(2), Q(3)])]) == Success([G(S, [Q(2), Q(3)]), G(H, [Q(1)])])
    ensures InsertAt([G(S, [Q(2), Q(3)]), G(H, [Q(1)])], -1, [G(H, [Q(5)]), G(M, [Q(2)])])
      == Success([G(S, [Q(2), Q(3)]), G(H, [Q(5)]), G(M, [Q(2)]), G(H, [Q(1)])])
  {
    var e: seq<Item> := [];
    assert e[..0] + [G(H, [Q(1)])] + e[0..] == [G(H, [Q(1)])];
    var h := [G(H, [Q(1)])];
    assert h[..0] + [G(S, [Q(2), Q(3)])] + h[0..] == [G(S, [Q(2), Q(3)]), G(H, [Q(1)])];
    var sh := [G(S, [Q(2), Q(3)]), G(H, [Q(1)])];
    assert sh[..1] + [G(H, [Q(5)]), G(M, [Q(2)])] + sh[1..]
      == [G(S, [Q(2), Q(3)]), G(H, [Q(5)]), G(M, [Q(2)]), G(H, [Q(1)])];
  }

  lemma PopExamples()
    ensures PopAt([], -1).Failure? && PopAt([], 0).Failure?
    ensures PopAt([G(H, [Q(0)])], 1).Failure? && PopAt([G(H, [Q(0)])], -2).Failure?
    ensures PopAt([G(H, [Q(0)])], 0) == Success((G(H, [Q(0)]), []))
    ensures PopAt([G(H, [Q(0)]), G(X, [Q(1)])], -1) == Success((G(X, [Q(1)]), [G(H, [Q(0)])]))
    ensures PopAt([G(H, [Q(0)])], -1) == Success((G(H, [Q(0)]), []))
  {
    var h := [G(H, [Q(0)])];
    assert h[..0] + h[1..] == [];
    var hx := [G(H, [Q(0)]), G(X, [Q(1)])];
    assert hx[..1] + hx[2..] == [G(H, [Q(0)])];
  }

  // --- test_tag_flattened / test_flattened ------------------------------------------

  /** One step of flattening: an instruction at the front. */
  lemma FlatCons(acc: Flat, items: seq<Item>)
    requires |items| > 0 && items[0].Op?
    ensures FlatItems(acc, items) == FlatItems(FlatOp(acc, items[0].inst), items[1..])
  {
  }

  /** Flattening an instruction that neither shifts nor carries coordinates
    * only appends it. */
  lemma FlatPlain(acc: Flat, inst: Instruction)
    requires inst.gate != SHIFT_COORDS && !HasCoords(inst.gate)
    ensures FlatOp(acc, inst) == Flat(PushItem(acc.out, Op(inst)), acc.shift)
  {
  }

  /** An instruction followed by a block: the instruction is emitted, then the
    * block's iterations run. */
  lemma FlatFront(r: Instruction, rep: Item)
    requires r.gate != SHIFT_COORDS && !HasCoords(r.gate) && rep.Repeat?
    ensures FlatItems(Flat([], []), [Op(r), rep]) == FlatRepeat(Flat([Op(r)], []), rep.body, rep.count)
  {
    var items := [Op(r), rep];
    FlatCons(Flat([], []), items);
    FlatPlain(Flat([], []), r);
    assert PushItem([], Op(r)) == [Op(r)];
    assert items[1..] == [rep];
    var tail := [rep];
    assert tail[1..] == [];
  }

  /** Two passes over a one-instruction body that fuses with itself but not
    * with what precedes it. */
  lemma FlatTwice(r: Instruction, h: Instruction)
    requires h.gate != SHIFT_COORDS && !HasCoords(h.gate)
    requires !CanFuse(r, h) && CanFuse(h, h)
    ensures FlatRepeat(Flat([Op(r)], []), [Op(h)], 2) == Flat([Op(r), Op(Fuse(h, h))], [])
  {
    var body := [Op(h)];
    var a1 := Flat([Op(r)], []);
    var a2 := Flat([Op(r), Op(h)], []);
    var a3 := Flat([Op(r), Op(Fuse(h, h))], []);
    assert body[1..] == [];
    assert FlatItems(a1, body) == a2 by {
      FlatCons(a1, body);
      FlatPlain(a1, h);
      assert PushItem([Op(r)], Op(h)) == [Op(r), Op(h)];
    }
    assert FlatItems(a2, body) == a3 by {
      FlatCons(a2, body);
      FlatPlain(a2, h);
      var two := [Op(r), Op(h)];
      assert two[..1] == [Op(r)];
      assert PushItem(two, Op(h)) == [Op(r), Op(Fuse(h, h))];
    }
    assert FlatRepeat(a1, body, 2) == FlatRepeat(a2, body, 1);
    assert FlatRepeat(a2, body, 1) == FlatRepeat(a3, body, 0);
  }

  lemma TagFlattened()
    ensures Flattened([
      GA(R, [Q(0)], [], "test1"),
      Repeat(2, [GA(H, [Q(0)], [], "test2")], "test1.5")
    ]) == [GA(R, [Q(0)], [], "test1"), GA(H, [Q(0), Q(0)], [], "test2")]
  {
    var r := Instruction(R, [Q(0)], [], "test1");
    var h := Instruction(H, [Q(0)], [], "test2");
    FlatFront(r, Repeat(2, [Op(h)], "test1.5"));
    FlatTwice(r, h);
    assert Fuse(h, h) == Instruction(H, [Q(0), Q(0)], [], "test2");
  }

  /** QUBIT_COORDS(1, 2, 3) after SHIFT_COORDS(5, 0) becomes QUBIT_COORDS(6, 2, 3). */
  lemma ShiftedQubitCoords()
    ensures Flattened([GA(SHIFT_COORDS, [], [5.0, 0.0], ""), GA(QUBIT_COORDS, [Q(0)], [1.0, 2.0, 3.0], "")])
      == [GA(QUBIT_COORDS, [Q(0)], [6.0, 2.0, 3.0], "")]
  {
    FlattenedShiftsLaterCoords([5.0, 0.0], "", Instruction(QUBIT_COORDS, [Q(0)], [1.0, 2.0, 3.0], ""));
    assert ShiftArgs([1.0, 2.0, 3.0], [5.0, 0.0]) == [6.0, 2.0, 3.0];
  }

  /** The body of the test_flattened repeat block. */
  function ShiftingBody(): seq<Item>
  {
    [G(MR, [Q(0), Q(1)]),
     GA(DETECTOR, [Rec(-2)], [0.0, 0.0], ""),
     GA(DETECTOR, [Rec(-1)], [1.0, 0.0], ""),
     GA(SHIFT_COORDS, [], [0.0, 1.0], "")]
  }

  /** What iteration k of that block flattens to. */
  function Iteration(k: nat): seq<Item>
  {
    [G(MR, [Q(0), Q(1)]),
     GA(DETECTOR, [Rec(-2)], [5.0, k as real], ""),
     GA(DETECTOR, [Rec(-1)], [6.0, k as real], "")]
  }

  function Unrolled(from: nat, n: nat): seq<Item>
    decreases n
  {
    if n == 0 then [] else Iteration(from) + Unrolled(from + 1, n - 1)
  }

  /** The coordinate shift in force at the start of iteration k. */
  function Coord(k: nat): seq<real>
  {
    [5.0, k as real]
  }

  /** A circuit after which an MR instruction does not fuse. */
  predicate EndsApart(out: seq<Item>)
  {
    |out| > 0 && out[|out| - 1].Op? && out[|out| - 1].inst.gate != MR
  }

  /** One pass over the body emits Iteration(k) and moves the shift to k + 1. */
  ghost predicate IteratesAsBlock(body: seq<Item>)
  {
    forall out: seq<Item>, k: nat :: EndsApart(out) ==>
      FlatItems(Flat(out, Coord(k)), body) == Flat(out + Iteration(k), Coord(k + 1))
  }

  /** The MR of iteration k does not fuse with what precedes it. */
  lemma IterationStep0(out: seq<Item>, k: nat)
    requires EndsApart(out)
    ensures FlatItems(Flat(out, Coord(k)), ShiftingBody())
      == FlatItems(Flat(out + Iteration(k)[..1], Coord(k)), ShiftingBody()[1..])
  {
    var body := ShiftingBody();
    var a0 := Flat(out, Coord(k));
    FlatCons(a0, body);
    FlatPlain(a0, body[0].inst);
    assert Iteration(k)[..1] == [body[0]];
  }

  /** The first DETECTOR, moved by the shift, follows the MR. */
  lemma IterationStep1(out: seq<Item>, k: nat)
    ensures FlatItems(Flat(out + Iteration(k)[..1], Coord(k)), ShiftingBody()[1..])
      == FlatItems(Flat(out + Iteration(k)[..2], Coord(k)), ShiftingBody()[2..])
  {
    var body := ShiftingBody()[1..];
    var it := Iteration(k);
    var front := out + it[..1];
    FlatCons(Flat(front, Coord(k)), body);
    assert ShiftArgs([0.0, 0.0], Coord(k)) == [5.0, k as real];
    assert FlatOp(Flat(front, Coord(k)), body[0].inst) == Flat(front + [it[1]], Coord(k));
    assert front + [it[1]] == out + it[..2];
    assert body[1..] == ShiftingBody()[2..];
  }

  /** The second DETECTOR, moved by the shift, follows the first. */
  lemma IterationStep2(out: seq<Item>, k: nat)
    ensures FlatItems(Flat(out + Iteration(k)[..2], Coord(k)), ShiftingBody()[2..])
      == FlatItems(Flat(out + Iteration(k), Coord(k)), ShiftingBody()[3..])
  {
    var body := ShiftingBody()[2..];
    var it := Iteration(k);
    var front := out + it[..2];
    FlatCons(Flat(front, Coord(k)), body);
    assert ShiftArgs([1.0, 0.0], Coord(k)) == [6.0, k as real];
    assert front[|front| - 1] == it[1];
    assert FlatOp(Flat(front, Coord(k)), body[0].inst) == Flat(front + [it[2]], Coord(k));
    assert front + [it[2]] == out + it;
    assert body[1..] == ShiftingBody()[3..];
  }

  /** The closing SHIFT_COORDS(0, 1) moves the shift to iteration k + 1. */
  lemma IterationStep3(out: seq<Item>, k: nat)
    ensures FlatItems(Flat(out + Iteration(k), Coord(k)), ShiftingBody()[3..])
      == Flat(out + Iteration(k), Coord(k + 1))
  {
    var body := ShiftingBody()[3..];
    var a := Flat(out + Iteration(k), Coord(k));
    FlatCons(a, body);
    assert AddCoords(Coord(k), [0.0, 1.0]) == Coord(k + 1);
    assert body[1..] == [];
  }

  lemma FlattenedIteration(out: seq<Item>, k: nat)
    requires EndsApart(out)
    ensures FlatItems(Flat(out, Coord(k)), ShiftingBody()) == Flat(out + Iteration(k), Coord(k + 1))
  {
    IterationStep0(out, k);
    IterationStep1(out, k);
    IterationStep2(out, k);
    IterationStep3(out, k);
  }

  lemma {:induction false} FlattenedIterations(body: seq<Item>, out: seq<Item>, from: nat, n: nat)
    requires IteratesAsBlock(body) && EndsApart(out)
    ensures FlatRepeat(Flat(out, Coord(from)), body, n) == Flat(out + Unrolled(from, n), Coord(from + n))
    decreases n
  {
    if n > 0 {
      var it := Iteration(from);
      var next := out + it;
      assert FlatItems(Flat(out, Coord(from)), body) == Flat(next, Coord(from + 1));
      assert next[|next| - 1] == it[2];
      FlattenedIterations(body, next, from + 1, n - 1);
      assert from + 1 + (n - 1) == from + n;
      assert Unrolled(from, n) == it + Unrolled(from + 1, n - 1);
      assert next + Unrolled(from + 1, n - 1) == out + Unrolled(from, n);
    }
  }

  lemma ShiftFirst()
    ensures FlatOp(Flat([], []), Instruction(SHIFT_COORDS, [], [5.0, 0.0], "")) == Flat([], Coord(0))
  {
    assert AddCoords([], [5.0, 0.0]) == Coord(0);
  }

  lemma CoordsMoved()
    ensures FlatOp(Flat([], Coord(0)), Instruction(QUBIT_COORDS, [Q(0)], [1.0, 2.0, 3.0], ""))
      == Flat([GA(QUBIT_COORDS, [Q(0)], [6.0, 2.0, 3.0], "")], Coord(0))
  {
    assert ShiftArgs([1.0, 2.0, 3.0], Coord(0)) == [6.0, 2.0, 3.0];
    assert PushItem([], GA(QUBIT_COORDS, [Q(0)], [6.0, 2.0, 3.0], "")) == [GA(QUBIT_COORDS, [Q(0)], [6.0, 2.0, 3.0], "")];
  }

  /** SHIFT_COORDS(5, 0) then QUBIT_COORDS(1, 2, 3): the coordinates move, and
    * the shift stays in force for what follows. */
  lemma ShiftThenCoords(rest: seq<Item>)
    ensures FlatItems(Flat([], []), [GA(SHIFT_COORDS, [], [5.0, 0.0], ""), GA(QUBIT_COORDS, [Q(0)], [1.0, 2.0, 3.0], "")] + rest)
      == FlatItems(Flat([GA(QUBIT_COORDS, [Q(0)], [6.0, 2.0, 3.0], "")], Coord(0)), rest)
  {
    var items := [GA(SHIFT_COORDS, [], [5.0, 0.0], ""), GA(QUBIT_COORDS, [Q(0)], [1.0, 2.0, 3.0], "")] + rest;
    FlatCons(Flat([], []), items);
    ShiftFirst();
    var next := items[1..];
    FlatCons(Flat([], Coord(0)), next);
    CoordsMoved();
    assert next[1..] == rest;
  }

  lemma FlattenedBlock(body: seq<Item>)
    requires IteratesAsBlock(body)
    ensures Flattened([
      GA(SHIFT_COORDS, [], [5.0, 0.0], ""),
      GA(QUBIT_COORDS, [Q(0)], [1.0, 2.0, 3.0], ""),
      Repeat(5, body, "")
    ]) == [GA(QUBIT_COORDS, [Q(0)], [6.0, 2.0, 3.0], "")] + Unrolled(0, 5)
  {
    var shift := GA(SHIFT_COORDS, [], [5.0, 0.0], "");
    var coords := GA(QUBIT_COORDS, [Q(0)], [1.0, 2.0, 3.0], "");
    var moved := GA(QUBIT_COORDS, [Q(0)], [6.0, 2.0, 3.0], "");
    var tail := [Repeat(5, body, "")];
    var a2 := Flat([moved], Coord(0));
    assert [shift, coords] + tail == [shift, coords, Repeat(5, body, "")];
    assert Flattened([shift, coords] + tail) == FlatItems(a2, tail).out by {
      ShiftThenCoords(tail);
    }
    assert FlatItems(a2, tail) == FlatRepeat(a2, body, 5) by {
      assert tail[1..] == [];
    }
    assert FlatRepeat(a2, body, 5).out == [moved] + Unrolled(0, 5) by {
      FlattenedIterations(body, [moved], 0, 5);
    }
  }

  /** test_flattened: the coordinate shift before the block moves the qubit
    * coordinates, and iteration k carries detectors (5, k) and (6, k). */
  lemma FlattenedShiftingDetectors()
    ensures Flattened([
      GA(SHIFT_COORDS, [], [5.0, 0.0], ""),
      GA(QUBIT_COORDS, [Q(0)], [1.0, 2.0, 3.0], ""),
      Repeat(5, ShiftingBody(), "")
    ]) == [GA(QUBIT_COORDS, [Q(0)], [6.0, 2.0, 3.0], "")] + Unrolled(0, 5)
  {
    forall out: seq<Item>, k: nat | EndsApart(out)
      ensures FlatItems(Flat(out, Coord(k)), ShiftingBody()) == Flat(out + Iteration(k), Coord(k + 1))
    {
      FlattenedIteration(out, k);
    }
    FlattenedBlock(ShiftingBody());
  }

  // --- test_without_noise / test_tag_without_noise / test_without_noise_removes_id_errors

  /** One step of without_noise(): the cleaned prefix, then the last item. */
  lemma CleanStep(front: seq<Item>, last: Item, done: seq<Item>)
    requires WithoutNoise(front) == done
    ensures WithoutNoise(front + [last]) == CleanInto(done, last)
  {
    WithoutNoiseSnoc(front, last);
  }

  // The two lemmas below take the test circuits' items as parameters: stated on
  // literal circuits, the solver evaluates without_noise() far too eagerly.

  /** The part of the test circuit before its block: a channel, a gate and a
    * measurement whose probability argument is dropped. */
  lemma CleanPrefix(xe: Item, cx: Item, m: Item)
    requires xe.Op? && IsNoiseChannel(xe.inst.gate)
    requires cx.Op? && !IsNoiseChannel(cx.inst.gate) && !ProducesResults(cx.inst.gate)
    requires m.Op? && ProducesResults(m.inst.gate) && !CanFuse(cx.inst, m.inst.(args := []))
    ensures WithoutNoise([xe, cx, m]) == [cx, Op(m.inst.(args := []))]
  {
    var m' := Op(m.inst.(args := []));
    var s1 := [xe];
    CleanAllNoise(s1);
    CleanStep(s1, cx, []);
    assert PushItem([], cx) == [cx];
    var s2 := s1 + [cx];
    CleanStep(s2, m, [cx]);
    assert PushItem([cx], m') == [cx, m'];
    assert s2 + [m] == [xe, cx, m];
  }

  /** The block's body: a channel followed by a gate. */
  lemma CleanBody(dep: Item, x: Item)
    requires dep.Op? && IsNoiseChannel(dep.inst.gate)
    requires x.Op? && !IsNoiseChannel(x.inst.gate) && !ProducesResults(x.inst.gate)
    ensures WithoutNoise([dep, x]) == [x]
  {
    var s1 := [dep];
    CleanAllNoise(s1);
    CleanStep(s1, x, []);
    assert PushItem([], x) == [x];
    assert s1 + [x] == [dep, x];
  }

  lemma CleanChannels(xe: Item, cx: Item, m: Item, dep: Item, x: Item, count: nat)
    requires xe.Op? && IsNoiseChannel(xe.inst.gate)
    requires cx.Op? && !IsNoiseChannel(cx.inst.gate) && !ProducesResults(cx.inst.gate)
    requires m.Op? && ProducesResults(m.inst.gate) && !CanFuse(cx.inst, m.inst.(args := []))
    requires dep.Op? && IsNoiseChannel(dep.inst.gate)
    requires x.Op? && !IsNoiseChannel(x.inst.gate) && !ProducesResults(x.inst.gate)
    ensures WithoutNoise([xe, cx, m, Repeat(count, [dep, x], "")])
      == [cx, Op(m.inst.(args := [])), Repeat(count, [x], "")]
  {
    var m' := Op(m.inst.(args := []));
    var front := [xe, cx, m];
    CleanPrefix(xe, cx, m);
    CleanBody(dep, x);
    var rep := Repeat(count, [dep, x], "");
    CleanStep(front, rep, [cx, m']);
    assert PushItem([cx, m'], Repeat(count, [x], "")) == [cx, m', Repeat(count, [x], "")];
    assert front + [rep] == [xe, cx, m, rep];
  }

  lemma WithoutNoiseDropsChannels()
    ensures WithoutNoise([
      GA(X_ERROR, [Q(0)], [0.25], ""),
      G(CX, [Q(0), Q(1)]),
      GA(M, [Q(0)], [0.125], ""),
      Repeat(50, [GA(DEPOLARIZE1, [Q(0), Q(1), Q(2)], [0.25], ""), G(X, [Q(0), Q(1), Q(2)])], "")
    ]) == [G(CX, [Q(0), Q(1)]), G(M, [Q(0)]), Repeat(50, [G(X, [Q(0), Q(1), Q(2)])], "")]
  {
    CleanChannels(GA(X_ERROR, [Q(0)], [0.25], ""), G(CX, [Q(0), Q(1)]), GA(M, [Q(0)], [0.125], ""),
      GA(DEPOLARIZE1, [Q(0), Q(1), Q(2)], [0.25], ""), G(X, [Q(0), Q(1), Q(2)]), 50);
  }

  /** A gate, a noise channel, a noisy measurement and an annotation: the shape
    * of the test_tag_without_noise circuit. */
  lemma CleanTagged(r: Item, xe: Item, m: Item, d: Item)
    requires r.Op? && !IsNoiseChannel(r.inst.gate) && !ProducesResults(r.inst.gate)
    requires xe.Op? && IsNoiseChannel(xe.inst.gate)
    requires m.Op? && ProducesResults(m.inst.gate) && !CanFuse(r.inst, m.inst.(args := []))
    requires d.Op? && !IsNoiseChannel(d.inst.gate) && !ProducesResults(d.inst.gate)
    requires !CanFuse(m.inst.(args := []), d.inst)
    ensures WithoutNoise([r, xe, m, d]) == [r, Op(m.inst.(args := [])), d]
  {
    var m' := Op(m.inst.(args := []));
    CleanStep([], r, []);
    assert [] + [r] == [r];
    assert PushItem([], r) == [r];
    CleanStep([r], xe, [r]);
    assert [r] + [xe] == [r, xe];
    CleanStep([r, xe], m, [r]);
    assert [r, xe] + [m] == [r, xe, m];
    assert PushItem([r], m') == [r, m'];
    CleanStep([r, xe, m], d, [r, m']);
    assert [r, xe, m] + [d] == [r, xe, m, d];
    assert PushItem([r, m'], d) == [r, m', d];
  }

  lemma WithoutNoiseKeepsTags()
    ensures WithoutNoise([
      GA(R, [Q(0)], [], "test1"),
      GA(X_ERROR, [Q(0), Q(1)], [0.25], "test2"),
      GA(M, [Q(0)], [0.25], "test3"),
      GA(DETECTOR, [Rec(-1)], [], "test4")
    ]) == [GA(R, [Q(0)], [], "test1"), GA(M, [Q(0)], [], "test3"), GA(DETECTOR, [Rec(-1)], [], "test4")]
  {
    CleanTagged(GA(R, [Q(0)], [], "test1"), GA(X_ERROR, [Q(0), Q(1)], [0.25], "test2"),
      GA(M, [Q(0)], [0.25], "test3"), GA(DETECTOR, [Rec(-1)], [], "test4"));
  }

  /** A circuit made only of noise channels cleans to nothing. */
  lemma {:induction false} CleanAllNoise(items: seq<Item>)
    requires forall k :: 0 <= k < |items| ==> items[k].Op? && IsNoiseChannel(items[k].inst.gate)
    ensures WithoutNoise(items) == []
  {
    if |items| > 0 {
      CleanAllNoise(items[..|items| - 1]);
    }
  }

  /** Four noise channels before a gate: the shape of the
    * test_without_noise_removes_id_errors circuit. */
  lemma CleanIdentityErrors(a: Item, b: Item, c: Item, d: Item, h: Item)
    requires a.Op? && IsNoiseChannel(a.inst.gate) && b.Op? && IsNoiseChannel(b.inst.gate)
    requires c.Op? && IsNoiseChannel(c.inst.gate) && d.Op? && IsNoiseChannel(d.inst.gate)
    requires h.Op? && !IsNoiseChannel(h.inst.gate) && !ProducesResults(h.inst.gate)
    ensures WithoutNoise([a, b, c, d, h]) == [h]
  {
    var noise := [a, b, c, d];
    CleanAllNoise(noise);
    CleanStep(noise, h, []);
    assert PushItem([], h) == [h];
    assert noise + [h] == [a, b, c, d, h];
  }

  lemma WithoutNoiseDropsIdentityErrors()
    ensures WithoutNoise([
      G(I_ERROR, [Q(0)]),
      GA(I_ERROR, [Q(1)], [0.25], ""),
      G(II_ERROR, [Q(2), Q(3)]),
      GA(II_ERROR, [Q(3), Q(4)], [0.125], ""),
      G(H, [Q(0)])
    ]) == [G(H, [Q(0)])]
  {
    CleanIdentityErrors(G(I_ERROR, [Q(0)]), GA(I_ERROR, [Q(1)], [0.25], ""),
      G(II_ERROR, [Q(2), Q(3)]), GA(II_ERROR, [Q(3), Q(4)], [0.125], ""), G(H, [Q(0)]));
  }

  // --- test_circuit_inverse / test_tag_inverse ---------------------------------------

  lemma InverseIs(items: seq<Item>, expected: seq<Item>)
    requires Invertible(items) && |expected| == |items|
    requires forall k :: 0 <= k < |items| ==> expected[k] == InvertItem(items[|items| - 1 - k])
    ensures Inverse(items) == Success(expected)
  {
    var inv := InvertAll(items);
    assert |inv| == |expected|;
    forall k | 0 <= k < |inv| ensures inv[k] == expected[k] {
      assert inv[k] == InvertItem(items[|items| - 1 - k]);
    }
    assert inv == expected;
  }

  lemma InverseReversesPairs()
    ensures Inverse([G(S, [Q(0), Q(1)]), G(CX, [Q(0), Q(1), Q(0), Q(2)])])
      == Success([G(CX, [Q(0), Q(2), Q(0), Q(1)]), G(S_DAG, [Q(1), Q(0)])])
  {
    var s := G(S, [Q(0), Q(1)]);
    var cx := G(CX, [Q(0), Q(1), Q(0), Q(2)]);
    assert InvertItem(s) == G(S_DAG, [Q(1), Q(0)]) by {
      assert ReverseTargets([Q(0), Q(1)]) == [Q(1), Q(0)];
    }
    assert InvertItem(cx) == G(CX, [Q(0), Q(2), Q(0), Q(1)]) by {
      var ts := [Q(0), Q(1), Q(0), Q(2)];
      assert ts[2..] == [Q(0), Q(2)] && ts[..2] == [Q(0), Q(1)];
      assert [Q(0), Q(2)][2..] == [] && [Q(0), Q(2)][..2] == [Q(0), Q(2)];
      assert ReversePairs(ts) == [Q(0), Q(2), Q(0), Q(1)];
    }
    InverseIs([s, cx], [G(CX, [Q(0), Q(2), Q(0), Q(1)]), G(S_DAG, [Q(1), Q(0)])]);
  }

  /** The inverse of a four-item circuit, item by item. */
  lemma Inverse4(a: Item, b: Item, c: Item, d: Item)
    requires ItemInvertible(a) && ItemInvertible(b) && ItemInvertible(c) && ItemInvertible(d)
    ensures Inverse([a, b, c, d]) == Success([InvertItem(d), InvertItem(c), InvertItem(b), InvertItem(a)])
  {
    var items := [a, b, c, d];
    assert Invertible(items) by {
      forall k | 0 <= k < 4 ensures ItemInvertible(items[k]) {
      }
    }
    InverseIs(items, [InvertItem(d), InvertItem(c), InvertItem(b), InvertItem(a)]);
  }

  lemma InverseKeepsTags()
    ensures Inverse([
      GA(S, [Q(0)], [], "test1"),
      GA(CX, [Q(0), Q(1)], [], "test2"),
      GA(SPP, [PauliTarget(PauliX, 0, false), Combiner, PauliTarget(PauliY, 1, false)], [], "test3"),
      Repeat(2, [GA(H, [Q(0)], [], "test5")], "test4")
    ]) == Success([
      Repeat(2, [GA(H, [Q(0)], [], "test5")], "test4"),
      GA(SPP_DAG, [PauliTarget(PauliY, 1, false), Combiner, PauliTarget(PauliX, 0, false)], [], "test3"),
      GA(CX, [Q(0), Q(1)], [], "test2"),
      GA(S_DAG, [Q(0)], [], "test1")
    ])
  {
    var s := GA(S, [Q(0)], [], "test1");
    var cx := GA(CX, [Q(0), Q(1)], [], "test2");
    var spp := GA(SPP, [PauliTarget(PauliX, 0, false), Combiner, PauliTarget(PauliY, 1, false)], [], "test3");
    var h := GA(H, [Q(0)], [], "test5");
    var rep := Repeat(2, [h], "test4");
    InvertTaggedS();
    InvertTaggedCx();
    InvertTaggedSpp();
    InvertTaggedBlock();
    Inverse4(s, cx, spp, rep);
  }

  lemma InvertTaggedS()
    ensures ItemInvertible(GA(S, [Q(0)], [], "test1"))
    ensures InvertItem(GA(S, [Q(0)], [], "test1")) == GA(S_DAG, [Q(0)], [], "test1")
  {
    var ts := [Q(0)];
    assert ReverseTargets(ts) == ts;
  }

  lemma InvertTaggedCx()
    ensures ItemInvertible(GA(CX, [Q(0), Q(1)], [], "test2"))
    ensures InvertItem(GA(CX, [Q(0), Q(1)], [], "test2")) == GA(CX, [Q(0), Q(1)], [], "test2")
  {
    var ts := [Q(0), Q(1)];
    assert ts[2..] == [] && ts[..2] == ts;
  }

  lemma InvertTaggedSpp()
    ensures ItemInvertible(GA(SPP, [PauliTarget(PauliX, 0, false), Combiner, PauliTarget(PauliY, 1, false)], [], "test3"))
    ensures InvertItem(GA(SPP, [PauliTarget(PauliX, 0, false), Combiner, PauliTarget(PauliY, 1, false)], [], "test3"))
      == GA(SPP_DAG, [PauliTarget(PauliY, 1, false), Combiner, PauliTarget(PauliX, 0, false)], [], "test3")
  {
    var ts := [PauliTarget(PauliX, 0, false), Combiner, PauliTarget(PauliY, 1, false)];
    assert ReverseTargets(ts) == [ts[2], ts[1], ts[0]];
  }

  lemma InvertTaggedBlock()
    ensures ItemInvertible(Repeat(2, [GA(H, [Q(0)], [], "test5")], "test4"))
    ensures InvertItem(Repeat(2, [GA(H, [Q(0)], [], "test5")], "test4")) == Repeat(2, [GA(H, [Q(0)], [], "test5")], "test4")
  {
    var h := GA(H, [Q(0)], [], "test5");
    assert InvertItem(h) == h by {
      assert ReverseTargets([Q(0)]) == [Q(0)];
    }
    assert InvertAll([h]) == [h];
  }
}
