/**
 * The circuit's whole-circuit rewrites: flattened() (unroll repeat blocks and
 * fold SHIFT_COORDS into later coordinates), without_noise() (drop noise
 * channels and measurement flip probabilities) and inverse() (undo the
 * circuit's unitary gates in reverse order).
 */
module CircuitTransforms {
  import opened Wrappers
  import opened Gates
  import opened Circuits

  // ---------------------------------------------------------------------------
  // flattened()
  // ---------------------------------------------------------------------------

  /** The circuit built so far and the coordinate shift accumulated so far. */
  datatype Flat = Flat(out: seq<Item>, shift: seq<real>)

  /** Coordinate-wise sum, the shorter vector padded with zeros. */
  function AddCoords(a: seq<real>, b: seq<real>): (r: seq<real>)
    ensures |r| == Max(|a|, |b|)
  {
    seq(Max(|a|, |b|), k requires 0 <= k < Max(|a|, |b|) =>
      (if k < |a| then a[k] else 0.0) + (if k < |b| then b[k] else 0.0))
  }

  /** Adds the shift to each coordinate the instruction has. */
  function ShiftArgs(args: seq<real>, shift: seq<real>): seq<real>
  {
    seq(|args|, k requires 0 <= k < |args| => args[k] + (if k < |shift| then shift[k] else 0.0))
  }

  /** Whether an instruction's arguments are coordinates that a shift moves. */
  predicate HasCoords(g: Gate)
  {
    g == QUBIT_COORDS || g == DETECTOR
  }

  function FlatOp(acc: Flat, inst: Instruction): Flat
  {
    if inst.gate == SHIFT_COORDS then Flat(acc.out, AddCoords(acc.shift, inst.args))
    else if HasCoords(inst.gate) then Flat(PushItem(acc.out, Op(inst.(args := ShiftArgs(inst.args, acc.shift)))), acc.shift)
    else Flat(PushItem(acc.out, Op(inst)), acc.shift)
  }

  function FlatItems(acc: Flat, items: seq<Item>): Flat
    decreases items, 0
  {
    if |items| == 0 then acc
    else match items[0]
      case Op(inst) => FlatItems(FlatOp(acc, inst), items[1..])
      case Repeat(count, body, _) => FlatItems(FlatRepeat(acc, body, count), items[1..])
  }

  /** Runs the body count times, the shift carrying over between iterations. */
  function FlatRepeat(acc: Flat, body: seq<Item>, count: nat): Flat
    decreases body, count
  {
    if count == 0 then acc else FlatRepeat(FlatItems(acc, body), body, count - 1)
  }

  /** flattened(): the repeat blocks unrolled, their tags dropped, SHIFT_COORDS
    * removed and added to the coordinates of every later QUBIT_COORDS and
    * DETECTOR; instructions that meet are fused. */
  function Flattened(items: seq<Item>): seq<Item>
  {
    FlatItems(Flat([], []), items).out
  }

  /** No repeat block and no SHIFT_COORDS. */
  predicate IsFlat(items: seq<Item>)
  {
    forall k :: 0 <= k < |items| ==> items[k].Op? && items[k].inst.gate != SHIFT_COORDS
  }

  lemma PushFlat(out: seq<Item>, inst: Instruction)
    requires IsFlat(out) && inst.gate != SHIFT_COORDS
    ensures IsFlat(PushItem(out, Op(inst)))
  {
  }

  lemma {:induction false} FlatItemsShape(acc: Flat, items: seq<Item>)
    requires IsFlat(acc.out) && Normalized(acc.out)
    ensures IsFlat(FlatItems(acc, items).out) && Normalized(FlatItems(acc, items).out)
    decreases items, 0
  {
    if |items| > 0 {
      match items[0]
      case Op(inst) =>
        var next := FlatOp(acc, inst);
        if inst.gate != SHIFT_COORDS {
          if HasCoords(inst.gate) {
            PushFlat(acc.out, inst.(args := ShiftArgs(inst.args, acc.shift)));
            PushItemNormalized(acc.out, Op(inst.(args := ShiftArgs(inst.args, acc.shift))));
          } else {
            PushFlat(acc.out, inst);
            PushItemNormalized(acc.out, Op(inst));
          }
        }
        FlatItemsShape(next, items[1..]);
      case Repeat(count, body, _) =>
        FlatRepeatShape(acc, body, count);
        FlatItemsShape(FlatRepeat(acc, body, count), items[1..]);
    }
  }

  lemma {:induction false} FlatRepeatShape(acc: Flat, body: seq<Item>, count: nat)
    requires IsFlat(acc.out) && Normalized(acc.out)
    ensures IsFlat(FlatRepeat(acc, body, count).out) && Normalized(FlatRepeat(acc, body, count).out)
    decreases body, count
  {
    if count > 0 {
      FlatItemsShape(acc, body);
      FlatRepeatShape(FlatItems(acc, body), body, count - 1);
    }
  }

  /** The result of flattened() has no repeat block, no SHIFT_COORDS, and no two
    * adjacent instructions that could fuse. */
  lemma FlattenedShape(items: seq<Item>)
    ensures IsFlat(Flattened(items)) && Normalized(Flattened(items))
  {
    FlatItemsShape(Flat([], []), items);
  }

  lemma {:induction false} FlatItemsCount(acc: Flat, items: seq<Item>, g: Gate)
    requires !Fusable(g) && g != SHIFT_COORDS
    ensures Count(FlatItems(acc, items).out, g) == Count(acc.out, g) + Count(items, g)
    decreases items, 0
  {
    if |items| > 0 {
      CountCons(items, g);
      match items[0]
      case Op(inst) =>
        if inst.gate != SHIFT_COORDS {
          if HasCoords(inst.gate) {
            PushItemCount(acc.out, Op(inst.(args := ShiftArgs(inst.args, acc.shift))), g);
          } else {
            PushItemCount(acc.out, Op(inst), g);
          }
        }
        FlatItemsCount(FlatOp(acc, inst), items[1..], g);
      case Repeat(count, body, _) =>
        FlatRepeatCount(acc, body, count, g);
        FlatItemsCount(FlatRepeat(acc, body, count), items[1..], g);
    }
  }

  lemma {:induction false} FlatRepeatCount(acc: Flat, body: seq<Item>, count: nat, g: Gate)
    requires !Fusable(g) && g != SHIFT_COORDS
    ensures Count(FlatRepeat(acc, body, count).out, g) == Count(acc.out, g) + count * Count(body, g)
    decreases body, count
  {
    if count > 0 {
      FlatItemsCount(acc, body, g);
      FlatRepeatCount(FlatItems(acc, body), body, count - 1, g);
      assert (count - 1) * Count(body, g) + Count(body, g) == count * Count(body, g);
    }
  }

  /** Flattening keeps num_detectors and num_ticks: every repeated DETECTOR or
    * TICK is written out. */
  lemma FlattenedCounts(items: seq<Item>)
    ensures NumDetectors(Flattened(items)) == NumDetectors(items)
    ensures NumTicks(Flattened(items)) == NumTicks(items)
  {
    FlatItemsCount(Flat([], []), items, DETECTOR);
    FlatItemsCount(Flat([], []), items, TICK);
  }

  lemma AddCoordsEmpty(d: seq<real>)
    ensures AddCoords([], d) == d
  {
  }

  /** A coordinate instruction after a SHIFT_COORDS has the shift added to its
    * coordinates, and the shift itself disappears. */
  lemma FlattenedShiftsLaterCoords(d: seq<real>, tag: string, inst: Instruction)
    requires HasCoords(inst.gate)
    ensures Flattened([Op(Instruction(SHIFT_COORDS, [], d, tag)), Op(inst)])
      == [Op(inst.(args := ShiftArgs(inst.args, d)))]
  {
    var items := [Op(Instruction(SHIFT_COORDS, [], d, tag)), Op(inst)];
    AddCoordsEmpty(d);
    assert FlatItems(Flat([], []), items) == FlatItems(Flat([], d), [Op(inst)]) by {
      assert items[1..] == [Op(inst)];
    }
    assert [Op(inst)][1..] == [];
    var shifted := Op(inst.(args := ShiftArgs(inst.args, d)));
    assert PushItem([], shifted) == [shifted];
    assert FlatItems(Flat([], d), [Op(inst)]) == FlatItems(Flat([shifted], d), []);
  }

  lemma ShiftNothing(args: seq<real>)
    ensures ShiftArgs(args, []) == args
  {
  }

  lemma {:induction false} FlatRebuild(s: seq<Item>, i: nat)
    requires IsFlat(s) && Normalized(s) && i <= |s|
    ensures FlatItems(Flat(s[..i], []), s[i..]) == Flat(s, [])
    decreases |s| - i
  {
    if i == |s| {
      assert s[..i] == s;
    } else {
      var inst := s[i].inst;
      ShiftNothing(inst.args);
      assert inst.(args := ShiftArgs(inst.args, [])) == inst;
      assert i > 0 ==> !Fusible(s[..i][i - 1], s[i]);
      assert PushItem(s[..i], Op(inst)) == s[..i + 1];
      assert s[i..][1..] == s[i + 1..];
      FlatRebuild(s, i + 1);
    }
  }

  /** flattened() is idempotent. */
  lemma FlattenedIdempotent(items: seq<Item>)
    ensures Flattened(Flattened(items)) == Flattened(items)
  {
    var f := Flattened(items);
    FlattenedShape(items);
    FlatRebuild(f, 0);
    assert f[..0] == [] && f[0..] == f;
  }

  /** A shift taken count times; taking it no times leaves no trace, not even
    * padding. */
  function Scale(count: nat, s: seq<real>): seq<real>
  {
    if count == 0 then [] else seq(|s|, k requires 0 <= k < |s| => count as real * s[k])
  }

  /** The total coordinate shift a circuit applies, stated independently of the
    * unrolling: the SHIFT_COORDS arguments summed, a repeat block's body shift
    * counted once per repetition. */
  function ShiftOf(items: seq<Item>): seq<real>
    decreases items
  {
    if |items| == 0 then []
    else match items[0]
      case Op(inst) => AddCoords(if inst.gate == SHIFT_COORDS then inst.args else [], ShiftOf(items[1..]))
      case Repeat(count, body, _) => AddCoords(Scale(count, ShiftOf(body)), ShiftOf(items[1..]))
  }

  lemma AddCoordsAssoc(a: seq<real>, b: seq<real>, c: seq<real>)
    ensures AddCoords(AddCoords(a, b), c) == AddCoords(a, AddCoords(b, c))
  {
    var l := AddCoords(AddCoords(a, b), c);
    var r := AddCoords(a, AddCoords(b, c));
    assert |l| == |r|;
    forall k | 0 <= k < |l|
      ensures l[k] == r[k]
    {
    }
  }

  lemma AddCoordsNone(a: seq<real>)
    ensures AddCoords(a, []) == a
  {
  }

  lemma ScaleStep(count: nat, s: seq<real>)
    requires count > 0
    ensures AddCoords(s, Scale(count - 1, s)) == Scale(count, s)
  {
    var l := AddCoords(s, Scale(count - 1, s));
    assert |l| == |s|;
    forall k | 0 <= k < |s|
      ensures l[k] == Scale(count, s)[k]
    {
      if count > 1 {
        assert l[k] == s[k] + (count - 1) as real * s[k];
      }
    }
  }

  /** The shift flattening carries past a circuit is the shift before it plus
    * the circuit's total shift. */
  lemma {:induction false} FlatItemsShift(acc: Flat, items: seq<Item>)
    ensures FlatItems(acc, items).shift == AddCoords(acc.shift, ShiftOf(items))
    decreases items, 0
  {
    if |items| == 0 {
      AddCoordsNone(acc.shift);
    } else {
      var rest := ShiftOf(items[1..]);
      match items[0]
      case Op(inst) =>
        FlatItemsShift(FlatOp(acc, inst), items[1..]);
        if inst.gate == SHIFT_COORDS {
          AddCoordsAssoc(acc.shift, inst.args, rest);
        } else {
          AddCoordsEmpty(rest);
        }
      case Repeat(count, body, _) =>
        FlatRepeatShift(acc, body, count);
        FlatItemsShift(FlatRepeat(acc, body, count), items[1..]);
        AddCoordsAssoc(acc.shift, Scale(count, ShiftOf(body)), rest);
    }
  }

  lemma {:induction false} FlatRepeatShift(acc: Flat, body: seq<Item>, count: nat)
    ensures FlatRepeat(acc, body, count).shift == AddCoords(acc.shift, Scale(count, ShiftOf(body)))
    decreases body, count
  {
    if count == 0 {
      AddCoordsNone(acc.shift);
    } else {
      var s := ShiftOf(body);
      FlatItemsShift(acc, body);
      FlatRepeatShift(FlatItems(acc, body), body, count - 1);
      AddCoordsAssoc(acc.shift, s, Scale(count - 1, s));
      ScaleStep(count, s);
    }
  }

  /** An instruction as it runs under a coordinate shift. */
  function ShiftInst(inst: Instruction, shift: seq<real>): Instruction
  {
    if HasCoords(inst.gate) then inst.(args := ShiftArgs(inst.args, shift)) else inst
  }

  /** The instructions a circuit executes, in order, stated without the
    * accumulator flattening threads through: every repeat block written out
    * once per repetition, SHIFT_COORDS left out, and every QUBIT_COORDS and
    * DETECTOR moved by the shift in force, which a block's body advances by
    * its ShiftOf on each pass. */
  function Unroll(items: seq<Item>, shift: seq<real>): seq<Instruction>
    decreases items, 0
  {
    if |items| == 0 then []
    else match items[0]
      case Op(inst) =>
        if inst.gate == SHIFT_COORDS then Unroll(items[1..], AddCoords(shift, inst.args))
        else [ShiftInst(inst, shift)] + Unroll(items[1..], shift)
      case Repeat(count, body, _) =>
        UnrollRepeat(body, count, shift) + Unroll(items[1..], AddCoords(shift, Scale(count, ShiftOf(body))))
  }

  function UnrollRepeat(body: seq<Item>, count: nat, shift: seq<real>): seq<Instruction>
    decreases body, count
  {
    if count == 0 then [] else Unroll(body, shift) + UnrollRepeat(body, count - 1, AddCoords(shift, ShiftOf(body)))
  }

  /** The operations of a list of instructions, with fusion undone. */
  function InstAtoms(insts: seq<Instruction>): seq<Atom>
  {
    if |insts| == 0 then [] else ItemAtoms(Op(insts[0])) + InstAtoms(insts[1..])
  }

  lemma {:induction false} InstAtomsAppend(a: seq<Instruction>, b: seq<Instruction>)
    ensures InstAtoms(a + b) == InstAtoms(a) + InstAtoms(b)
    decreases |a|
  {
    if |a| == 0 {
      assert a + b == b;
    } else {
      assert (a + b)[1..] == a[1..] + b;
      InstAtomsAppend(a[1..], b);
    }
  }

  /** Flattening appends exactly the operations of the unrolled instructions. */
  lemma {:induction false} FlatItemsUnroll(acc: Flat, items: seq<Item>)
    ensures Atoms(FlatItems(acc, items).out) == Atoms(acc.out) + InstAtoms(Unroll(items, acc.shift))
    decreases items, 0
  {
    if |items| == 0 {
      assert Atoms(acc.out) + [] == Atoms(acc.out);
    } else {
      match items[0]
      case Op(inst) =>
        var next := FlatOp(acc, inst);
        assert FlatItems(acc, items) == FlatItems(next, items[1..]);
        FlatItemsUnroll(next, items[1..]);
        if inst.gate == SHIFT_COORDS {
          assert Unroll(items, acc.shift) == Unroll(items[1..], next.shift);
        } else {
          var rest := Unroll(items[1..], acc.shift);
          FlatOpUnroll(acc, inst, rest);
          assert Unroll(items, acc.shift) == [ShiftInst(inst, acc.shift)] + rest;
        }
      case Repeat(count, body, _) =>
        var mid := FlatRepeat(acc, body, count);
        assert FlatItems(acc, items) == FlatItems(mid, items[1..]);
        FlatRepeatUnroll(acc, body, count);
        FlatRepeatShift(acc, body, count);
        var u := UnrollRepeat(body, count, acc.shift);
        var rest := Unroll(items[1..], mid.shift);
        FlatItemsUnroll(mid, items[1..]);
        assert Unroll(items, acc.shift) == u + rest;
        InstAtomsAppend(u, rest);
        var a, us, rs := Atoms(acc.out), InstAtoms(u), InstAtoms(rest);
        assert Atoms(FlatItems(acc, items).out) == Atoms(mid.out) + rs;
        assert Atoms(mid.out) == a + us;
        assert InstAtoms(Unroll(items, acc.shift)) == us + rs;
        Regroup(a, us, rs);
    }
  }

  /** One instruction other than SHIFT_COORDS: its operations are appended,
    * moved by the shift in force. */
  lemma FlatOpUnroll(acc: Flat, inst: Instruction, rest: seq<Instruction>)
    requires inst.gate != SHIFT_COORDS
    ensures FlatOp(acc, inst).shift == acc.shift
    ensures Atoms(FlatOp(acc, inst).out) + InstAtoms(rest) == Atoms(acc.out) + InstAtoms([ShiftInst(inst, acc.shift)] + rest)
  {
    var si := ShiftInst(inst, acc.shift);
    var out := PushItem(acc.out, Op(si));
    assert FlatOp(acc, inst) == Flat(out, acc.shift);
    var a, b, r := Atoms(acc.out), ItemAtoms(Op(si)), InstAtoms(rest);
    assert Atoms(out) == a + b by {
      PushItemAtoms(acc.out, Op(si));
    }
    assert InstAtoms([si] + rest) == b + r by {
      InstAtomsCons(si, rest);
    }
    Regroup(a, b, r);
  }

  lemma InstAtomsCons(inst: Instruction, rest: seq<Instruction>)
    ensures InstAtoms([inst] + rest) == ItemAtoms(Op(inst)) + InstAtoms(rest)
  {
    assert ([inst] + rest)[1..] == rest;
  }

  lemma {:induction false} FlatRepeatUnroll(acc: Flat, body: seq<Item>, count: nat)
    ensures Atoms(FlatRepeat(acc, body, count).out) == Atoms(acc.out) + InstAtoms(UnrollRepeat(body, count, acc.shift))
    decreases body, count
  {
    if count == 0 {
      FlatRepeatNone(acc, body);
    } else {
      var mid := FlatItems(acc, body);
      var u := Unroll(body, acc.shift);
      var rest := UnrollRepeat(body, count - 1, mid.shift);
      var a, us, rs := Atoms(acc.out), InstAtoms(u), InstAtoms(rest);
      assert Atoms(mid.out) == a + us by {
        FlatItemsUnroll(acc, body);
      }
      assert Atoms(FlatRepeat(acc, body, count).out) == Atoms(mid.out) + rs by {
        assert FlatRepeat(acc, body, count) == FlatRepeat(mid, body, count - 1);
        FlatRepeatUnroll(mid, body, count - 1);
      }
      assert InstAtoms(UnrollRepeat(body, count, acc.shift)) == us + rs by {
        FlatItemsShift(acc, body);
        assert UnrollRepeat(body, count, acc.shift) == u + rest;
        InstAtomsAppend(u, rest);
      }
      Regroup(a, us, rs);
    }
  }

  lemma FlatRepeatNone(acc: Flat, body: seq<Item>)
    ensures Atoms(FlatRepeat(acc, body, 0).out) == Atoms(acc.out) + InstAtoms(UnrollRepeat(body, 0, acc.shift))
  {
    assert UnrollRepeat(body, 0, acc.shift) == [];
    assert Atoms(acc.out) + [] == Atoms(acc.out);
  }

  /** flattened() performs exactly the instructions the circuit executes, in
    * order: nothing dropped, nothing added, tags kept, coordinates shifted. */
  lemma FlattenedUnrolls(items: seq<Item>)
    ensures Atoms(Flattened(items)) == InstAtoms(Unroll(items, []))
  {
    FlatItemsUnroll(Flat([], []), items);
  }

  /** Unrolling two circuits one after the other: the second runs under the
    * first's total shift. */
  lemma {:induction false} UnrollAppend(a: seq<Item>, b: seq<Item>, shift: seq<real>)
    ensures Unroll(a + b, shift) == Unroll(a, shift) + Unroll(b, AddCoords(shift, ShiftOf(a)))
    decreases |a|
  {
    if |a| == 0 {
      assert a + b == b;
      AddCoordsNone(shift);
    } else {
      assert (a + b)[0] == a[0] && (a + b)[1..] == a[1..] + b;
      var rest := ShiftOf(a[1..]);
      match a[0]
      case Op(inst) =>
        if inst.gate == SHIFT_COORDS {
          UnrollAppend(a[1..], b, AddCoords(shift, inst.args));
          AddCoordsAssoc(shift, inst.args, rest);
        } else {
          UnrollAppend(a[1..], b, shift);
          AddCoordsEmpty(rest);
        }
      case Repeat(count, body, _) =>
        UnrollAppend(a[1..], b, AddCoords(shift, Scale(count, ShiftOf(body))));
        AddCoordsAssoc(shift, Scale(count, ShiftOf(body)), rest);
    }
  }

  /** A QUBIT_COORDS or DETECTOR after any prefix runs with the prefix's total
    * shift, repeat blocks included, added to its coordinates. */
  lemma UnrollShiftsLaterCoords(pre: seq<Item>, inst: Instruction, post: seq<Item>)
    requires HasCoords(inst.gate)
    ensures Unroll(pre + [Op(inst)] + post, [])
      == Unroll(pre, []) + [inst.(args := ShiftArgs(inst.args, ShiftOf(pre)))] + Unroll(post, ShiftOf(pre))
  {
    var tail := [Op(inst)] + post;
    var sp := ShiftOf(pre);
    var moved := inst.(args := ShiftArgs(inst.args, sp));
    assert pre + [Op(inst)] + post == pre + tail;
    assert Unroll(pre + tail, []) == Unroll(pre, []) + Unroll(tail, sp) by {
      UnrollAppend(pre, tail, []);
      AddCoordsEmpty(sp);
    }
    assert Unroll(tail, sp) == [moved] + Unroll(post, sp) by {
      assert tail[0] == Op(inst) && tail[1..] == post;
    }
    Regroup(Unroll(pre, []), [moved], Unroll(post, sp));
  }

  /** In flattened(), a coordinate instruction after any prefix carries its
    * coordinates plus the prefix's total shift, between the operations of the
    * unrolled prefix and those of the rest. */
  lemma FlattenedShiftsCoords(pre: seq<Item>, inst: Instruction, post: seq<Item>)
    requires HasCoords(inst.gate)
    ensures Atoms(Flattened(pre + [Op(inst)] + post))
      == InstAtoms(Unroll(pre, [])) + ItemAtoms(Op(inst.(args := ShiftArgs(inst.args, ShiftOf(pre)))))
         + InstAtoms(Unroll(post, ShiftOf(pre)))
  {
    var c := pre + [Op(inst)] + post;
    var moved := inst.(args := ShiftArgs(inst.args, ShiftOf(pre)));
    var up, rest := Unroll(pre, []), Unroll(post, ShiftOf(pre));
    assert Atoms(Flattened(c)) == InstAtoms(Unroll(c, [])) by {
      FlattenedUnrolls(c);
    }
    assert Unroll(c, []) == (up + [moved]) + rest by {
      UnrollShiftsLaterCoords(pre, inst, post);
    }
    assert InstAtoms((up + [moved]) + rest) == InstAtoms(up + [moved]) + InstAtoms(rest) by {
      InstAtomsAppend(up + [moved], rest);
    }
    assert InstAtoms(up + [moved]) == InstAtoms(up) + ItemAtoms(Op(moved)) by {
      InstAtomsAppend(up, [moved]);
      InstAtomsCons(moved, []);
      assert [moved] + [] == [moved];
    }
  }

  // ---------------------------------------------------------------------------
  // without_noise()
  // ---------------------------------------------------------------------------

  /** without_noise(): noise channels dropped, the flip probability of noisy
    * measurements dropped, repeat blocks kept with their bodies cleaned;
    * instructions that meet are fused. */
  function WithoutNoise(items: seq<Item>): seq<Item>
    decreases items
  {
    if |items| == 0 then [] else CleanInto(WithoutNoise(items[..|items| - 1]), items[|items| - 1])
  }

  /** Appends the noiseless form of one item, if any, to an already cleaned circuit. */
  function CleanInto(out: seq<Item>, it: Item): seq<Item>
    decreases it
  {
    match it
    case Op(inst) =>
      if IsNoiseChannel(inst.gate) then out else PushItem(out, Op(Quieted(inst)))
    case Repeat(count, body, tag) => PushItem(out, Repeat(count, WithoutNoise(body), tag))
  }

  /** What is kept of an instruction that is not a noise channel: a
    * measurement loses its flip probability, anything else stays as it is. */
  function Quieted(inst: Instruction): Instruction
  {
    if ProducesResults(inst.gate) then inst.(args := []) else inst
  }

  lemma WithoutNoiseSnoc(front: seq<Item>, last: Item)
    ensures WithoutNoise(front + [last]) == CleanInto(WithoutNoise(front), last)
  {
    assert (front + [last])[..|front|] == front;
  }

  /** No noise channel and no measurement with a flip probability, at any depth. */
  predicate NoiseFree(items: seq<Item>)
  {
    forall k :: 0 <= k < |items| ==> NoiseFreeItem(items[k])
  }

  predicate NoiseFreeItem(it: Item)
  {
    match it
    case Op(inst) => !IsNoiseChannel(inst.gate) && (ProducesResults(inst.gate) ==> inst.args == [])
    case Repeat(_, body, _) => NoiseFree(body)
  }

  /** without_noise() leaves a noise-free, normalized circuit. */
  lemma {:induction false} WithoutNoiseClean(items: seq<Item>)
    ensures NoiseFree(WithoutNoise(items)) && Normalized(WithoutNoise(items))
    decreases items
  {
    if |items| > 0 {
      var front := items[..|items| - 1];
      WithoutNoiseClean(front);
      match items[|items| - 1]
      case Op(inst) =>
        if !IsNoiseChannel(inst.gate) {
          PushItemNormalized(WithoutNoise(front), Op(Quieted(inst)));
        }
      case Repeat(count, body, tag) =>
        WithoutNoiseClean(body);
        PushItemNormalized(WithoutNoise(front), Repeat(count, WithoutNoise(body), tag));
    }
  }

  /** A noise-free, normalized circuit is left as it is. */
  lemma {:induction false} WithoutNoiseKeeps(items: seq<Item>)
    requires NoiseFree(items) && Normalized(items)
    ensures WithoutNoise(items) == items
    decreases items
  {
    if |items| > 0 {
      var front := items[..|items| - 1];
      var last := items[|items| - 1];
      assert front + [last] == items;
      assert NoiseFree(front) && Normalized(front);
      WithoutNoiseKeeps(front);
      WithoutNoiseSnoc(front, last);
      assert NoiseFreeItem(last) && NormalizedItem(last);
      assert CleanInto(front, last) == PushItem(front, last) by {
        match last
        case Op(inst) =>
          assert ProducesResults(inst.gate) ==> inst.(args := []) == inst;
        case Repeat(count, body, tag) =>
          WithoutNoiseKeeps(body);
      }
      assert PushItem(front, last) == items by {
        assert |front| > 0 ==> !Fusible(front[|front| - 1], last);
      }
    }
  }

  /** without_noise() is idempotent. */
  lemma WithoutNoiseIdempotent(items: seq<Item>)
    ensures WithoutNoise(WithoutNoise(items)) == WithoutNoise(items)
  {
    WithoutNoiseClean(items);
    WithoutNoiseKeeps(WithoutNoise(items));
  }

  /** Reference reading of without_noise(), one operation at a time and
    * blind to fusion: a noise channel's operations vanish, a measurement's
    * operations lose their flip probability, a block keeps its count and tag
    * and has its body cleaned. */
  function CleanAtom(a: Atom): seq<Atom>
  {
    match a
    case OnTarget(g, args, tag, t) =>
      if IsNoiseChannel(g) then []
      else if ProducesResults(g) then [OnTarget(g, [], tag, t)]
      else [a]
    case Whole(inst) =>
      if IsNoiseChannel(inst.gate) then [] else [Whole(Quieted(inst))]
    case Block(count, body, tag) => [Block(count, WithoutNoise(body), tag)]
  }

  function CleanAtoms(atoms: seq<Atom>): seq<Atom>
  {
    if |atoms| == 0 then [] else CleanAtoms(atoms[..|atoms| - 1]) + CleanAtom(atoms[|atoms| - 1])
  }

  lemma {:induction false} CleanAtomsAppend(a: seq<Atom>, b: seq<Atom>)
    ensures CleanAtoms(a + b) == CleanAtoms(a) + CleanAtoms(b)
    decreases |b|
  {
    if |b| == 0 {
      assert a + b == a;
    } else {
      var b', x := b[..|b| - 1], b[|b| - 1];
      assert (a + b)[..|a + b| - 1] == a + b';
      assert CleanAtoms(a + b) == CleanAtoms(a + b') + CleanAtom(x);
      assert CleanAtoms(a + b') == CleanAtoms(a) + CleanAtoms(b') by { CleanAtomsAppend(a, b'); }
      Regroup(CleanAtoms(a), CleanAtoms(b'), CleanAtom(x));
    }
  }

  /** Cleaning the per-target operations of a gate drops them all for a noise
    * channel, and otherwise keeps them, target by target, with a
    * measurement's flip probability cleared. */
  lemma {:induction false} CleanTargets(g: Gate, args: seq<real>, tag: string, ts: seq<Target>)
    ensures CleanAtoms(TargetAtoms(g, args, tag, ts))
         == if IsNoiseChannel(g) then [] else TargetAtoms(g, if ProducesResults(g) then [] else args, tag, ts)
    decreases |ts|
  {
    if |ts| > 0 {
      var front, t := ts[..|ts| - 1], ts[|ts| - 1];
      var kept := if ProducesResults(g) then [] else args;
      assert TargetAtoms(g, args, tag, ts) == TargetAtoms(g, args, tag, front) + [OnTarget(g, args, tag, t)];
      assert TargetAtoms(g, kept, tag, ts) == TargetAtoms(g, kept, tag, front) + [OnTarget(g, kept, tag, t)];
      assert CleanAtoms(TargetAtoms(g, args, tag, ts))
          == CleanAtoms(TargetAtoms(g, args, tag, front)) + CleanAtom(OnTarget(g, args, tag, t)) by {
        var all := TargetAtoms(g, args, tag, ts);
        assert all[..|all| - 1] == TargetAtoms(g, args, tag, front);
      }
      CleanTargets(g, args, tag, front);
    }
  }

  /** Cleaning one instruction's operations gives the operations of what
    * without_noise() keeps of it. */
  lemma CleanInstAtoms(inst: Instruction)
    ensures CleanAtoms(ItemAtoms(Op(inst)))
         == if IsNoiseChannel(inst.gate) then [] else ItemAtoms(Op(Quieted(inst)))
  {
    if Fusable(inst.gate) {
      CleanTargets(inst.gate, inst.args, inst.tag, inst.targets);
    } else {
      assert [Whole(inst)][..0] == [];
    }
  }

  /** without_noise() does, operation by operation, what the reference
    * reading says, whatever the input: noise dropped, measurement flip
    * probabilities dropped, blocks cleaned, everything else kept in order. */
  lemma {:induction false} WithoutNoiseAtoms(items: seq<Item>)
    ensures Atoms(WithoutNoise(items)) == CleanAtoms(Atoms(items))
    decreases |items|
  {
    if |items| > 0 {
      var front, last := items[..|items| - 1], items[|items| - 1];
      var done := WithoutNoise(front);
      assert WithoutNoise(items) == CleanInto(done, last);
      assert CleanAtoms(Atoms(items)) == CleanAtoms(Atoms(front)) + CleanAtoms(ItemAtoms(last)) by {
        CleanAtomsAppend(Atoms(front), ItemAtoms(last));
      }
      assert Atoms(done) == CleanAtoms(Atoms(front)) by { WithoutNoiseAtoms(front); }
      match last
      case Op(inst) =>
        assert CleanAtoms(ItemAtoms(last))
            == if IsNoiseChannel(inst.gate) then [] else ItemAtoms(Op(Quieted(inst))) by {
          CleanInstAtoms(inst);
        }
        if IsNoiseChannel(inst.gate) {
          assert Atoms(done) + [] == Atoms(done);
        } else {
          PushItemAtoms(done, Op(Quieted(inst)));
        }
      case Repeat(count, body, tag) =>
        assert CleanAtoms(ItemAtoms(last)) == [Block(count, WithoutNoise(body), tag)] by {
          assert [Block(count, body, tag)][..0] == [];
        }
        PushItemAtoms(done, Repeat(count, WithoutNoise(body), tag));
    }
  }

  /** Removing noise keeps every DETECTOR and TICK. */
  lemma {:induction false} WithoutNoiseCount(items: seq<Item>, g: Gate)
    requires !Fusable(g) && !IsNoiseChannel(g)
    ensures Count(WithoutNoise(items), g) == Count(items, g)
    decreases items
  {
    if |items| > 0 {
      var front := items[..|items| - 1];
      var last := items[|items| - 1];
      var done := WithoutNoise(front);
      assert items == front + [last];
      CountSnoc(front, last, g);
      WithoutNoiseCount(front, g);
      assert WithoutNoise(items) == CleanInto(done, last);
      match last
      case Op(inst) =>
        if !IsNoiseChannel(inst.gate) {
          var it := if ProducesResults(inst.gate) then Op(inst.(args := [])) else Op(inst);
          assert CleanInto(done, last) == PushItem(done, it);
          PushItemCount(done, it, g);
        }
      case Repeat(count, body, tag) =>
        WithoutNoiseCount(body, g);
        PushItemCount(done, Repeat(count, WithoutNoise(body), tag), g);
    }
  }

  lemma WithoutNoiseCounts(items: seq<Item>)
    ensures NumDetectors(WithoutNoise(items)) == NumDetectors(items)
    ensures NumTicks(WithoutNoise(items)) == NumTicks(items)
  {
    WithoutNoiseCount(items, DETECTOR);
    WithoutNoiseCount(items, TICK);
  }

  // ---------------------------------------------------------------------------
  // inverse()
  // ---------------------------------------------------------------------------

  /** Every instruction, at every depth, has an inverse gate. */
  predicate Invertible(items: seq<Item>)
  {
    forall k :: 0 <= k < |items| ==> ItemInvertible(items[k])
  }

  predicate ItemInvertible(it: Item)
  {
    match it
    case Op(inst) => InverseGate(inst.gate).Some?
    case Repeat(_, body, _) => Invertible(body)
  }

  function ReverseTargets(ts: seq<Target>): seq<Target>
  {
    seq(|ts|, k requires 0 <= k < |ts| => ts[|ts| - 1 - k])
  }

  /** The target pairs in reverse order, each pair kept as it is. */
  function ReversePairs(ts: seq<Target>): seq<Target>
  {
    if |ts| < 2 then ts else ReversePairs(ts[2..]) + ts[..2]
  }

  /** Two-qubit gates reverse their pairs; other gates reverse their targets
    * (for SPP, the Pauli product is reversed, combiners included). */
  function InverseTargets(g: Gate, ts: seq<Target>): seq<Target>
  {
    if IsTwoQubit(g) then ReversePairs(ts) else ReverseTargets(ts)
  }

  function InvertItem(it: Item): Item
    requires ItemInvertible(it)
    decreases it
  {
    match it
    case Op(inst) =>
      Op(inst.(gate := InverseGate(inst.gate).value, targets := InverseTargets(inst.gate, inst.targets)))
    case Repeat(count, body, tag) => Repeat(count, InvertAll(body), tag)
  }

  function InvertAll(items: seq<Item>): seq<Item>
    requires Invertible(items)
    decreases items
  {
    seq(|items|, k requires 0 <= k < |items| => InvertItem(items[|items| - 1 - k]))
  }

  /** inverse(): the items in reverse order, each inverted; a repeat block keeps
    * its count and tag and inverts its body. A gate without an inverse fails. */
  function Inverse(items: seq<Item>): Result<seq<Item>, CircuitError>
  {
    if Invertible(items) then Success(InvertAll(items)) else Failure(NotInvertible)
  }

  lemma {:induction false} ReversePairsAppend(a: seq<Target>, b: seq<Target>)
    requires |a| % 2 == 0
    ensures ReversePairs(a + b) == ReversePairs(b) + ReversePairs(a)
    decreases |a|
  {
    if |a| == 0 {
      assert a + b == b;
    } else {
      var tail := a[2..];
      assert |a| >= 2;
      assert (a + b)[2..] == tail + b;
      assert (a + b)[..2] == a[..2];
      ReversePairsAppend(tail, b);
      assert ReversePairs(a + b) == ReversePairs(tail + b) + a[..2];
      assert ReversePairs(a) == ReversePairs(tail) + a[..2];
      assert ReversePairs(b) + ReversePairs(tail) + a[..2] == ReversePairs(b) + (ReversePairs(tail) + a[..2]);
    }
  }

  lemma {:induction false} ReversePairsTwice(ts: seq<Target>)
    requires |ts| % 2 == 0
    ensures |ReversePairs(ts)| == |ts|
    ensures ReversePairs(ReversePairs(ts)) == ts
    decreases |ts|
  {
    if |ts| >= 2 {
      ReversePairsTwice(ts[2..]);
      ReversePairsAppend(ReversePairs(ts[2..]), ts[..2]);
      assert ReversePairs(ts[..2]) == ts[..2];
      assert ts[..2] + ts[2..] == ts;
    }
  }

  lemma InverseTargetsTwice(g: Gate, ts: seq<Target>)
    requires InverseGate(g).Some?
    requires IsTwoQubit(g) ==> |ts| % 2 == 0
    ensures InverseTargets(InverseGate(g).value, InverseTargets(g, ts)) == ts
  {
    InverseGateInvolution(g);
    if IsTwoQubit(g) {
      ReversePairsTwice(ts);
    } else {
      assert ReverseTargets(ReverseTargets(ts)) == ts;
    }
  }

  lemma {:induction false} InvertItemTwice(it: Item)
    requires WellFormedItem(it) && ItemInvertible(it)
    ensures ItemInvertible(InvertItem(it)) && InvertItem(InvertItem(it)) == it
    decreases it
  {
    match it
    case Op(inst) =>
      InverseGateInvolution(inst.gate);
      InverseTargetsTwice(inst.gate, inst.targets);
    case Repeat(count, body, tag) =>
      InvertAllTwice(body);
  }

  lemma {:induction false} InvertAllTwice(items: seq<Item>)
    requires WellFormed(items) && Invertible(items)
    ensures Invertible(InvertAll(items)) && InvertAll(InvertAll(items)) == items
    decreases items
  {
    var n := |items|;
    var once := InvertAll(items);
    forall k | 0 <= k < n
      ensures ItemInvertible(once[k]) && InvertItem(once[k]) == items[n - 1 - k]
    {
      InvertItemTwice(items[n - 1 - k]);
    }
  }

  /** inverse() is an involution on valid circuits it accepts. */
  lemma InverseInvolution(items: seq<Item>)
    requires WellFormed(items) && Inverse(items).Success?
    ensures Inverse(Inverse(items).value) == Success(items)
  {
    InvertAllTwice(items);
  }

  /** An instruction without an inverse anywhere makes inverse() fail. */
  lemma InverseFails(items: seq<Item>)
    requires exists k :: 0 <= k < |items| && !ItemInvertible(items[k])
    ensures Inverse(items) == Failure(NotInvertible)
  {
  }
}
