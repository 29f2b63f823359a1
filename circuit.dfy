/**
 * A circuit as a value: an ordered list of items, each an instruction (gate,
 * targets, parens arguments, tag) or a `REPEAT count { body }` block with its
 * own tag. This module holds what the circuit's pure operations compute:
 * validation of an appended instruction, fusion of adjacent instructions,
 * concatenation, repetition, the detector/tick/observable counters, Python
 * indexing and slicing, and the list edits behind insert and pop.
 */
module Circuits {
  import opened Wrappers
  import opened Gates

  datatype Pauli = PauliX | PauliY | PauliZ

  /** A gate target: a qubit (`5`, `!5`), a Pauli-basis qubit (`X5`, `!Y5`), a
    * measurement-record lookback (`rec[-k]`) or the product combiner `*`. */
  datatype Target =
    | Qubit(index: nat, inverted: bool)
    | PauliTarget(basis: Pauli, index: nat, inverted: bool)
    | Rec(lookback: int)
    | Combiner

  datatype Instruction = Instruction(gate: Gate, targets: seq<Target>, args: seq<real>, tag: string)

  datatype Item =
    | Op(inst: Instruction)
    | Repeat(count: nat, body: seq<Item>, tag: string)

  /** The failures the circuit's operations raise instead of returning. */
  datatype CircuitError =
    | GateNotFound
    | WrongArgCount
    | BadArgValue
    | NoTargetsAllowed
    | InvalidModifiers
    | BadLookback
    | MisplacedCombiner
    | OddTargetCount
    | RepeatZero
    | TargetsGiven
    | ArgsGiven
    | TagGiven
    | IndexOutOfRange
    | ZeroStep
    | NotInvertible

  // ---------------------------------------------------------------------------
  // Validation of an instruction
  // ---------------------------------------------------------------------------

  /** rec[-k] needs -2^30 < -k < 0. */
  const MinLookback: int := -0x4000_0000

  /** target_rec(lookback): a record target, or the lookback failure. */
  function RecTarget(lookback: int): Result<Target, CircuitError>
  {
    if MinLookback < lookback < 0 then Success(Rec(lookback)) else Failure(BadLookback)
  }

  /** What is wrong with one target of gate g, if anything. */
  function TargetError(g: Gate, t: Target): Option<CircuitError>
  {
    match t
    case Qubit(_, inv) =>
      if !TakesQubits(g) || (inv && !AllowsInverted(g)) then Some(InvalidModifiers) else None
    case PauliTarget(_, _, inv) =>
      if !TakesPauliTargets(g) || (inv && !AllowsInverted(g)) then Some(InvalidModifiers) else None
    case Rec(lookback) =>
      if !TakesRecords(g) then Some(InvalidModifiers)
      else if !(MinLookback < lookback < 0) then Some(BadLookback)
      else None
    case Combiner =>
      if !TakesCombiners(g) then Some(InvalidModifiers) else None
  }

  /** The first target error, scanning left to right. */
  function FirstTargetError(g: Gate, ts: seq<Target>): Option<CircuitError>
  {
    if |ts| == 0 then None
    else if TargetError(g, ts[0]).Some? then TargetError(g, ts[0])
    else FirstTargetError(g, ts[1..])
  }

  /** Every `*` sits between two Pauli targets. */
  predicate CombinersPlaced(ts: seq<Target>)
  {
    forall k :: 0 <= k < |ts| && ts[k].Combiner? ==>
      0 < k < |ts| - 1 && ts[k - 1].PauliTarget? && ts[k + 1].PauliTarget?
  }

  /** A probability lies in [0, 1]; an observable index is a whole number >= 0. */
  predicate ArgOk(g: Gate, a: real)
  {
    && (ArgsAreProbabilities(g) ==> 0.0 <= a <= 1.0)
    && (g == OBSERVABLE_INCLUDE ==> 0.0 <= a && a == a.Floor as real)
  }

  /** The check every appended instruction passes, in the order the failures are
    * reported: argument count, argument values, forbidden targets, target
    * modifiers and lookbacks, combiner placement, pairing. */
  function CheckInstruction(inst: Instruction): Option<CircuitError>
  {
    var g := inst.gate;
    if !ArgCountOk(ArgRule(g), |inst.args|) then Some(WrongArgCount)
    else if exists a :: a in inst.args && !ArgOk(g, a) then Some(BadArgValue)
    else if TakesNoTargets(g) && |inst.targets| > 0 then Some(NoTargetsAllowed)
    else if FirstTargetError(g, inst.targets).Some? then FirstTargetError(g, inst.targets)
    else if !CombinersPlaced(inst.targets) then Some(MisplacedCombiner)
    else if IsTwoQubit(g) && |inst.targets| % 2 != 0 then Some(OddTargetCount)
    else None
  }

  /** What a valid instruction is, stated target by target. */
  predicate WellFormedInstruction(inst: Instruction)
  {
    && ArgCountOk(ArgRule(inst.gate), |inst.args|)
    && (forall k :: 0 <= k < |inst.args| ==> ArgOk(inst.gate, inst.args[k]))
    && (TakesNoTargets(inst.gate) ==> |inst.targets| == 0)
    && (forall k :: 0 <= k < |inst.targets| ==> TargetError(inst.gate, inst.targets[k]).None?)
    && CombinersPlaced(inst.targets)
    && (IsTwoQubit(inst.gate) ==> |inst.targets| % 2 == 0)
  }

  lemma {:induction false} FirstTargetErrorNone(g: Gate, ts: seq<Target>)
    ensures FirstTargetError(g, ts).None? <==> forall k :: 0 <= k < |ts| ==> TargetError(g, ts[k]).None?
  {
    if |ts| > 0 {
      FirstTargetErrorNone(g, ts[1..]);
      assert forall k :: 1 <= k < |ts| ==> ts[k] == ts[1..][k - 1];
    }
  }

  /** The check passes exactly on well-formed instructions. */
  lemma CheckInstructionCorrect(inst: Instruction)
    ensures CheckInstruction(inst).None? <==> WellFormedInstruction(inst)
  {
    FirstTargetErrorNone(inst.gate, inst.targets);
    if exists a :: a in inst.args && !ArgOk(inst.gate, a) {
      var a :| a in inst.args && !ArgOk(inst.gate, a);
      var k :| 0 <= k < |inst.args| && inst.args[k] == a;
    }
  }

  /** A circuit all of whose instructions are valid and whose repeat counts are
    * positive, at every nesting depth. */
  predicate WellFormed(items: seq<Item>)
  {
    forall k :: 0 <= k < |items| ==> WellFormedItem(items[k])
  }

  predicate WellFormedItem(it: Item)
  {
    match it
    case Op(inst) => WellFormedInstruction(inst)
    case Repeat(count, body, _) => count >= 1 && WellFormed(body)
  }

  // ---------------------------------------------------------------------------
  // Fusion
  // ---------------------------------------------------------------------------

  /** Two adjacent instructions merge when they have the same gate, arguments
    * and tag, and the gate is fusable. */
  predicate CanFuse(a: Instruction, b: Instruction)
  {
    a.gate == b.gate && a.args == b.args && a.tag == b.tag && Fusable(a.gate)
  }

  function Fuse(a: Instruction, b: Instruction): Instruction
  {
    a.(targets := a.targets + b.targets)
  }

  /** Appends an item, merging it into the last instruction when they fuse. */
  function PushItem(items: seq<Item>, it: Item): seq<Item>
  {
    if |items| > 0 && items[|items| - 1].Op? && it.Op? && CanFuse(items[|items| - 1].inst, it.inst)
    then items[..|items| - 1] + [Op(Fuse(items[|items| - 1].inst, it.inst))]
    else items + [it]
  }

  /** No two adjacent instructions could fuse, at any nesting depth: the shape of
    * every circuit built by appending. */
  predicate Normalized(items: seq<Item>)
  {
    && (forall k :: 0 < k < |items| ==> !Fusible(items[k - 1], items[k]))
    && (forall k :: 0 <= k < |items| ==> NormalizedItem(items[k]))
  }

  predicate NormalizedItem(it: Item)
  {
    it.Repeat? ==> Normalized(it.body)
  }

  /** Two items that PushItem would merge. */
  predicate Fusible(a: Item, b: Item)
  {
    a.Op? && b.Op? && CanFuse(a.inst, b.inst)
  }

  /** The effect of a circuit with fusion undone: each target of a fusable
    * instruction on its own, other instructions and blocks whole. */
  datatype Atom =
    | OnTarget(gate: Gate, args: seq<real>, tag: string, target: Target)
    | Whole(inst: Instruction)
    | Block(count: nat, body: seq<Item>, tag: string)

  /** A fusable instruction's gate applied to each of its targets in turn. */
  function TargetAtoms(g: Gate, args: seq<real>, tag: string, ts: seq<Target>): seq<Atom>
  {
    seq(|ts|, k requires 0 <= k < |ts| => OnTarget(g, args, tag, ts[k]))
  }

  function ItemAtoms(it: Item): seq<Atom>
  {
    match it
    case Op(inst) =>
      if Fusable(inst.gate) then TargetAtoms(inst.gate, inst.args, inst.tag, inst.targets)
      else [Whole(inst)]
    case Repeat(count, body, tag) => [Block(count, body, tag)]
  }

  function Atoms(items: seq<Item>): seq<Atom>
  {
    if |items| == 0 then [] else Atoms(items[..|items| - 1]) + ItemAtoms(items[|items| - 1])
  }

  lemma AtomsSnoc(items: seq<Item>, it: Item)
    ensures Atoms(items + [it]) == Atoms(items) + ItemAtoms(it)
  {
    assert (items + [it])[..|items|] == items;
  }

  lemma {:induction false} AtomsAppend(a: seq<Item>, b: seq<Item>)
    ensures Atoms(a + b) == Atoms(a) + Atoms(b)
    decreases |b|
  {
    if |b| > 0 {
      var b' := b[..|b| - 1];
      assert a + b == (a + b') + [b[|b| - 1]];
      AtomsAppend(a, b');
      AtomsSnoc(a + b', b[|b| - 1]);
    } else {
      assert a + b == a;
    }
  }

  /** Fusing never changes which gate is applied to which target, in which
    * order: appending with fusion appends the item's atoms. */
  lemma PushItemAtoms(items: seq<Item>, it: Item)
    ensures Atoms(PushItem(items, it)) == Atoms(items) + ItemAtoms(it)
  {
    if |items| > 0 && items[|items| - 1].Op? && it.Op? && CanFuse(items[|items| - 1].inst, it.inst) {
      var last := items[|items| - 1];
      var front := items[..|items| - 1];
      assert items == front + [last];
      AtomsSnoc(front, last);
      AtomsSnoc(front, Op(Fuse(last.inst, it.inst)));
      assert ItemAtoms(Op(Fuse(last.inst, it.inst))) == ItemAtoms(last) + ItemAtoms(it);
    } else {
      AtomsSnoc(items, it);
    }
  }

  /** Appending to a normalized circuit keeps it normalized. */
  lemma PushItemNormalized(items: seq<Item>, it: Item)
    requires Normalized(items) && NormalizedItem(it)
    ensures Normalized(PushItem(items, it))
  {
  }

  // ---------------------------------------------------------------------------
  // Concatenation: `+` and `+=`
  // ---------------------------------------------------------------------------

  /** a + b: the items of a then those of b, the two instructions meeting at the
    * boundary fused when they can be. */
  function Concat(a: seq<Item>, b: seq<Item>): seq<Item>
  {
    if |b| == 0 then a else PushItem(a, b[0]) + b[1..]
  }

  lemma AtomsCons(it: Item, rest: seq<Item>)
    ensures Atoms([it] + rest) == ItemAtoms(it) + Atoms(rest)
  {
    AtomsAppend([it], rest);
    AtomsSnoc([], it);
    assert [] + [it] == [it];
  }

  lemma Regroup<T>(x: seq<T>, y: seq<T>, z: seq<T>)
    ensures (x + y) + z == x + (y + z)
  {
  }

  /** Concatenation appends the operations of b after those of a. */
  lemma ConcatAtoms(a: seq<Item>, b: seq<Item>)
    ensures Atoms(Concat(a, b)) == Atoms(a) + Atoms(b)
  {
    if |b| > 0 {
      var first := b[0];
      var rest := b[1..];
      var p := PushItem(a, first);
      assert Concat(a, b) == p + rest;
      AtomsAppend(p, rest);
      PushItemAtoms(a, first);
      assert b == [first] + rest;
      AtomsCons(first, rest);
      Regroup(Atoms(a), ItemAtoms(first), Atoms(rest));
    }
  }

  /** Concatenation keeps every item but the fused boundary pair. */
  lemma ConcatShape(a: seq<Item>, b: seq<Item>)
    ensures Concat(a, []) == a && Concat([], b) == b
    ensures |b| > 0 && |a| > 0 && Fusible(a[|a| - 1], b[0]) ==>
      Concat(a, b) == a[..|a| - 1] + [Op(Fuse(a[|a| - 1].inst, b[0].inst))] + b[1..]
    ensures !(|b| > 0 && |a| > 0 && Fusible(a[|a| - 1], b[0])) ==> Concat(a, b) == a + b
  {
    if |b| > 0 {
      assert [b[0]] + b[1..] == b;
    }
  }

  /** Concatenating normalized circuits gives a normalized circuit. */
  lemma ConcatNormalized(a: seq<Item>, b: seq<Item>)
    requires Normalized(a) && Normalized(b)
    ensures Normalized(Concat(a, b))
  {
    if |b| > 0 {
      PushItemNormalized(a, b[0]);
      var p := PushItem(a, b[0]);
      var r := p + b[1..];
      assert forall x :: Fusible(p[|p| - 1], x) <==> Fusible(b[0], x);
      forall k | 0 < k < |r| ensures !Fusible(r[k - 1], r[k]) {
        if k > |p| {
          assert r[k - 1] == b[k - |p|] && r[k] == b[k - |p| + 1];
        } else if k == |p| && |b| > 1 {
          assert r[k] == b[1];
          assert !Fusible(b[0], b[1]);
        }
      }
    }
  }

  /** Appending and concatenating preserve validity. */
  lemma PushItemWellFormed(items: seq<Item>, it: Item)
    requires WellFormed(items) && WellFormedItem(it)
    ensures WellFormed(PushItem(items, it))
  {
    if |items| > 0 && items[|items| - 1].Op? && it.Op? && CanFuse(items[|items| - 1].inst, it.inst) {
      FuseWellFormed(items[|items| - 1].inst, it.inst);
    }
  }

  lemma ConcatWellFormed(a: seq<Item>, b: seq<Item>)
    requires WellFormed(a) && WellFormed(b)
    ensures WellFormed(Concat(a, b))
  {
    if |b| > 0 {
      PushItemWellFormed(a, b[0]);
    }
  }

  /** Fusing two valid instructions gives a valid instruction. */
  lemma FuseWellFormed(a: Instruction, b: Instruction)
    requires WellFormedInstruction(a) && WellFormedInstruction(b) && CanFuse(a, b)
    ensures WellFormedInstruction(Fuse(a, b))
  {
    var ts := a.targets + b.targets;
    forall k | 0 <= k < |ts| && ts[k].Combiner?
      ensures 0 < k < |ts| - 1 && ts[k - 1].PauliTarget? && ts[k + 1].PauliTarget?
    {
      if k < |a.targets| {
        assert a.targets[k].Combiner?;
      } else {
        assert b.targets[k - |a.targets|].Combiner?;
      }
    }
  }

  // ---------------------------------------------------------------------------
  // Repetition: `*` and `*=`
  // ---------------------------------------------------------------------------

  /** c * k: empty for 0, c itself for 1, a circuit that is one repeat block has
    * its count multiplied (keeping its tag), otherwise c is wrapped in an
    * untagged `REPEAT k` block. */
  function Mul(c: seq<Item>, k: nat): seq<Item>
  {
    if k == 0 then []
    else if k == 1 then c
    else if |c| == 1 && c[0].Repeat? then [Repeat(c[0].count * k, c[0].body, c[0].tag)]
    else [Repeat(k, c, "")]
  }

  /** (c * a) * b == c * (a * b) whenever a is not zero. */
  lemma MulMul(c: seq<Item>, a: nat, b: nat)
    requires a >= 1
    ensures Mul(Mul(c, a), b) == Mul(c, a * b)
  {
    if b >= 2 && a >= 2 {
      if |c| == 1 && c[0].Repeat? {
        assert c[0].count * a * b == c[0].count * (a * b);
      } else {
        assert a * b >= 2 by {
          assert a * b >= 2 * b;
        }
      }
    }
  }

  /** Repetition keeps validity: a repeat count is never 0. */
  lemma MulWellFormed(c: seq<Item>, k: nat)
    requires WellFormed(c)
    ensures WellFormed(Mul(c, k))
  {
    if k >= 2 && |c| == 1 && c[0].Repeat? {
      assert c[0].count * k >= 1 by {
        assert c[0].count * k >= c[0].count;
      }
    }
  }

  // ---------------------------------------------------------------------------
  // Counters
  // ---------------------------------------------------------------------------

  /** The number of executed instructions of gate g, repeat blocks multiplying
    * their body's count (num_detectors for DETECTOR, num_ticks for TICK). */
  function Count(items: seq<Item>, g: Gate): nat
  {
    if |items| == 0 then 0
    else Count(items[..|items| - 1], g) + ItemCount(items[|items| - 1], g)
  }

  function ItemCount(it: Item, g: Gate): nat
  {
    match it
    case Op(inst) => if inst.gate == g then 1 else 0
    case Repeat(count, body, _) => count * Count(body, g)
  }

  function NumDetectors(items: seq<Item>): nat { Count(items, DETECTOR) }

  function NumTicks(items: seq<Item>): nat { Count(items, TICK) }

  lemma CountSnoc(items: seq<Item>, it: Item, g: Gate)
    ensures Count(items + [it], g) == Count(items, g) + ItemCount(it, g)
  {
    assert (items + [it])[..|items|] == items;
  }

  lemma {:induction false} CountAppend(a: seq<Item>, b: seq<Item>, g: Gate)
    ensures Count(a + b, g) == Count(a, g) + Count(b, g)
    decreases |b|
  {
    if |b| > 0 {
      var b' := b[..|b| - 1];
      assert a + b == (a + b') + [b[|b| - 1]];
      CountAppend(a, b', g);
      CountSnoc(a + b', b[|b| - 1], g);
    } else {
      assert a + b == a;
    }
  }

  /** Appending an item adds its count, for a gate that never fuses. */
  lemma PushItemCount(items: seq<Item>, it: Item, g: Gate)
    requires !Fusable(g)
    ensures Count(PushItem(items, it), g) == Count(items, g) + ItemCount(it, g)
  {
    if |items| > 0 && items[|items| - 1].Op? && it.Op? && CanFuse(items[|items| - 1].inst, it.inst) {
      var front := items[..|items| - 1];
      assert items == front + [items[|items| - 1]];
      CountSnoc(front, items[|items| - 1], g);
      CountSnoc(front, Op(Fuse(items[|items| - 1].inst, it.inst)), g);
    } else {
      CountSnoc(items, it, g);
    }
  }

  lemma CountCons(items: seq<Item>, g: Gate)
    requires |items| > 0
    ensures Count(items, g) == ItemCount(items[0], g) + Count(items[1..], g)
  {
    CountAppend([items[0]], items[1..], g);
    CountSnoc([], items[0], g);
    assert [items[0]] + items[1..] == items;
  }

  /** Counts add up over concatenation (detectors and ticks never fuse). */
  lemma ConcatCount(a: seq<Item>, b: seq<Item>, g: Gate)
    requires !Fusable(g)
    ensures Count(Concat(a, b), g) == Count(a, g) + Count(b, g)
  {
    if |b| > 0 {
      var first := b[0];
      var rest := b[1..];
      var p := PushItem(a, first);
      assert Concat(a, b) == p + rest;
      PushItemCount(a, first, g);
      CountAppend(p, rest, g);
      CountCons(b, g);
    }
  }

  /** Counts multiply through repetition. */
  lemma MulCount(c: seq<Item>, k: nat, g: Gate)
    ensures Count(Mul(c, k), g) == k * Count(c, g)
  {
    if k >= 2 {
      if |c| == 1 && c[0].Repeat? {
        MulBlockCount(c, k, g);
      } else {
        MulWrapCount(c, k, g);
      }
    }
  }

  /** A single repeat block has its count multiplied. */
  lemma MulBlockCount(c: seq<Item>, k: nat, g: Gate)
    requires |c| == 1 && c[0].Repeat? && k >= 2
    ensures Count(Mul(c, k), g) == k * Count(c, g)
  {
    var block := c[0];
    var grown := Repeat(block.count * k, block.body, block.tag);
    assert Mul(c, k) == [grown];
    SingleCount(block, g);
    SingleCount(grown, g);
    assert c == [block];
    MulComm3(block.count, k, Count(block.body, g));
  }

  lemma SingleCount(it: Item, g: Gate)
    ensures Count([it], g) == ItemCount(it, g)
  {
    assert [it][..0] == [];
  }

  /** Anything else is wrapped in one new block repeated k times. */
  lemma MulWrapCount(c: seq<Item>, k: nat, g: Gate)
    requires !(|c| == 1 && c[0].Repeat?) && k >= 2
    ensures Count(Mul(c, k), g) == k * Count(c, g)
  {
    assert Mul(c, k) == [] + [Repeat(k, c, "")];
    CountSnoc([], Repeat(k, c, ""), g);
  }

  lemma MulComm3(a: nat, b: nat, c: nat)
    ensures (a * b) * c == b * (a * c)
  {
  }

  /** The observable index an OBSERVABLE_INCLUDE names (its argument). */
  function ObservableIndex(inst: Instruction): nat
  {
    if |inst.args| > 0 && inst.args[0] >= 0.0 then
      var f := inst.args[0].Floor;
      if f >= 0 then f else 0
    else 0
  }

  /** num_observables: one more than the largest observable index used. */
  function NumObservables(items: seq<Item>): nat
  {
    if |items| == 0 then 0
    else Max(NumObservables(items[..|items| - 1]), ItemObservables(items[|items| - 1]))
  }

  function ItemObservables(it: Item): nat
  {
    match it
    case Op(inst) => if inst.gate == OBSERVABLE_INCLUDE then ObservableIndex(inst) + 1 else 0
    case Repeat(count, body, _) => if count == 0 then 0 else NumObservables(body)
  }

  function Max(a: nat, b: nat): nat { if a < b then b else a }

  /** Some executed OBSERVABLE_INCLUDE of the circuit names index k. */
  predicate UsesObservable(items: seq<Item>, k: nat)
  {
    exists j :: 0 <= j < |items| && ItemUsesObservable(items[j], k)
  }

  predicate ItemUsesObservable(it: Item, k: nat)
  {
    match it
    case Op(inst) => inst.gate == OBSERVABLE_INCLUDE && ObservableIndex(inst) == k
    case Repeat(count, body, _) => count > 0 && UsesObservable(body, k)
  }

  /** num_observables bounds every index used, and is attained: it is 0 or one
    * more than an index that is used. */
  lemma {:induction false} NumObservablesCorrect(items: seq<Item>)
    ensures forall k: nat :: UsesObservable(items, k) ==> k < NumObservables(items)
    ensures NumObservables(items) == 0 || UsesObservable(items, NumObservables(items) - 1)
    decreases items, 0
  {
    if |items| > 0 {
      var front := items[..|items| - 1];
      var last := items[|items| - 1];
      NumObservablesCorrect(front);
      ItemObservablesCorrect(last);
      forall k: nat | UsesObservable(items, k) ensures k < NumObservables(items) {
        var j :| 0 <= j < |items| && ItemUsesObservable(items[j], k);
        if j < |items| - 1 {
          assert front[j] == items[j];
          assert UsesObservable(front, k);
        } else {
          assert ItemUsesObservable(last, k);
        }
      }
      var n := NumObservables(items);
      if n > 0 {
        if n == ItemObservables(last) {
          assert ItemUsesObservable(items[|items| - 1], n - 1);
        } else {
          var j :| 0 <= j < |front| && ItemUsesObservable(front[j], n - 1);
          assert items[j] == front[j];
        }
      }
    }
  }

  lemma {:induction false} ItemObservablesCorrect(it: Item)
    ensures forall k: nat :: ItemUsesObservable(it, k) ==> k < ItemObservables(it)
    ensures ItemObservables(it) == 0 || ItemUsesObservable(it, ItemObservables(it) - 1)
    decreases it, 1
  {
    if it.Repeat? {
      NumObservablesCorrect(it.body);
    }
  }

  // ---------------------------------------------------------------------------
  // Indexing and slicing
  // ---------------------------------------------------------------------------

  /** A Python index into a list of n elements: negative counts from the end. */
  function Resolve(n: nat, index: int): int
  {
    if index < 0 then index + n else index
  }

  /** c[index]: the item, or IndexError when index is outside [-len, len). */
  function Get(items: seq<Item>, index: int): Result<Item, CircuitError>
  {
    if -|items| <= index < |items| then Success(items[Resolve(|items|, index)]) else Failure(IndexOutOfRange)
  }

  /** The negative index -j reads the same item as len - j. */
  lemma GetNegative(items: seq<Item>, index: int)
    requires -|items| <= index < 0
    ensures Get(items, index) == Get(items, |items| + index)
    ensures Get(items, index).Success?
  {
  }

  /** The start, step and length of a slice after Python's index adjustment. */
  datatype SliceRange = SliceRange(start: int, step: int, length: nat)

  /** Python's handling of a slice's start or stop: a negative bound counts from
    * the end, and the result is clamped to [0, n] (step > 0) or [-1, n-1]
    * (step < 0). */
  function ClampBound(n: nat, bound: int, step: int): (b: int)
    ensures step > 0 ==> 0 <= b <= n
    ensures step < 0 ==> -1 <= b <= n - 1
    ensures -(n as int) <= bound < n ==> b == Resolve(n, bound)
    ensures step > 0 && bound >= n ==> b == n
    ensures step < 0 && bound < -(n as int) ==> b == -1
  {
    if bound < 0 then
      (if bound + n < 0 then (if step < 0 then -1 else 0) else bound + n)
    else if bound >= n then (if step < 0 then n - 1 else n)
    else bound
  }

  /** The adjusted start of a slice: its default is the first item (step > 0) or
    * the last (step < 0). */
  function SliceStart(n: nat, start: Option<int>, step: int): (lo: int)
    ensures step > 0 ==> 0 <= lo <= n
    ensures step < 0 ==> -1 <= lo <= n - 1
  {
    match start
    case Some(s) => ClampBound(n, s, step)
    case None => if step < 0 then n - 1 else 0
  }

  /** The adjusted stop of a slice: its default lies past the last item in the
    * direction of the step. */
  function SliceStop(n: nat, stop: Option<int>, step: int): (hi: int)
    ensures step > 0 ==> 0 <= hi <= n
    ensures step < 0 ==> -1 <= hi <= n - 1
  {
    match stop
    case Some(s) => ClampBound(n, s, step)
    case None => if step < 0 then -1 else n
  }

  /** The adjusted bounds of a slice, as Python computes them: a bound that
    * indexes the circuit (negative counting from the end) is the index of the
    * same item Get reads; an omitted start is the first item for a positive
    * step and the last for a negative one; an omitted stop lies just past the
    * last item in the direction of the step. */
  lemma SliceBounds(n: nat, start: Option<int>, stop: Option<int>, step: int)
    requires step != 0
    ensures var lo, hi := SliceStart(n, start, step), SliceStop(n, stop, step);
      (start.Some? && -(n as int) <= start.value < n ==> lo == Resolve(n, start.value))
      && (stop.Some? && -(n as int) <= stop.value < n ==> hi == Resolve(n, stop.value))
      && (start.None? && step > 0 ==> lo == 0)
      && (start.None? && step < 0 ==> lo == n - 1)
      && (stop.None? && step > 0 ==> hi == n)
      && (stop.None? && step < 0 ==> hi == -1)
  {
  }

  /** The indices lo, lo+step, ... below hi. */
  function UpRange(n: nat, lo: int, hi: int, step: int): (r: SliceRange)
    requires step > 0 && 0 <= lo <= n && 0 <= hi <= n
    ensures r.step == step
    ensures forall k :: 0 <= k < r.length ==> 0 <= r.start + k * r.step < n
  {
    if lo < hi then
      var len := (hi - lo - 1) / step + 1;
      RangeUp(n, lo, hi, step, len);
      SliceRange(lo, step, len)
    else SliceRange(lo, step, 0)
  }

  /** The indices lo, lo+step, ... above hi, for a negative step. */
  function DownRange(n: nat, lo: int, hi: int, step: int): (r: SliceRange)
    requires step < 0 && -1 <= lo <= n - 1 && -1 <= hi <= n - 1
    ensures r.step == step
    ensures forall k :: 0 <= k < r.length ==> 0 <= r.start + k * r.step < n
  {
    if hi < lo then
      var len := (lo - hi - 1) / (-step) + 1;
      RangeDown(n, lo, hi, step, len);
      SliceRange(lo, step, len)
    else SliceRange(lo, step, 0)
  }

  function Range(n: nat, start: Option<int>, stop: Option<int>, step: int): (r: SliceRange)
    requires step != 0
    ensures r.step == step
    ensures forall k :: 0 <= k < r.length ==> 0 <= r.start + k * r.step < n
  {
    var lo := SliceStart(n, start, step);
    var hi := SliceStop(n, stop, step);
    if step > 0 then UpRange(n, lo, hi, step) else DownRange(n, lo, hi, step)
  }

  lemma RangeUp(n: nat, lo: int, hi: int, step: int, len: nat)
    requires step > 0 && 0 <= lo < hi <= n && len == (hi - lo - 1) / step + 1
    ensures forall k :: 0 <= k < len ==> 0 <= lo + k * step < n
  {
    var d := hi - lo - 1;
    assert d == (d / step) * step + d % step;
    forall k | 0 <= k < len ensures 0 <= lo + k * step < n {
      assert k <= d / step;
      assert k * step <= (d / step) * step;
    }
  }

  lemma RangeDown(n: nat, lo: int, hi: int, step: int, len: nat)
    requires step < 0 && -1 <= hi < lo < n && len == (lo - hi - 1) / (-step) + 1
    ensures forall k :: 0 <= k < len ==> 0 <= lo + k * step < n
  {
    var d := lo - hi - 1;
    var m := -step;
    assert d == (d / m) * m + d % m;
    forall k | 0 <= k < len ensures 0 <= lo + k * step < n {
      assert k <= d / m;
      assert k * m <= (d / m) * m;
      assert k * step == -(k * m);
    }
  }

  /** Python's rule for which indices a slice visits, once its bounds are
    * adjusted: from lo towards hi, hi excluded, in steps of step. */
  predicate Selected(lo: int, hi: int, step: int, i: int)
  {
    if step > 0 then lo <= i < hi && (i - lo) % step == 0
    else step < 0 && hi < i <= lo && (lo - i) % (-step) == 0
  }

  /** How many steps from lo an index lies. */
  function StepIndex(lo: int, step: int, i: int): int
    requires step != 0
  {
    if step > 0 then (i - lo) / step else (lo - i) / (-step)
  }

  /** The k-th index visited lies k steps from lo, and only visited indices
    * are a whole number of steps from lo. */
  lemma StepsExact(k: int, m: int)
    requires m > 0
    ensures (k * m) % m == 0 && (k * m) / m == k
  {
    var q, r := (k * m) / m, (k * m) % m;
    assert k * m == q * m + r;
    assert (k - q) * m == r;
    MulSign(k - q, m);
  }

  lemma MulSign(e: int, m: int)
    requires m > 0
    ensures e >= 1 ==> e * m >= m
    ensures e <= -1 ==> e * m <= -m
  {
    if e >= 1 {
      assert e * m == (e - 1) * m + m;
    } else if e <= -1 {
      assert e * m == (e + 1) * m - m;
    }
  }

  /** With d >= 0 and m > 0: k * m <= d exactly when k <= d / m. */
  lemma StepsWithin(k: int, m: int, d: int)
    requires m > 0 && d >= 0
    ensures k * m <= d <==> k <= d / m
  {
    var q := d / m;
    assert d == q * m + d % m;
    if k <= q {
      assert k * m <= q * m;
    } else {
      assert k >= q + 1;
      assert k * m >= (q + 1) * m;
    }
  }

  /** The k-th step up from lo, for k within the range's length, is selected. */
  lemma UpStep(lo: int, hi: int, step: int, k: int)
    requires step > 0 && lo < hi && 0 <= k <= (hi - lo - 1) / step
    ensures Selected(lo, hi, step, lo + k * step)
  {
    StepsWithin(k, step, hi - lo - 1);
    StepsExact(k, step);
    assert lo + k * step - lo == k * step;
  }

  /** A selected index lies a whole number of steps up from lo, within the
    * range's length. */
  lemma UpIndex(lo: int, hi: int, step: int, i: int)
    requires step > 0 && Selected(lo, hi, step, i)
    ensures 0 <= StepIndex(lo, step, i) <= (hi - lo - 1) / step
    ensures lo + StepIndex(lo, step, i) * step == i
  {
    var k := (i - lo) / step;
    assert i - lo == k * step + (i - lo) % step;
    StepsWithin(k, step, hi - lo - 1);
  }

  lemma DownStep(lo: int, hi: int, step: int, k: int)
    requires step < 0 && hi < lo && 0 <= k <= (lo - hi - 1) / (-step)
    ensures Selected(lo, hi, step, lo + k * step)
  {
    var m := -step;
    StepsWithin(k, m, lo - hi - 1);
    StepsExact(k, m);
    assert lo - (lo + k * step) == k * m;
  }

  lemma DownIndex(lo: int, hi: int, step: int, i: int)
    requires step < 0 && Selected(lo, hi, step, i)
    ensures 0 <= StepIndex(lo, step, i) <= (lo - hi - 1) / (-step)
    ensures lo + StepIndex(lo, step, i) * step == i
  {
    var m := -step;
    var k := (lo - i) / m;
    assert lo - i == k * m + (lo - i) % m;
    StepsWithin(k, m, lo - hi - 1);
    assert k * step == -(k * m);
  }

  /** A range walking up visits exactly the selected indices, each once, in
    * increasing order. */
  lemma UpRangeSelects(n: nat, lo: int, hi: int, step: int)
    requires step > 0 && 0 <= lo <= n && 0 <= hi <= n
    ensures var r := UpRange(n, lo, hi, step);
      r.start == lo
      && (forall k :: 0 <= k < r.length ==> Selected(lo, hi, step, lo + k * step))
      && (forall i :: Selected(lo, hi, step, i) ==>
            0 <= StepIndex(lo, step, i) < r.length && lo + StepIndex(lo, step, i) * step == i)
  {
    var r := UpRange(n, lo, hi, step);
    if lo < hi {
      assert r.length == (hi - lo - 1) / step + 1;
      forall k | 0 <= k < r.length ensures Selected(lo, hi, step, lo + k * step) {
        UpStep(lo, hi, step, k);
      }
      forall i | Selected(lo, hi, step, i)
        ensures 0 <= StepIndex(lo, step, i) < r.length && lo + StepIndex(lo, step, i) * step == i
      {
        UpIndex(lo, hi, step, i);
      }
    } else {
      assert r.length == 0;
      assert forall i :: !Selected(lo, hi, step, i);
    }
  }

  /** A range walking down visits exactly the selected indices, each once, in
    * decreasing order. */
  lemma DownRangeSelects(n: nat, lo: int, hi: int, step: int)
    requires step < 0 && -1 <= lo <= n - 1 && -1 <= hi <= n - 1
    ensures var r := DownRange(n, lo, hi, step);
      r.start == lo
      && (forall k :: 0 <= k < r.length ==> Selected(lo, hi, step, lo + k * step))
      && (forall i :: Selected(lo, hi, step, i) ==>
            0 <= StepIndex(lo, step, i) < r.length && lo + StepIndex(lo, step, i) * step == i)
  {
    var r := DownRange(n, lo, hi, step);
    if hi < lo {
      assert r.length == (lo - hi - 1) / (-step) + 1;
      forall k | 0 <= k < r.length ensures Selected(lo, hi, step, lo + k * step) {
        DownStep(lo, hi, step, k);
      }
      forall i | Selected(lo, hi, step, i)
        ensures 0 <= StepIndex(lo, step, i) < r.length && lo + StepIndex(lo, step, i) * step == i
      {
        DownIndex(lo, hi, step, i);
      }
    } else {
      assert r.length == 0;
      assert forall i :: !Selected(lo, hi, step, i);
    }
  }

  /** c[start:stop:step]: the items at start, start+step, ... as Python selects
    * them; a zero step fails. */
  function Slice(items: seq<Item>, start: Option<int>, stop: Option<int>, step: Option<int>): Result<seq<Item>, CircuitError>
  {
    var s := match step case Some(v) => v case None => 1;
    if s == 0 then Failure(ZeroStep)
    else
      var r := Range(|items|, start, stop, s);
      Success(seq(r.length, k requires 0 <= k < r.length => items[r.start + k * r.step]))
  }

  function Reverse(items: seq<Item>): seq<Item>
  {
    seq(|items|, k requires 0 <= k < |items| => items[|items| - 1 - k])
  }

  /** c[:] is a copy of c, and c[::-1] is c reversed. */
  lemma SliceWhole(items: seq<Item>)
    ensures Slice(items, None, None, None) == Success(items)
    ensures Slice(items, None, None, Some(-1)) == Success(Reverse(items))
  {
    var n := |items|;
    var r := Range(n, None, None, 1);
    var r' := Range(n, None, None, -1);
    assert SliceStart(n, None, 1) == 0 && SliceStop(n, None, 1) == n;
    assert SliceStart(n, None, -1) == n - 1 && SliceStop(n, None, -1) == -1;
    assert r == UpRange(n, 0, n, 1);
    assert r' == DownRange(n, n - 1, -1, -1);
    if n > 0 {
      assert (n - 0 - 1) / 1 + 1 == n;
      assert r.length == n;
      assert (n - 1 - (-1) - 1) / 1 + 1 == n;
      assert r'.length == n;
    }
    var a := Slice(items, None, None, None).value;
    assert a == items;
    var b := Slice(items, None, None, Some(-1)).value;
    assert b == Reverse(items);
  }

  /** Every item of a slice is an item of the circuit at the selected index. */
  lemma SliceItems(items: seq<Item>, start: Option<int>, stop: Option<int>, step: int)
    requires step != 0
    ensures Slice(items, start, stop, Some(step)).Success?
    ensures var r := Range(|items|, start, stop, step);
      var sl := Slice(items, start, stop, Some(step)).value;
      |sl| == r.length && forall k :: 0 <= k < |sl| ==> sl[k] == items[r.start + k * step]
  {
  }

  /** The range of a slice visits exactly the indices Python's rule selects
    * between the adjusted bounds, the k-th visit being k steps from the start. */
  lemma RangeSelects(n: nat, start: Option<int>, stop: Option<int>, step: int)
    requires step != 0
    ensures var r, lo, hi := Range(n, start, stop, step), SliceStart(n, start, step), SliceStop(n, stop, step);
      r.start == lo
      && (forall k :: 0 <= k < r.length ==> Selected(lo, hi, step, lo + k * step))
      && (forall i :: Selected(lo, hi, step, i) ==>
            0 <= StepIndex(lo, step, i) < r.length && lo + StepIndex(lo, step, i) * step == i)
  {
    var lo, hi := SliceStart(n, start, step), SliceStop(n, stop, step);
    if step > 0 {
      UpRangeSelects(n, lo, hi, step);
    } else {
      DownRangeSelects(n, lo, hi, step);
    }
  }

  /** Every index Python's rule selects between the adjusted bounds lies in
    * the circuit, and its item appears in c[start:stop:step] at the position
    * that counts its steps from the start. */
  lemma SliceCovers(items: seq<Item>, start: Option<int>, stop: Option<int>, step: int)
    requires step != 0
    ensures Slice(items, start, stop, Some(step)).Success?
    ensures var lo, hi := SliceStart(|items|, start, step), SliceStop(|items|, stop, step);
      var sl := Slice(items, start, stop, Some(step)).value;
      forall i :: Selected(lo, hi, step, i) ==>
        0 <= i < |items| && 0 <= StepIndex(lo, step, i) < |sl| && sl[StepIndex(lo, step, i)] == items[i]
  {
    var n := |items|;
    var lo, hi := SliceStart(n, start, step), SliceStop(n, stop, step);
    var r := Range(n, start, stop, step);
    var sl := Slice(items, start, stop, Some(step)).value;
    assert |sl| == r.length && forall k :: 0 <= k < |sl| ==> sl[k] == items[r.start + k * step];
    forall i | Selected(lo, hi, step, i)
      ensures 0 <= i < |items| && 0 <= StepIndex(lo, step, i) < |sl| && sl[StepIndex(lo, step, i)] == items[i]
    {
      var k := StepIndex(lo, step, i);
      assert r.start == lo && 0 <= k < |sl| && lo + k * step == i by {
        RangeSelects(n, start, stop, step);
      }
      assert sl[k] == items[r.start + k * step];
    }
  }

  /** A zero step is rejected. */
  lemma SliceZeroStep(items: seq<Item>, start: Option<int>, stop: Option<int>)
    ensures Slice(items, start, stop, Some(0)) == Failure(ZeroStep)
  {
  }

  // ---------------------------------------------------------------------------
  // insert and pop
  // ---------------------------------------------------------------------------

  /** insert(index, x): splices the items x before position index, which must lie
    * in [-len, len]; a negative index counts from the end. No fusion happens. */
  function InsertAt(items: seq<Item>, index: int, x: seq<Item>): Result<seq<Item>, CircuitError>
  {
    if -|items| <= index <= |items| then
      var p := Resolve(|items|, index);
      Success(items[..p] + x + items[p..])
    else Failure(IndexOutOfRange)
  }

  /** pop(index): the item at index, which must lie in [-len, len), and the rest. */
  function PopAt(items: seq<Item>, index: int): Result<(Item, seq<Item>), CircuitError>
  {
    if -|items| <= index < |items| then
      var p := Resolve(|items|, index);
      Success((items[p], items[..p] + items[p + 1..]))
    else Failure(IndexOutOfRange)
  }

  /** Popping what was just inserted at the same non-negative index returns it and
    * restores the circuit. */
  lemma PopInsert(items: seq<Item>, index: nat, it: Item)
    requires index <= |items|
    ensures InsertAt(items, index, [it]).Success?
    ensures PopAt(InsertAt(items, index, [it]).value, index) == Success((it, items))
  {
    var s := items[..index] + [it] + items[index..];
    assert s[..index] + s[index + 1..] == items;
  }

  /** Inserting k items lengthens the circuit by k and shifts the items after the
    * insertion point by k. */
  lemma InsertShape(items: seq<Item>, index: int, x: seq<Item>)
    requires -|items| <= index <= |items|
    ensures var r := InsertAt(items, index, x); var p := Resolve(|items|, index);
      && r.Success? && |r.value| == |items| + |x|
      && (forall j :: 0 <= j < p ==> r.value[j] == items[j])
      && (forall j :: 0 <= j < |x| ==> r.value[p + j] == x[j])
      && (forall j :: p <= j < |items| ==> r.value[j + |x|] == items[j])
  {
  }
}
