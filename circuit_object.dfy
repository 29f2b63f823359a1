/**
 * The mutable circuit object: `+=`, `*=`, append, append_operation, insert, pop
 * and clear change the circuit in place, keeping the object's identity (so
 * `c += c` reads the right operand before writing). Every method is stated
 * through the pure operations of module Circuits.
 */
module CircuitObject {
  import opened Wrappers
  import opened Gates
  import opened Circuits

  /** The parens arguments an append uses. `append` takes what it is given (none
    * when omitted); the older `append_operation`, when given none, gives a gate
    * that takes exactly one argument a single 0. */
  function AppendArgs(g: Gate, args: Option<seq<real>>, legacy: bool): seq<real>
  {
    match args
    case Some(a) => a
    case None =>
      match ArgRule(g)
      case Exactly(n) => if legacy && n == 1 then [0.0] else []
      case _ => []
  }

  /** The instruction `append(name, targets, args, tag)` adds, or why it is refused. */
  function BuildInstruction(name: string, targets: seq<Target>, args: Option<seq<real>>, tag: string, legacy: bool)
    : Result<Instruction, CircuitError>
  {
    match Lookup(name)
    case None => Failure(GateNotFound)
    case Some(g) =>
      var inst := Instruction(g, targets, AppendArgs(g, args, legacy), tag);
      match CheckInstruction(inst)
      case Some(e) => Failure(e)
      case None => Success(inst)
  }

  /** An append succeeds exactly when the name is a gate and the instruction it
    * names is valid; the instruction then carries the gate, targets and tag
    * given. */
  lemma BuildInstructionCorrect(name: string, targets: seq<Target>, args: Option<seq<real>>, tag: string, legacy: bool)
    ensures var r := BuildInstruction(name, targets, args, tag, legacy);
      && (Lookup(name).None? ==> r == Failure(GateNotFound))
      && (Lookup(name).Some? ==>
            var inst := Instruction(Lookup(name).value, targets, AppendArgs(Lookup(name).value, args, legacy), tag);
            && (r.Success? <==> WellFormedInstruction(inst))
            && (r.Success? ==> r.value == inst))
  {
    if Lookup(name).Some? {
      var g := Lookup(name).value;
      CheckInstructionCorrect(Instruction(g, targets, AppendArgs(g, args, legacy), tag));
    }
  }

  /** Called without arguments on a gate that needs some, `append` is refused
    * for the argument count; `append_operation` gives a one-argument gate the
    * argument 0, and refuses a gate needing more just as `append` does. */
  lemma LegacyArgs(name: string, targets: seq<Target>, tag: string)
    requires Lookup(name).Some? && ArgRule(Lookup(name).value).Exactly?
    requires ArgRule(Lookup(name).value).n > 0
    ensures BuildInstruction(name, targets, None, tag, false) == Failure(WrongArgCount)
    ensures ArgRule(Lookup(name).value).n == 1 && BuildInstruction(name, targets, None, tag, true).Success? ==>
      BuildInstruction(name, targets, None, tag, true).value.args == [0.0]
    ensures ArgRule(Lookup(name).value).n > 1 ==>
      BuildInstruction(name, targets, None, tag, true) == Failure(WrongArgCount)
  {
  }

  /** Appending an existing instruction or repeat block takes no extra targets,
    * arguments or tag, and a repeat block must repeat at least once. */
  function ItemAppendError(it: Item, targets: seq<Target>, args: Option<seq<real>>, tag: string): Option<CircuitError>
  {
    if |targets| > 0 then Some(TargetsGiven)
    else if args.Some? then Some(ArgsGiven)
    else if tag != "" then Some(TagGiven)
    else if it.Repeat? && it.count == 0 then Some(RepeatZero)
    else None
  }

  /** An instruction or block as the circuit object's API hands it over: a valid
    * instruction, or a block with a valid body and any count. */
  predicate Appendable(it: Item)
  {
    match it
    case Op(inst) => WellFormedInstruction(inst)
    case Repeat(_, body, _) => WellFormed(body)
  }

  lemma AppendableWellFormed(it: Item)
    requires Appendable(it) && ItemAppendError(it, [], None, "").None?
    ensures WellFormedItem(it)
  {
  }

  class Circuit {
    var items: seq<Item>

    /** Every instruction valid, every repeat count positive. */
    ghost predicate Valid()
      reads this
    {
      WellFormed(items)
    }

    constructor ()
      ensures Valid() && items == []
    {
      items := [];
    }

    method Clear()
      modifies this
      ensures Valid() && items == []
    {
      items := [];
    }

    /** c += other; other may be c itself. */
    method AddAssign(other: Circuit)
      requires Valid() && other.Valid()
      modifies this
      ensures Valid() && items == Concat(old(items), old(other.items))
    {
      var right := other.items;
      ConcatWellFormed(items, right);
      items := Concat(items, right);
    }

    /** c *= k. */
    method MulAssign(k: nat)
      requires Valid()
      modifies this
      ensures Valid() && items == Mul(old(items), k)
    {
      MulWellFormed(items, k);
      items := Mul(items, k);
    }

    /** append(name, targets, arg, tag): on success the instruction is appended,
      * fusing with the last one when it can; on failure nothing changes. */
    method Append(name: string, targets: seq<Target>, args: Option<seq<real>>, tag: string)
      returns (err: Option<CircuitError>)
      requires Valid()
      modifies this
      ensures Valid()
      ensures var b := BuildInstruction(name, targets, args, tag, false);
        && (b.Success? ==> err.None? && items == PushItem(old(items), Op(b.value)))
        && (b.Failure? ==> err == Some(b.error) && items == old(items))
    {
      err := AppendWith(name, targets, args, tag, false);
    }

    /** append_operation(name, targets, arg): as append, with the older default
      * for omitted arguments. */
    method AppendOperation(name: string, targets: seq<Target>, args: Option<seq<real>>)
      returns (err: Option<CircuitError>)
      requires Valid()
      modifies this
      ensures Valid()
      ensures var b := BuildInstruction(name, targets, args, "", true);
        && (b.Success? ==> err.None? && items == PushItem(old(items), Op(b.value)))
        && (b.Failure? ==> err == Some(b.error) && items == old(items))
    {
      err := AppendWith(name, targets, args, "", true);
    }

    method AppendWith(name: string, targets: seq<Target>, args: Option<seq<real>>, tag: string, legacy: bool)
      returns (err: Option<CircuitError>)
      requires Valid()
      modifies this
      ensures Valid()
      ensures var b := BuildInstruction(name, targets, args, tag, legacy);
        && (b.Success? ==> err.None? && items == PushItem(old(items), Op(b.value)))
        && (b.Failure? ==> err == Some(b.error) && items == old(items))
    {
      var b := BuildInstruction(name, targets, args, tag, legacy);
      BuildInstructionCorrect(name, targets, args, tag, legacy);
      if b.Success? {
        PushItemWellFormed(items, Op(b.value));
        items := PushItem(items, Op(b.value));
        err := None;
      } else {
        err := Some(b.error);
      }
    }

    /** append(instruction or block, targets, arg, tag). */
    method AppendItem(it: Item, targets: seq<Target>, args: Option<seq<real>>, tag: string)
      returns (err: Option<CircuitError>)
      requires Valid() && Appendable(it)
      modifies this
      ensures Valid()
      ensures err == ItemAppendError(it, targets, args, tag)
      ensures err.None? ==> items == PushItem(old(items), it)
      ensures err.Some? ==> items == old(items)
    {
      err := ItemAppendError(it, targets, args, tag);
      if err.None? {
        AppendableWellFormed(it);
        PushItemWellFormed(items, it);
        items := PushItem(items, it);
      }
    }

    /** insert(index, x): x's items spliced in before position index. */
    method Insert(index: int, x: seq<Item>) returns (err: Option<CircuitError>)
      requires Valid() && WellFormed(x)
      modifies this
      ensures Valid()
      ensures var r := InsertAt(old(items), index, x);
        && (r.Success? ==> err.None? && items == r.value)
        && (r.Failure? ==> err == Some(r.error) && items == old(items))
    {
      var r := InsertAt(items, index, x);
      if r.Success? {
        InsertWellFormed(items, index, x);
        items := r.value;
        err := None;
      } else {
        err := Some(r.error);
      }
    }

    /** pop(index), index -1 when omitted: removes and returns one item. */
    method Pop(index: int) returns (r: Result<Item, CircuitError>)
      requires Valid()
      modifies this
      ensures Valid()
      ensures var p := PopAt(old(items), index);
        && (p.Success? ==> r == Success(p.value.0) && items == p.value.1)
        && (p.Failure? ==> r == Failure(p.error) && items == old(items))
    {
      var p := PopAt(items, index);
      if p.Success? {
        PopWellFormed(items, index);
        items := p.value.1;
        r := Success(p.value.0);
      } else {
        r := Failure(p.error);
      }
    }
  }

  lemma InsertWellFormed(items: seq<Item>, index: int, x: seq<Item>)
    requires WellFormed(items) && WellFormed(x) && InsertAt(items, index, x).Success?
    ensures WellFormed(InsertAt(items, index, x).value)
  {
    var p := Resolve(|items|, index);
    var r := items[..p] + x + items[p..];
    forall k | 0 <= k < |r| ensures WellFormedItem(r[k]) {
      if k < p {
        assert r[k] == items[k];
      } else if k < p + |x| {
        assert r[k] == x[k - p];
      } else {
        assert r[k] == items[k - |x|];
      }
    }
  }

  lemma PopWellFormed(items: seq<Item>, index: int)
    requires WellFormed(items) && PopAt(items, index).Success?
    ensures WellFormed(PopAt(items, index).value.1)
  {
    var p := Resolve(|items|, index);
    var r := items[..p] + items[p + 1..];
    forall k | 0 <= k < |r| ensures WellFormedItem(r[k]) {
      if k < p {
        assert r[k] == items[k];
      } else {
        assert r[k] == items[k + 1];
      }
    }
  }
}
