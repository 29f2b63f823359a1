/**
 * The gate vocabulary a circuit instruction may name, with the static facts the
 * circuit operations consult: how a name (or one of its aliases) resolves, how
 * many parens arguments and which kinds of targets the gate accepts, whether
 * adjacent instructions of the gate may fuse, whether it is a noise channel,
 * and which gate undoes it.
 */
module Gates {
  import opened Wrappers

  datatype Gate =
    // one-qubit unitaries
    | I | X | Y | Z | H | H_XY | H_YZ | S | S_DAG | SQRT_X | SQRT_X_DAG | SQRT_Y | SQRT_Y_DAG | C_XYZ | C_ZYX
    // two-qubit unitaries
    | CX | CY | CZ | SWAP | ISWAP | ISWAP_DAG | SQRT_XX | SQRT_XX_DAG | SQRT_ZZ | SQRT_ZZ_DAG
    // measurements and resets
    | M | MX | MY | MR | MRX | MRY | R | RX | RY
    // Pauli-product measurement and rotations
    | MPP | SPP | SPP_DAG
    // noise channels
    | X_ERROR | Y_ERROR | Z_ERROR | DEPOLARIZE1 | DEPOLARIZE2 | PAULI_CHANNEL_1 | PAULI_CHANNEL_2
    | E | ELSE_CORRELATED_ERROR | I_ERROR | II_ERROR
    // annotations
    | DETECTOR | OBSERVABLE_INCLUDE | QUBIT_COORDS | SHIFT_COORDS | TICK

  /** The canonical name, the one a circuit prints. */
  function Name(g: Gate): string
  {
    match g
    case I => "I" case X => "X" case Y => "Y" case Z => "Z" case H => "H"
    case H_XY => "H_XY" case H_YZ => "H_YZ" case S => "S" case S_DAG => "S_DAG"
    case SQRT_X => "SQRT_X" case SQRT_X_DAG => "SQRT_X_DAG"
    case SQRT_Y => "SQRT_Y" case SQRT_Y_DAG => "SQRT_Y_DAG"
    case C_XYZ => "C_XYZ" case C_ZYX => "C_ZYX"
    case CX => "CX" case CY => "CY" case CZ => "CZ" case SWAP => "SWAP"
    case ISWAP => "ISWAP" case ISWAP_DAG => "ISWAP_DAG"
    case SQRT_XX => "SQRT_XX" case SQRT_XX_DAG => "SQRT_XX_DAG"
    case SQRT_ZZ => "SQRT_ZZ" case SQRT_ZZ_DAG => "SQRT_ZZ_DAG"
    case M => "M" case MX => "MX" case MY => "MY"
    case MR => "MR" case MRX => "MRX" case MRY => "MRY"
    case R => "R" case RX => "RX" case RY => "RY"
    case MPP => "MPP" case SPP => "SPP" case SPP_DAG => "SPP_DAG"
    case X_ERROR => "X_ERROR" case Y_ERROR => "Y_ERROR" case Z_ERROR => "Z_ERROR"
    case DEPOLARIZE1 => "DEPOLARIZE1" case DEPOLARIZE2 => "DEPOLARIZE2"
    case PAULI_CHANNEL_1 => "PAULI_CHANNEL_1" case PAULI_CHANNEL_2 => "PAULI_CHANNEL_2"
    case E => "E" case ELSE_CORRELATED_ERROR => "ELSE_CORRELATED_ERROR"
    case I_ERROR => "I_ERROR" case II_ERROR => "II_ERROR"
    case DETECTOR => "DETECTOR" case OBSERVABLE_INCLUDE => "OBSERVABLE_INCLUDE"
    case QUBIT_COORDS => "QUBIT_COORDS" case SHIFT_COORDS => "SHIFT_COORDS" case TICK => "TICK"
  }

  /** Resolves a gate name; an unknown name is the "Gate not found" failure. */
  function Lookup(name: string): Option<Gate>
  {
    match name
    case "I" => Some(I) case "X" => Some(X) case "Y" => Some(Y) case "Z" => Some(Z) case "H" => Some(H)
    case "H_XY" => Some(H_XY) case "H_YZ" => Some(H_YZ) case "S" => Some(S) case "S_DAG" => Some(S_DAG)
    case "SQRT_X" => Some(SQRT_X) case "SQRT_X_DAG" => Some(SQRT_X_DAG)
    case "SQRT_Y" => Some(SQRT_Y) case "SQRT_Y_DAG" => Some(SQRT_Y_DAG)
    case "C_XYZ" => Some(C_XYZ) case "C_ZYX" => Some(C_ZYX)
    case "CX" => Some(CX) case "CY" => Some(CY) case "CZ" => Some(CZ) case "SWAP" => Some(SWAP)
    case "ISWAP" => Some(ISWAP) case "ISWAP_DAG" => Some(ISWAP_DAG)
    case "SQRT_XX" => Some(SQRT_XX) case "SQRT_XX_DAG" => Some(SQRT_XX_DAG)
    case "SQRT_ZZ" => Some(SQRT_ZZ) case "SQRT_ZZ_DAG" => Some(SQRT_ZZ_DAG)
    case "M" => Some(M) case "MX" => Some(MX) case "MY" => Some(MY)
    case "MR" => Some(MR) case "MRX" => Some(MRX) case "MRY" => Some(MRY)
    case "R" => Some(R) case "RX" => Some(RX) case "RY" => Some(RY)
    case "MPP" => Some(MPP) case "SPP" => Some(SPP) case "SPP_DAG" => Some(SPP_DAG)
    case "X_ERROR" => Some(X_ERROR) case "Y_ERROR" => Some(Y_ERROR) case "Z_ERROR" => Some(Z_ERROR)
    case "DEPOLARIZE1" => Some(DEPOLARIZE1) case "DEPOLARIZE2" => Some(DEPOLARIZE2)
    case "PAULI_CHANNEL_1" => Some(PAULI_CHANNEL_1) case "PAULI_CHANNEL_2" => Some(PAULI_CHANNEL_2)
    case "E" => Some(E) case "ELSE_CORRELATED_ERROR" => Some(ELSE_CORRELATED_ERROR)
    case "I_ERROR" => Some(I_ERROR) case "II_ERROR" => Some(II_ERROR)
    case "DETECTOR" => Some(DETECTOR) case "OBSERVABLE_INCLUDE" => Some(OBSERVABLE_INCLUDE)
    case "QUBIT_COORDS" => Some(QUBIT_COORDS) case "SHIFT_COORDS" => Some(SHIFT_COORDS) case "TICK" => Some(TICK)
    // aliases
    case "CNOT" => Some(CX) case "ZCX" => Some(CX) case "ZCY" => Some(CY) case "ZCZ" => Some(CZ)
    case "H_XZ" => Some(H) case "SQRT_Z" => Some(S) case "SQRT_Z_DAG" => Some(S_DAG)
    case "MZ" => Some(M) case "MRZ" => Some(MR) case "RZ" => Some(R)
    case "CORRELATED_ERROR" => Some(E)
    case _ => None
  }

  /** Every gate is found under its canonical name. */
  lemma LookupName(g: Gate)
    ensures Lookup(Name(g)) == Some(g)
  {
    match g
    case I | X | Y | Z | H | H_XY | H_YZ | S | S_DAG | SQRT_X | SQRT_X_DAG | SQRT_Y | SQRT_Y_DAG | C_XYZ | C_ZYX => LookupSingleQubit(g);
    case CX | CY | CZ | SWAP | ISWAP | ISWAP_DAG | SQRT_XX | SQRT_XX_DAG | SQRT_ZZ | SQRT_ZZ_DAG => LookupTwoQubit(g);
    case M | MX | MY | MR | MRX | MRY | R | RX | RY | MPP | SPP | SPP_DAG => LookupCollapsing(g);
    case X_ERROR | Y_ERROR | Z_ERROR | DEPOLARIZE1 | DEPOLARIZE2 | PAULI_CHANNEL_1 | PAULI_CHANNEL_2 | E | ELSE_CORRELATED_ERROR | I_ERROR | II_ERROR => LookupNoise(g);
    case DETECTOR | OBSERVABLE_INCLUDE | QUBIT_COORDS | SHIFT_COORDS | TICK => LookupAnnotation(g);
  }

  lemma LookupSingleQubit(g: Gate)
    requires g in {I, X, Y, Z, H, H_XY, H_YZ, S, S_DAG, SQRT_X, SQRT_X_DAG, SQRT_Y, SQRT_Y_DAG, C_XYZ, C_ZYX}
    ensures Lookup(Name(g)) == Some(g)
  {
  }

  lemma LookupTwoQubit(g: Gate)
    requires g in {CX, CY, CZ, SWAP, ISWAP, ISWAP_DAG, SQRT_XX, SQRT_XX_DAG, SQRT_ZZ, SQRT_ZZ_DAG}
    ensures Lookup(Name(g)) == Some(g)
  {
  }

  lemma LookupCollapsing(g: Gate)
    requires g in {M, MX, MY, MR, MRX, MRY, R, RX, RY, MPP, SPP, SPP_DAG}
    ensures Lookup(Name(g)) == Some(g)
  {
  }

  lemma LookupNoise(g: Gate)
    requires g in {X_ERROR, Y_ERROR, Z_ERROR, DEPOLARIZE1, DEPOLARIZE2, PAULI_CHANNEL_1, PAULI_CHANNEL_2, E, ELSE_CORRELATED_ERROR, I_ERROR, II_ERROR}
    ensures Lookup(Name(g)) == Some(g)
  {
  }

  lemma LookupAnnotation(g: Gate)
    requires g in {DETECTOR, OBSERVABLE_INCLUDE, QUBIT_COORDS, SHIFT_COORDS, TICK}
    ensures Lookup(Name(g)) == Some(g)
  {
  }

  /** A found name prints as the canonical name of the gate it resolves to, and
    * that canonical name resolves to the same gate (so CNOT reads back as CX). */
  lemma LookupCanonical(name: string)
    requires Lookup(name).Some?
    ensures Lookup(Name(Lookup(name).value)) == Lookup(name)
  {
    LookupName(Lookup(name).value);
  }

  /** How many parens arguments a gate takes. */
  datatype ArgCount = Exactly(n: nat) | ZeroOrOne | AnyNumber

  function ArgRule(g: Gate): ArgCount
  {
    match g
    case M | MX | MY | MR | MRX | MRY | MPP => ZeroOrOne
    case X_ERROR | Y_ERROR | Z_ERROR | DEPOLARIZE1 | DEPOLARIZE2 | E | ELSE_CORRELATED_ERROR => Exactly(1)
    case OBSERVABLE_INCLUDE => Exactly(1)
    case PAULI_CHANNEL_1 => Exactly(3)
    case PAULI_CHANNEL_2 => Exactly(15)
    case I_ERROR | II_ERROR | DETECTOR | QUBIT_COORDS | SHIFT_COORDS => AnyNumber
    case _ => Exactly(0)
  }

  /** Whether n arguments satisfy the rule. */
  predicate ArgCountOk(rule: ArgCount, n: nat)
  {
    match rule
    case Exactly(k) => n == k
    case ZeroOrOne => n <= 1
    case AnyNumber => true
  }

  /** Gates whose targets are consumed in pairs. */
  predicate IsTwoQubit(g: Gate)
  {
    match g
    case CX | CY | CZ | SWAP | ISWAP | ISWAP_DAG | SQRT_XX | SQRT_XX_DAG | SQRT_ZZ | SQRT_ZZ_DAG | DEPOLARIZE2 | PAULI_CHANNEL_2 | II_ERROR => true
    case _ => false
  }

  /** Gates that take no targets at all. */
  predicate TakesNoTargets(g: Gate)
  {
    match g
    case TICK | SHIFT_COORDS => true
    case _ => false
  }

  /** Gates that produce measurement results. */
  predicate ProducesResults(g: Gate)
  {
    match g
    case M | MX | MY | MR | MRX | MRY | MPP => true
    case _ => false
  }

  /** Gates whose targets are Pauli-basis targets (X0, Y1, ...). */
  predicate TakesPauliTargets(g: Gate)
  {
    match g
    case MPP | SPP | SPP_DAG | E | ELSE_CORRELATED_ERROR => true
    case _ => false
  }

  /** Gates whose Pauli targets may be joined into products with `*`. */
  predicate TakesCombiners(g: Gate)
  {
    match g
    case MPP | SPP | SPP_DAG => true
    case _ => false
  }

  /** Gates that accept plain qubit targets. */
  predicate TakesQubits(g: Gate)
  {
    !TakesNoTargets(g) && !TakesPauliTargets(g) && g != DETECTOR && g != OBSERVABLE_INCLUDE
  }

  /** Gates that accept inverted (`!`) targets: the result-producing ones and the
    * Pauli-product rotations. */
  predicate AllowsInverted(g: Gate)
  {
    ProducesResults(g) || g == SPP || g == SPP_DAG
  }

  /** Gates that accept measurement-record (`rec[-k]`) targets. */
  predicate TakesRecords(g: Gate)
  {
    match g
    case DETECTOR | OBSERVABLE_INCLUDE | CX | CY | CZ => true
    case _ => false
  }

  /** Noise channels: gates that only inject errors, removed by without_noise. */
  predicate IsNoiseChannel(g: Gate)
  {
    match g
    case X_ERROR | Y_ERROR | Z_ERROR | DEPOLARIZE1 | DEPOLARIZE2 | PAULI_CHANNEL_1 | PAULI_CHANNEL_2 | E | ELSE_CORRELATED_ERROR | I_ERROR | II_ERROR => true
    case _ => false
  }

  /** Gates whose arguments are probabilities: the noise channels and the
    * result flip probability of the measurements. */
  predicate ArgsAreProbabilities(g: Gate)
  {
    IsNoiseChannel(g) || ProducesResults(g)
  }

  /** Adjacent instructions of these gates may merge into one when their arguments and tags agree. */
  predicate Fusable(g: Gate)
  {
    match g
    case DETECTOR | OBSERVABLE_INCLUDE | QUBIT_COORDS | SHIFT_COORDS | TICK | E | ELSE_CORRELATED_ERROR => false
    case _ => true
  }

  /** The gate that undoes g, for the gates inverse() accepts. */
  function InverseGate(g: Gate): Option<Gate>
  {
    match g
    case I | X | Y | Z | H | H_XY | H_YZ | CX | CY | CZ | SWAP | TICK => Some(g)
    case S => Some(S_DAG)
    case S_DAG => Some(S)
    case SQRT_X => Some(SQRT_X_DAG)
    case SQRT_X_DAG => Some(SQRT_X)
    case SQRT_Y => Some(SQRT_Y_DAG)
    case SQRT_Y_DAG => Some(SQRT_Y)
    case C_XYZ => Some(C_ZYX)
    case C_ZYX => Some(C_XYZ)
    case ISWAP => Some(ISWAP_DAG)
    case ISWAP_DAG => Some(ISWAP)
    case SQRT_XX => Some(SQRT_XX_DAG)
    case SQRT_XX_DAG => Some(SQRT_XX)
    case SQRT_ZZ => Some(SQRT_ZZ_DAG)
    case SQRT_ZZ_DAG => Some(SQRT_ZZ)
    case SPP => Some(SPP_DAG)
    case SPP_DAG => Some(SPP)
    case _ => None
  }

  /** Inverting twice gives the gate back, and the inverse takes its targets the
    * same way (pairs, Pauli products) and fuses the same way. */
  lemma InverseGateInvolution(g: Gate)
    requires InverseGate(g).Some?
    ensures InverseGate(InverseGate(g).value) == Some(g)
    ensures IsTwoQubit(InverseGate(g).value) == IsTwoQubit(g)
    ensures Fusable(InverseGate(g).value) == Fusable(g)
    ensures ArgRule(InverseGate(g).value) == ArgRule(g)
    ensures TakesPauliTargets(InverseGate(g).value) == TakesPauliTargets(g)
  {
    if InverseGate(g) != Some(g) {
      InversePairInvolution(g);
    }
  }

  /** The gates whose inverse is a different gate come in pairs. */
  lemma InversePairInvolution(g: Gate)
    requires InverseGate(g).Some? && InverseGate(g) != Some(g)
    ensures InverseGate(InverseGate(g).value) == Some(g)
    ensures IsTwoQubit(InverseGate(g).value) == IsTwoQubit(g)
    ensures Fusable(InverseGate(g).value) == Fusable(g)
    ensures ArgRule(InverseGate(g).value) == ArgRule(g)
    ensures TakesPauliTargets(InverseGate(g).value) == TakesPauliTargets(g)
  {
    match g
    case S | S_DAG | SQRT_X | SQRT_X_DAG | SQRT_Y | SQRT_Y_DAG | C_XYZ | C_ZYX => InverseSingleQubitPair(g);
    case ISWAP | ISWAP_DAG | SQRT_XX | SQRT_XX_DAG | SQRT_ZZ | SQRT_ZZ_DAG => InverseTwoQubitPair(g);
    case SPP | SPP_DAG => {}
  }

  lemma InverseSingleQubitPair(g: Gate)
    requires g in {S, S_DAG, SQRT_X, SQRT_X_DAG, SQRT_Y, SQRT_Y_DAG, C_XYZ, C_ZYX}
    ensures InverseGate(g).Some? && InverseGate(InverseGate(g).value) == Some(g)
    ensures IsTwoQubit(InverseGate(g).value) == IsTwoQubit(g)
    ensures Fusable(InverseGate(g).value) == Fusable(g)
    ensures ArgRule(InverseGate(g).value) == ArgRule(g)
    ensures TakesPauliTargets(InverseGate(g).value) == TakesPauliTargets(g)
  {
  }

  lemma InverseTwoQubitPair(g: Gate)
    requires g in {ISWAP, ISWAP_DAG, SQRT_XX, SQRT_XX_DAG, SQRT_ZZ, SQRT_ZZ_DAG}
    ensures InverseGate(g).Some? && InverseGate(InverseGate(g).value) == Some(g)
    ensures IsTwoQubit(InverseGate(g).value) == IsTwoQubit(g)
    ensures Fusable(InverseGate(g).value) == Fusable(g)
    ensures ArgRule(InverseGate(g).value) == ArgRule(g)
    ensures TakesPauliTargets(InverseGate(g).value) == TakesPauliTargets(g)
  {
  }
}
