/**
 * The part of the value and statement layer that the module builder relies on.
 * The layer itself is not part of this model: a value is known here only by its
 * structure and its width, a statement by the signals it assigns.
 */
module Ast {

  /** A signal, known by its identity and its width in bits. */
  datatype Signal = Signal(id: nat, width: nat)

  /**
   * A value of the expression layer. Datatype equality is structural, which is
   * what the layer's structural key gives: two values built the same way are the
   * same key.
   */
  datatype Value =
    | Read(signal: Signal)          // a signal used as a value
    | Other(id: nat, width: nat)    // any other value the layer builds (constants, operators)
    | Bool(operand: Value)          // `operand.bool()`: is the operand nonzero
    | Cat(parts: seq<Value>)        // the parts side by side, the first one least significant

  /** The width in bits of a value (`len(value)`). */
  function Width(v: Value): nat
  {
    match v
    case Read(s) => s.width
    case Other(_, w) => w
    case Bool(_) => 1
    case Cat(parts) => SumOfWidths(parts)
  }

  /** The width of a concatenation of `parts`. */
  function SumOfWidths(parts: seq<Value>): nat
  {
    if parts == [] then 0 else Width(parts[0]) + SumOfWidths(parts[1..])
  }

  /** A concatenation of one-bit values is as wide as it has parts. */
  lemma {:induction false} OneBitPartsWidth(parts: seq<Value>)
    requires forall i :: 0 <= i < |parts| ==> Width(parts[i]) == 1
    ensures Width(Cat(parts)) == |parts|
  {
    if parts != [] {
      OneBitPartsWidth(parts[1..]);
    }
  }

  /**
   * A statement: an assignment, or a selection over a test value with an
   * insertion-ordered list of (pattern, body) cases.
   */
  datatype Stmt =
    | Assign(targets: seq<Signal>, rhs: Value)
    | Switch(test: Value, cases: seq<SwitchCase>)

  /** One case of a selection: a pattern of '0', '1' and '-' (most significant bit first) and its body. */
  datatype SwitchCase = SwitchCase(pattern: string, body: seq<Stmt>)

  /**
   * The signals a statement assigns, in order of appearance. For a selection these
   * are the signals of all its case bodies.
   */
  function LhsSignals(s: Stmt): seq<Signal>
  {
    match s
    case Assign(targets, _) => targets
    case Switch(_, cases) => CasesLhs(cases)
  }

  function CasesLhs(cases: seq<SwitchCase>): seq<Signal>
  {
    if cases == [] then [] else BodyLhs(cases[0].body) + CasesLhs(cases[1..])
  }

  function BodyLhs(body: seq<Stmt>): seq<Signal>
  {
    if body == [] then [] else LhsSignals(body[0]) + BodyLhs(body[1..])
  }
}
