/** The exceptions the module builder raises, one constructor per raise site. */
module Errors {
  import opened Wrappers
  import opened Ast
  import opened Ir

  datatype Error =
    /** SyntaxError: `Elif` with no pending `If` condition. */
    | ElifWithoutIf
    /** SyntaxError: `Else` with no pending `If` condition. */
    | ElseWithoutIf
    /** SyntaxError: a `Case` pattern whose length is not the width of the test. */
    | CaseWidthMismatch(pattern: string, width: nat)
    /** SyntaxError: a statement other than an assignment appended to a domain. */
    | NotAnAssignment(domain: Option<string>)
    /** SyntaxError: `signal` is driven from `current` and is now assigned from `domain`. */
    | DriverConflict(signal: Signal, domain: Option<string>, current: Option<string>)
    /** TypeError: a submodule without `get_fragment`. */
    | NotASubmodule(submodule: Submodule)
    /** AttributeError: a direct assignment to the domain attribute `name`. */
    | DomainAssigned(name: string)
}
