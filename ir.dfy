/**
 * The fragment layer at the boundary of the module builder. Lowering a submodule
 * is a call into code this model does not see, so a child fragment is
 * represented by the submodule it was lowered from.
 */
module Ir {
  import opened Wrappers
  import opened Ast

  /** An object registered as a submodule: `lowerable` tells whether it has `get_fragment`. */
  datatype Submodule = Submodule(id: nat, lowerable: bool)

  /** The fragment that `submodule.get_fragment(platform)` returns, attached under `name`. */
  datatype SubFragment = SubFragment(source: Submodule, name: Option<string>)

  /** The fragment assembled by `Module.lower`: children, statements and the driver of each signal. */
  datatype Fragment = Fragment(
    subfragments: seq<SubFragment>,
    statements: seq<Stmt>,
    drivers: map<Signal, Option<string>>)
}
