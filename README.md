# nmigen `Module` builder, modelled in Dafny

This project models the statement builder of nmigen's hardware description
DSL, the `Module` class of `nmigen/fhdl/dsl.py`. A design is described by
appending assignments to clock domains (`m.d.comb += ...`, `m.d.sync += ...`)
inside `If`/`Elif`/`Else` and `Case` blocks, and by registering submodules.
The builder:

- keeps the statements in an ordered list;
- records which domain drives each signal, and refuses a second driver;
- collects an `If`/`Elif`/`Else` chain and lowers it into one `Switch` over
  the concatenated one-bit conditions, with one-hot wildcard patterns;
- collects `Case` blocks into a `Switch` on one test value, in an
  insertion-ordered pattern map;
- assembles a fragment from its submodules, statements and drivers in
  `lower`.

Files:

- `ast.dfy` (`Ast`): values, known by structure and width; statements
  (`Assign`, `Switch`); the signals a statement assigns.
- `ir.dfy` (`Ir`): submodules and the fragment that `lower` returns.
- `errors.dfy` (`Errors`): one constructor per exception the builder raises.
- `case_map.dfy` (`CaseMap`): the ordered pattern-to-body map, with its lookup
  and store.
- `domains.dfy` (`Domains`): domain names ("comb" is the unclocked domain,
  recorded as `None`), domain handles, and the proxy's attribute assignment.
- `lowering.dfy` (`Lowering`): the specification of the chain lowering, with
  the shape of the patterns it produces.
- `drivers.dfy` (`Drivers`): the specification of `_add_statement`'s two
  loops, which record drivers and keep statements.
- `dsl.dfy` (`Dsl`): the `Module` class itself. Its fields are the builder's
  state and its methods change them in place. Each `with` block becomes an
  `Open...` method that returns the block's saved state and a `Close...`
  method that takes it back.
- `scenarios.dfy` (`Scenarios`): short descriptions written against the
  class, with the statements and drivers they produce. Each is proved from
  the methods' contracts alone.

Decisions about the source's semantics:

- `OrderedDict` assignment keeps an existing key in place and replaces its
  body; a new key goes last (`CaseMap.Put`).
- `zip(conds + [None], bodies)` stops at the shorter sequence
  (`Lowering.Steps`).
- `ValueKey` equality of two tests is structural equality of `Value`s.
- A pending switch test is truthy exactly when it is present.
- The context managers' bodies are whatever the caller does between `Open...`
  and `Close...`.
- An `If` nested as the last thing inside another `If` is not flushed before
  the outer block closes, so both conditions join one chain. The model
  reproduces this (`Scenarios.NestedIfs`).

## Model

| member | source | states |
|---|---|---|
| Ast.OneBitPartsWidth | nmigen/fhdl/dsl.py:169-180 | a concatenation of one-bit conditions is as wide as the number of conditions |
| Domains.NameRoundTrip | nmigen/fhdl/dsl.py:33-38 | the name an error message prints for a domain is the name it was looked up by ("comb" included) |
| Domains.DomainOfInjective | nmigen/fhdl/dsl.py:33-38 | only "comb" denotes the unclocked domain, and distinct names denote distinct domains |
| Domains.DomainOf | nmigen/fhdl/dsl.py:34-37 | "comb" denotes the unclocked domain (`None`); every other name denotes the domain of that name |
| Domains.HumanName | nmigen/fhdl/dsl.py:191-195 | the name an error message prints for a domain looks that domain up again (a clocked domain named "comb" aside, which no lookup produces) |
| Domains.HandleOf | nmigen/fhdl/dsl.py:33-41 | `d[name]`, and `d.<name>` for a name that is not the proxy's own attribute, give a handle at the proxy's depth whose domain prints back as `name`; the domain is the unclocked one (`None`) exactly when the name is "comb" |
| Domains.ReadAttr | nmigen/fhdl/dsl.py:16-38 | `d._depth` reads the proxy's depth and `d._builder` its builder, since ordinary lookup finds them before `__getattr__`; every other name gives the handle `d[name]` gives, at the proxy's depth and printing back as the name |
| Domains.AttrAndItem | nmigen/fhdl/dsl.py:33-41 | `d.<name>` and `d[name]` give the same handle exactly when the name is not `_depth` or `_builder` |
| Domains.AssignAttr | nmigen/fhdl/dsl.py:43-51 | a write is stored exactly when the attribute is `_depth`; writing back a domain handle is accepted and discarded; any other value is refused with the domain's name |
| CaseMap.Get | nmigen/fhdl/dsl.py:87 | a pattern has a body exactly when it occurs among the stored patterns |
| CaseMap.Put | nmigen/fhdl/dsl.py:87 | after the store the pattern maps to the new body; a new pattern is appended after all existing cases |
| CaseMap.PutKeepsOthers | nmigen/fhdl/dsl.py:87 | storing under one pattern leaves every other pattern's body unchanged |
| CaseMap.PutExistingKeepsOrder | nmigen/fhdl/dsl.py:87 | re-storing an existing pattern keeps the order of all patterns |
| CaseMap.PutKeepsDistinct | nmigen/fhdl/dsl.py:87 | the map never holds a pattern twice |
| Lowering.Reduce | nmigen/fhdl/dsl.py:169-173 | every condition enters the test as one bit, and a one-bit condition enters unchanged |
| Lowering.ReduceIdempotent | nmigen/fhdl/dsl.py:169-173 | reducing an already reduced condition changes nothing |
| Lowering.RJust | nmigen/fhdl/dsl.py:176 | `str.rjust`: length is the larger of the two, the original string is the suffix, and the padding is all fill characters |
| Lowering.BranchPatternShape | nmigen/fhdl/dsl.py:175-176 | branch i of a k-condition chain gets a k-character pattern with '1' at position k-1-i and '-' everywhere else |
| Lowering.ChainPatternsDiffer | nmigen/fhdl/dsl.py:175-179 | no two steps of the lowering loop produce the same pattern, the Else pattern included |
| Lowering.Steps | nmigen/fhdl/dsl.py:168 | the loop runs once per body, or once per condition plus one when there are more bodies than that: the count is the body count or k + 1, whichever is smaller |
| Lowering.ChainStep | nmigen/fhdl/dsl.py:174-179 | each step of the loop adds its case last, overwriting nothing |
| Lowering.LowerChain | nmigen/fhdl/dsl.py:166-180 | the lowered chain is a switch with one case per loop step, each holding that step's body in order |
| Lowering.LowerChainShape | nmigen/fhdl/dsl.py:166-180 | a chain of k conditions lowers to a switch whose test is the k conditions, each reduced to one bit, side by side with the first least significant; one case per branch, in order, each body in its place, a one-hot pattern per branch and an all-'-' Else case; all patterns have the test's width and are distinct |
| Lowering.TwoConditionsAndElse | nmigen/fhdl/dsl.py:166-180 | `If(c1)/Elif(c2)/Else` lowers to `Switch(Cat(c1, c2))` with cases "-1", "1-", "--" in that order |
| Lowering.TwoConditions | nmigen/fhdl/dsl.py:166-180 | `If(c1)/Elif(c2)` without `Else` lowers to cases "-1", "1-" and nothing for both false |
| Lowering.LoneIf | nmigen/fhdl/dsl.py:166-180 | a lone `If(c)` lowers to the single case "1" |
| Drivers.RecordSpec | nmigen/fhdl/dsl.py:207-215 | recording fails exactly when a signal is already driven from another domain; recorded drivers never change; new entries are driven from the current domain and come from the signals walked; on success every signal is recorded |
| Drivers.RecordConflict | nmigen/fhdl/dsl.py:207-215 | a failed walk names the first signal driven from another domain (all signals before it agree), the current domain and the domain already driving it |
| Drivers.Record | nmigen/fhdl/dsl.py:207-215 | the walk can only fail with a conflict from the current domain against a different one |
| Drivers.RecordAgain | nmigen/fhdl/dsl.py:207-215 | assigning again from the same domain succeeds and leaves the driver map unchanged |
| Drivers.AddAllSpec | nmigen/fhdl/dsl.py:201-217 | the statements kept are a prefix of the batch; the batch goes through whole exactly when every statement is an assignment (or compat mode is on) and no signal has a conflicting driver |
| Drivers.AddAllRefusal | nmigen/fhdl/dsl.py:201-217 | a refused batch keeps exactly the statements before the first refused one, all admissible and agreeing with the drivers; the error is `NotAnAssignment` for a non-assignment outside compat mode, or a conflict naming a signal of that statement, the current domain and the domain already driving it |
| Drivers.AddAll | nmigen/fhdl/dsl.py:201-217 | a batch keeps at most its own statements and can only fail with `NotAnAssignment` or a conflict against the current domain |
| Drivers.AddAllKeepsDrivers | nmigen/fhdl/dsl.py:207-215 | a batch never changes a recorded driver; every signal it adds is driven from its domain and is one the batch assigns; a batch that goes through records every signal it assigns |
| Dsl.Flushed | nmigen/fhdl/dsl.py:165-183 | a flush emits the lowered chain, if any, followed by the pending switch with its cases, if any |
| Dsl.FlushNothing | nmigen/fhdl/dsl.py:165-188 | flushing with nothing pending emits nothing, so a second flush is a no-op |
| Dsl.FlushedChain | nmigen/fhdl/dsl.py:166-180 | a flushed chain is one switch over a test as wide as the chain, with a case per body and distinct patterns of that width |
| Dsl.FlushedDistinct | nmigen/fhdl/dsl.py:165-183 | every statement a flush emits is a switch with no pattern twice |
| Dsl.BuildChain | nmigen/fhdl/dsl.py:166-180 | the lowering loop builds exactly the switch that `LowerChain` specifies |
| Dsl.CasePattern | nmigen/fhdl/dsl.py:74-75 | a given `Case` value is the pattern itself; an omitted one is all '-' as wide as the test |
| Dsl.LowerablePrefix | nmigen/fhdl/dsl.py:95-98 | `submodules += [...]` registers the submodules before the first one without `get_fragment` |
| Dsl.SubFragments | nmigen/fhdl/dsl.py:229-230 | one child fragment per registered submodule, in order, under its name |
| Dsl.Module.constructor | nmigen/fhdl/dsl.py:105-116 | a new module has no submodules, drivers, statements or pending chain or switch, at depth 0 |
| Dsl.Module.Flush | nmigen/fhdl/dsl.py:165-188 | the pending chain and switch are appended to the statements as `Flushed` says, each a switch with distinct patterns, and nothing stays pending |
| Dsl.Module.AddStatement | nmigen/fhdl/dsl.py:190-217 | a drop in depth flushes first; the statements kept, the driver map and the error are those of `AddAll`; the statement depth becomes the given depth |
| Dsl.Module.AppendBatch | nmigen/fhdl/dsl.py:201-217 | the loop appends the accepted statements and leaves the driver map and error as `AddAll` says |
| Dsl.Module.RecordDrivers | nmigen/fhdl/dsl.py:207-215 | the inner loop leaves the driver map and error as `Record` says |
| Dsl.Module.OpenIf | nmigen/fhdl/dsl.py:118-124 | entering `If` flushes, starts an empty body one level deeper, and saves the enclosing list |
| Dsl.Module.OpenElif | nmigen/fhdl/dsl.py:132-139 | `Elif` with no pending condition is refused; otherwise it starts an empty body one level deeper and keeps the chain |
| Dsl.Module.CloseBranch | nmigen/fhdl/dsl.py:126-130 | leaving an `If` or `Elif` appends its condition and body to the chain and returns to the enclosing list one level up |
| Dsl.Module.OpenElse | nmigen/fhdl/dsl.py:147-154 | `Else` with no pending condition is refused; otherwise it starts an empty body one level deeper |
| Dsl.Module.CloseElse | nmigen/fhdl/dsl.py:156-160 | leaving `Else` appends its body and flushes the whole chain into the enclosing list |
| Dsl.Module.OpenCase | nmigen/fhdl/dsl.py:73-84 | a pattern of the wrong width is refused; a new test flushes and becomes the pending test; the body starts empty at statement depth + 1 |
| Dsl.Module.CloseCase | nmigen/fhdl/dsl.py:86-88 | leaving a `Case` stores its body under its pattern (in place if present) and returns to the enclosing list |
| Dsl.Module.AddSubmodule | nmigen/fhdl/dsl.py:219-223 | an object without `get_fragment` is refused and nothing is registered; otherwise it is appended with its name |
| Dsl.Module.AddSubmodules | nmigen/fhdl/dsl.py:95-98 | registers the submodules in order, without names, up to the first one refused |
| Dsl.Module.Lower | nmigen/fhdl/dsl.py:225-234 | after a flush (whose switches have distinct patterns) the fragment holds one child per submodule in order, exactly the statements, and exactly the driver map |
| Scenarios.IfElifElse | nmigen/fhdl/dsl.py:118-180 | an `If`/`Elif`/`Else` chain of assignments lowers to one switch with cases "-1", "1-", "--" |
| Scenarios.ElifAfterElse | nmigen/fhdl/dsl.py:132-135 | an `Elif` right after an `Else` is refused, since the `Else` flushed the chain |
| Scenarios.ElseFirst | nmigen/fhdl/dsl.py:147-150 | an `Else` with no `If` is refused |
| Scenarios.TwoIfs | nmigen/fhdl/dsl.py:118-120 | a second `If` flushes the first chain, giving two switches in order |
| Scenarios.NestedIfs | nmigen/fhdl/dsl.py:118-130 | an `If` nested last in an `If` joins the outer chain as its first branch |
| Scenarios.CombThenSync | nmigen/fhdl/dsl.py:207-215 | a signal driven from "comb" and then assigned from "sync" is refused with both domains named, and stays driven from "comb" |
| Scenarios.SameDomainTwice | nmigen/fhdl/dsl.py:207-217 | two assignments from one domain are both kept and the signal has one driver |
| Scenarios.SwitchInDomain | nmigen/fhdl/dsl.py:201-205 | appending a switch to a domain is refused outside compat mode and nothing is kept |
| Scenarios.CaseTestChange | nmigen/fhdl/dsl.py:79-81 | a `Case` on a new test flushes the pending switch first |
| Scenarios.CaseRepeated | nmigen/fhdl/dsl.py:87 | a `Case` on a pattern already present replaces that case's body and keeps the case in its place |
| Scenarios.ShortCasePattern | nmigen/fhdl/dsl.py:76-78 | a pattern shorter than the test is refused |
| Scenarios.ThreeSubmodules | nmigen/fhdl/dsl.py:95-101 | named and unnamed submodules lower to children in registration order with their names |
| Scenarios.NotLowerable | nmigen/fhdl/dsl.py:95-98 | a batch of submodules stops at the first one without `get_fragment` |

## Left out

- The value and statement layer (`.ast`) is reduced to structure and width.
  The model does not cover `Value.wrap` of Python integers and other
  non-`Value` conditions, the exact form of `.bool()`, or how a `Switch`
  evaluates. Priority between branches is carried only by case order.
- `Statement.wrap`: a batch is always a sequence of statements; a single
  statement is a one-element batch.
- Integer `Case` values: only string patterns and the omitted value are
  modelled. The source checks the width of string values only.
- The exception path of the context managers (the `finally` clauses that
  restore the depth and the enclosing list when the body raises) is not
  modelled. A block ends only through its `Close...` method.
- Domains.ReadAttr: only the proxy's two instance attributes are modelled. Python's
  own attributes of every object (`__class__`, `__dict__` and the like) are also
  found before `__getattr__`, and the model does not list them.
- `Dsl.Module.Domain` and `Dsl.CaseScope.Domain` are stated through
  `Domains.HandleOf` and carry no contract of their own.
- Error messages: only the exception kind and its arguments are kept, not the
  formatted text. The `__getattr__` hints that suggest `d.comb`/`d.sync`
  (lines 59-64) are not modelled.
- `lower(platform)`: the platform argument and the call to each submodule's
  `get_fragment` are calls into code this model does not see. A child
  fragment is represented by the submodule it comes from.
- The order of the `fragment.drive` calls follows the driver dictionary's
  iteration order. The model returns the map itself, which has no order.
- Dsl.Module.CloseBranch: no claim is made that nested `If` blocks nest
  correctly. The source keeps one pending chain for all depths, and the model
  reproduces that as written.
