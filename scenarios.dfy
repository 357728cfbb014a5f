/**
 * Descriptions written against the `Module` builder, with what they produce.
 * Each one is proved from the contracts of the builder's methods alone.
 */
module Scenarios {
  import opened Wrappers
  import opened Ast
  import opened Ir
  import opened Errors
  import opened Domains
  import opened CaseMap
  import opened Lowering
  import opened Drivers
  import opened Dsl

  /** One assignment from "comb" onto a map driven only from "comb" goes through and keeps it so. */
  lemma CombAssignment(driving: map<Signal, Domain>, stmt: Stmt)
    requires stmt.Assign? && forall s :: s in driving ==> driving[s] == None
    ensures var b := AddAll(driving, [stmt], None, false);
      && b.error == None && b.accepted == [stmt]
      && forall s :: s in b.driving ==> b.driving[s] == None
  {
    AddAllSpec(driving, [stmt], None, false);
    AddAllKeepsDrivers(driving, [stmt], None, false);
    assert AllLhs([stmt]) == LhsSignals(stmt) + [];
  }

  /** Every signal driven so far is driven from the unclocked domain. */
  ghost predicate AllComb(m: Module)
    reads m
  {
    forall s :: s in m.driving ==> m.driving[s] == None
  }

  /** `m.d.comb += stmt` for one assignment, in a module whose signals are all driven from "comb". */
  method AddComb(m: Module, stmt: Stmt)
    requires m.Valid() && stmt.Assign? && AllComb(m) && m.depth >= m.stmtDepth
    modifies m
    ensures m.Valid() && AllComb(m)
    ensures m.statements == old(m.statements) + [stmt]
    ensures m.ifConds == old(m.ifConds) && m.ifBodies == old(m.ifBodies)
    ensures m.switchTest == old(m.switchTest) && m.switchCases == old(m.switchCases)
    ensures m.stmtDepth == old(m.depth) && m.depth == old(m.depth) && m.submodules == old(m.submodules)
  {
    CombAssignment(m.driving, stmt);
    var err := m.AddStatement([stmt], None, m.depth, false);
  }

  /** `with m.If(c): m.d.comb += stmt`: flush what is pending, then start a new chain with one branch. */
  method IfBlock(m: Module, c: Value, stmt: Stmt)
    requires m.Valid() && stmt.Assign? && AllComb(m) && m.depth + 1 >= m.stmtDepth
    modifies m
    ensures m.Valid() && AllComb(m)
    ensures m.statements == old(m.statements) + Flushed(old(m.ifConds), old(m.ifBodies), old(m.switchTest), old(m.switchCases))
    ensures m.ifConds == [c] && m.ifBodies == [[stmt]] && m.switchTest == None && m.switchCases == []
    ensures m.depth == old(m.depth) && m.stmtDepth == m.depth + 1 && m.submodules == old(m.submodules)
  {
    var scope := m.OpenIf(c);
    AddComb(m, stmt);
    assert m.statements == [stmt];
    m.CloseBranch(scope);
  }

  /** `with m.Elif(c): m.d.comb += stmt`: one more branch on the pending chain. */
  method ElifBlock(m: Module, c: Value, stmt: Stmt)
    requires m.Valid() && stmt.Assign? && AllComb(m) && m.depth + 1 >= m.stmtDepth && m.ifConds != []
    modifies m
    ensures m.Valid() && AllComb(m)
    ensures m.statements == old(m.statements)
    ensures m.ifConds == old(m.ifConds) + [c] && m.ifBodies == old(m.ifBodies) + [[stmt]]
    ensures m.switchTest == old(m.switchTest) && m.switchCases == old(m.switchCases)
    ensures m.depth == old(m.depth) && m.stmtDepth == m.depth + 1 && m.submodules == old(m.submodules)
  {
    var r := m.OpenElif(c);
    AddComb(m, stmt);
    assert m.statements == [stmt];
    m.CloseBranch(r.value);
  }

  /** `with m.Else(): m.d.comb += stmt`: the last body of the chain, which is then flushed. */
  method ElseBlock(m: Module, stmt: Stmt)
    requires m.Valid() && stmt.Assign? && AllComb(m) && m.depth + 1 >= m.stmtDepth && m.ifConds != []
    modifies m
    ensures m.Valid() && AllComb(m) && m.NothingPending()
    ensures m.statements == old(m.statements) +
      Flushed(old(m.ifConds), old(m.ifBodies) + [[stmt]], old(m.switchTest), old(m.switchCases))
    ensures m.depth == old(m.depth) && m.stmtDepth == m.depth + 1 && m.submodules == old(m.submodules)
  {
    var r := m.OpenElse();
    AddComb(m, stmt);
    assert m.statements == [stmt];
    m.CloseElse(r.value);
  }

  /** `with m.Case(test, pattern): pass` on a test other than the pending one: flush, then start a new switch. */
  method NewTestCase(m: Module, test: Value, pattern: string)
    requires m.Valid() && |pattern| == Width(test) && m.switchTest != Some(test)
    modifies m
    ensures m.Valid()
    ensures m.statements == old(m.statements) + Flushed(old(m.ifConds), old(m.ifBodies), old(m.switchTest), old(m.switchCases))
    ensures m.switchTest == Some(test) && m.switchCases == [SwitchCase(pattern, [])]
    ensures m.ifConds == [] && m.ifBodies == []
    ensures m.depth == old(m.depth) && m.stmtDepth == old(m.stmtDepth)
    ensures m.submodules == old(m.submodules) && m.driving == old(m.driving)
  {
    var r := m.OpenCase(test, Some(pattern));
    assert Put([], pattern, []) == [SwitchCase(pattern, [])];
    m.CloseCase(r.value);
  }

  /** `with m.Case(test, pattern): pass` on the pending test: one more case of the same switch. */
  method SameTestCase(m: Module, test: Value, pattern: string)
    requires m.Valid() && |pattern| == Width(test) && m.switchTest == Some(test)
    modifies m
    ensures m.Valid()
    ensures m.statements == old(m.statements)
    ensures m.switchTest == Some(test) && m.switchCases == Put(old(m.switchCases), pattern, [])
    ensures m.ifConds == old(m.ifConds) && m.ifBodies == old(m.ifBodies)
    ensures m.depth == old(m.depth) && m.stmtDepth == old(m.stmtDepth)
    ensures m.submodules == old(m.submodules) && m.driving == old(m.driving)
  {
    var r := m.OpenCase(test, Some(pattern));
    m.CloseCase(r.value);
  }

  /**
   * `with m.Case(test, pattern) as c: c.d.comb += stmt` on the pending test: the
   * case's body is the one assignment, appended at the case's own depth.
   */
  method SameTestCaseWith(m: Module, test: Value, pattern: string, stmt: Stmt)
    requires m.Valid() && |pattern| == Width(test) && m.switchTest == Some(test)
    requires stmt.Assign? && AllComb(m)
    modifies m
    ensures m.Valid() && AllComb(m)
    ensures m.statements == old(m.statements)
    ensures m.switchTest == Some(test) && m.switchCases == Put(old(m.switchCases), pattern, [stmt])
    ensures m.ifConds == old(m.ifConds) && m.ifBodies == old(m.ifBodies)
    ensures m.depth == old(m.depth) && m.stmtDepth == old(m.stmtDepth) + 1
    ensures m.submodules == old(m.submodules)
  {
    assert CasePattern(test, Some(pattern)) == pattern;
    var r := m.OpenCase(test, Some(pattern));
    var scope := r.value;
    assert scope.depth == old(m.stmtDepth) + 1 && scope.outer == old(m.statements);
    var comb := scope.Domain("comb");
    assert comb == Handle(scope.depth, None);
    CombIntoEmptyBody(m, stmt, comb.depth);
    m.CloseCase(scope);
  }

  /** `d.comb += stmt` as the first statement of a block body opened at depth `d`. */
  method CombIntoEmptyBody(m: Module, stmt: Stmt, d: int)
    requires m.Valid() && stmt.Assign? && AllComb(m) && m.statements == [] && d >= m.stmtDepth
    modifies m
    ensures m.Valid() && AllComb(m)
    ensures m.statements == [stmt] && m.stmtDepth == d
    ensures m.ifConds == old(m.ifConds) && m.ifBodies == old(m.ifBodies)
    ensures m.switchTest == old(m.switchTest) && m.switchCases == old(m.switchCases)
    ensures m.depth == old(m.depth) && m.submodules == old(m.submodules)
  {
    CombAssignment(m.driving, stmt);
    var err := m.AddStatement([stmt], None, d, false);
    assert m.statements == [] + [stmt];
  }

  /**
   * `If(c1)`, `Elif(c2)`, `Else()`, each with one assignment: one selection over
   * c1 and c2 (c1 least significant) with the cases "-1", "1-", "--" in order.
   */
  method IfElifElse(c1: Value, c2: Value, a1: Stmt, a2: Stmt, a3: Stmt) returns (f: Fragment)
    requires Width(c1) == 1 && Width(c2) == 1
    requires a1.Assign? && a2.Assign? && a3.Assign?
    ensures f.statements ==
      [Switch(Cat([c1, c2]), [SwitchCase("-1", [a1]), SwitchCase("1-", [a2]), SwitchCase("--", [a3])])]
  {
    TwoConditionsAndElse(c1, c2, [a1], [a2], [a3]);
    var chain := Switch(Cat([c1, c2]), [SwitchCase("-1", [a1]), SwitchCase("1-", [a2]), SwitchCase("--", [a3])]);
    assert Flushed([c1, c2], [[a1], [a2], [a3]], None, []) == [chain];
    assert Flushed([], [], None, []) == [];
    var m := new Module();
    IfBlock(m, c1, a1);
    assert m.statements == [];
    ElifBlock(m, c2, a2);
    assert m.ifConds == [c1, c2] && m.ifBodies + [[a3]] == [[a1], [a2], [a3]];
    ElseBlock(m, a3);
    assert m.statements == [chain];
    f := m.Lower();
  }

  /** An `Else` ends the chain, so an `Elif` right after it is refused. */
  method ElifAfterElse(c1: Value, c2: Value, a1: Stmt, a2: Stmt) returns (r: Result<BranchScope, Error>)
    requires a1.Assign? && a2.Assign?
    ensures r == Err(ElifWithoutIf)
  {
    var m := new Module();
    IfBlock(m, c1, a1);
    ElseBlock(m, a2);
    r := m.OpenElif(c2);
  }

  /** An `Else` with no `If` before it is refused. */
  method ElseFirst() returns (r: Result<ElseScope, Error>)
    ensures r == Err(ElseWithoutIf)
  {
    var m := new Module();
    r := m.OpenElse();
  }

  /** A second `If` flushes the first chain before it starts: two selections, in order. */
  method TwoIfs(c1: Value, c2: Value, a1: Stmt, a2: Stmt) returns (f: Fragment)
    requires Width(c1) == 1 && Width(c2) == 1
    requires a1.Assign? && a2.Assign?
    ensures f.statements ==
      [Switch(Cat([c1]), [SwitchCase("1", [a1])]), Switch(Cat([c2]), [SwitchCase("1", [a2])])]
  {
    LoneIf(c1, [a1]);
    LoneIf(c2, [a2]);
    var first, second := Switch(Cat([c1]), [SwitchCase("1", [a1])]), Switch(Cat([c2]), [SwitchCase("1", [a2])]);
    assert Flushed([c1], [[a1]], None, []) == [first];
    assert Flushed([c2], [[a2]], None, []) == [second];
    assert Flushed([], [], None, []) == [];
    var m := new Module();
    IfBlock(m, c1, a1);
    assert m.statements == [];
    IfBlock(m, c2, a2);
    assert m.statements == [first];
    f := m.Lower();
  }

  /**
   * As written, an `If` nested in an `If` joins the one pending chain: the inner
   * condition becomes branch 0 and the outer one branch 1 of a single
   * selection, and the outer body is empty.
   */
  method NestedIfs(c1: Value, c2: Value, a: Stmt) returns (f: Fragment)
    requires Width(c1) == 1 && Width(c2) == 1 && a.Assign?
    ensures f.statements == [Switch(Cat([c2, c1]), [SwitchCase("-1", [a]), SwitchCase("1-", [])])]
  {
    TwoConditions(c2, c1, [a], []);
    var chain := Switch(Cat([c2, c1]), [SwitchCase("-1", [a]), SwitchCase("1-", [])]);
    assert Flushed([c2, c1], [[a], []], None, []) == [chain];
    assert Flushed([], [], None, []) == [];
    var m := new Module();
    var outer := m.OpenIf(c1);
    assert m.statements == [] && outer.outer == [];
    IfBlock(m, c2, a);
    assert m.statements == [] && m.ifConds == [c2] && m.ifBodies == [[a]];
    m.CloseBranch(outer);
    assert m.ifConds == [c2, c1] && m.ifBodies == [[a], []] && m.statements == [] && m.switchTest == None;
    f := m.Lower();
  }

  /**
   * A signal assigned from "comb" and then from "sync" is refused with a
   * conflict naming both domains, and stays driven from the unclocked domain.
   */
  method CombThenSync(s: Signal, v: Value) returns (err: Option<Error>, f: Fragment)
    ensures err == Some(DriverConflict(s, Some("sync"), None))
    ensures f.drivers == map[s := None]
    ensures f.statements == [Assign([s], v)]
  {
    var m := new Module();
    var comb := m.Domain("comb");
    assert comb.domain == None;
    assert Record(map[], [s], None) == (map[s := None], None);
    err := m.AddStatement([Assign([s], v)], comb.domain, comb.depth, false);
    var sync := m.Domain("sync");
    assert sync.domain == Some("sync") by { assert "sync"[0] != "comb"[0]; }
    assert Record(m.driving, [s], Some("sync")) == (m.driving, Some(DriverConflict(s, Some("sync"), None)));
    err := m.AddStatement([Assign([s], v)], sync.domain, sync.depth, false);
    f := m.Lower();
  }

  /** Assigning a signal again from the same domain is accepted and leaves its driver as it was. */
  method SameDomainTwice(s: Signal, v: Value, w: Value) returns (err: Option<Error>, f: Fragment)
    ensures err == None
    ensures f.drivers == map[s := Some("sync")]
    ensures f.statements == [Assign([s], v), Assign([s], w)]
  {
    var m := new Module();
    var sync := m.Domain("sync");
    assert sync.domain == Some("sync") by { assert "sync"[0] != "comb"[0]; }
    assert Record(map[], [s], Some("sync")) == (map[s := Some("sync")], None);
    err := m.AddStatement([Assign([s], v)], sync.domain, sync.depth, false);
    RecordAgain(m.driving, [s], sync.domain);
    err := m.AddStatement([Assign([s], w)], sync.domain, sync.depth, false);
    f := m.Lower();
  }

  /** A selection statement appended to a domain is refused outside compat mode, and nothing is kept. */
  method SwitchInDomain(t: Value) returns (err: Option<Error>, f: Fragment)
    ensures err == Some(NotAnAssignment(None))
    ensures f.statements == [] && f.drivers == map[]
  {
    var m := new Module();
    var comb := m.Domain("comb");
    err := m.AddStatement([Switch(t, [])], comb.domain, comb.depth, false);
    f := m.Lower();
  }

  /** The cases "0" and "1" collected in that order. */
  lemma TwoPatterns()
    ensures Put([SwitchCase("0", [])], "1", []) == [SwitchCase("0", []), SwitchCase("1", [])]
  {
    var one := [SwitchCase("0", [])];
    assert "1" != "0" by { assert "1"[0] != "0"[0]; }
    assert Patterns(one) == ["0"];
  }

  /** Collecting "0" again over "0" and "1" replaces its body and keeps it first. */
  lemma ReplaceFirstPattern(body: seq<Stmt>)
    ensures Put([SwitchCase("0", []), SwitchCase("1", [])], "0", body) == [SwitchCase("0", body), SwitchCase("1", [])]
  {
    var cases := [SwitchCase("0", []), SwitchCase("1", [])];
    assert cases[0].pattern == "0";
    assert [SwitchCase("0", body)] + cases[1..] == [SwitchCase("0", body), SwitchCase("1", [])];
  }

  /** A `Case` on a different test flushes the pending switch before collecting the new one. */
  method CaseTestChange(t: Value, u: Value) returns (f: Fragment)
    requires Width(t) == 1 && Width(u) == 1 && t != u
    ensures f.statements == [Switch(t, [SwitchCase("0", [])]), Switch(u, [SwitchCase("-", [])])]
  {
    var m := new Module();
    NewTestCase(m, t, "0");
    assert m.statements == [];
    NewTestCase(m, u, "-");
    f := m.Lower();
  }

  /** A `Case` on a pattern already seen replaces that case's body and keeps the case where it stands. */
  method CaseRepeated(t: Value, a: Stmt) returns (f: Fragment)
    requires Width(t) == 1 && a.Assign?
    ensures f.statements == [Switch(t, [SwitchCase("0", [a]), SwitchCase("1", [])])]
  {
    TwoPatterns();
    ReplaceFirstPattern([a]);
    var m := new Module();
    NewTestCase(m, t, "0");
    assert m.statements == [];
    SameTestCase(m, t, "1");
    SameTestCaseWith(m, t, "0", a);
    assert m.switchCases == [SwitchCase("0", [a]), SwitchCase("1", [])];
    f := m.Lower();
  }

  /** A `Case` pattern of the wrong width is refused. */
  method ShortCasePattern(t: Value) returns (r: Result<CaseScope, Error>)
    requires Width(t) == 2
    ensures r == Err(CaseWidthMismatch("1", 2))
  {
    var m := new Module();
    r := m.OpenCase(t, Some("1"));
  }

  /**
   * Three submodules, two named and one not: the fragment holds three children
   * in registration order with their names.
   */
  method ThreeSubmodules(a: Submodule, b: Submodule, c: Submodule) returns (f: Fragment)
    requires a.lowerable && b.lowerable && c.lowerable
    ensures f.subfragments == [SubFragment(a, Some("a")), SubFragment(b, None), SubFragment(c, Some("c"))]
  {
    var m := new Module();
    var err := m.AddSubmodule(a, Some("a"));
    err := m.AddSubmodules([b]);
    err := m.AddSubmodule(c, Some("c"));
    f := m.Lower();
  }

  /** Anything that cannot be lowered is refused as a submodule, and the registry stays as it was. */
  method NotLowerable(a: Submodule, b: Submodule) returns (err: Option<Error>, f: Fragment)
    requires a.lowerable && !b.lowerable
    ensures err == Some(NotASubmodule(b))
    ensures f.subfragments == [SubFragment(a, None)]
  {
    var m := new Module();
    err := m.AddSubmodules([a, b]);
    f := m.Lower();
  }
}
