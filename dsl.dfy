/**
 * The `Module` builder. Statements are appended through domain handles; `If`,
 * `Elif`, `Else` and `Case` blocks are entered and left with explicit Open and
 * Close methods, and what a block keeps between the two is handed back as a
 * scope value. Pending chains are lowered by `Flush` when the depth of an
 * append drops, when a new chain or switch starts, after `Else`, and in `Lower`.
 */
module Dsl {
  import opened Wrappers
  import opened Ast
  import opened Ir
  import opened Errors
  import opened Domains
  import opened CaseMap
  import opened Lowering
  import opened Drivers

  /**
   * What a flush appends to the current statement list: the lowered If chain if
   * a condition is pending, then the pending switch if there is one.
   */
  function Flushed(conds: seq<Value>, bodies: seq<seq<Stmt>>, test: Option<Value>, cases: seq<SwitchCase>): (out: seq<Stmt>)
    ensures |out| == (if conds != [] then 1 else 0) + (if test.Some? then 1 else 0)
    ensures conds != [] ==> out[0] == LowerChain(conds, bodies)
    ensures test.Some? ==> out[|out| - 1] == Switch(test.value, cases)
  {
    (if conds != [] then [LowerChain(conds, bodies)] else []) +
    (if test.Some? then [Switch(test.value, cases)] else [])
  }

  /** With nothing pending a flush appends nothing, so a second flush is a no-op. */
  lemma FlushNothing(cases: seq<SwitchCase>)
    ensures Flushed([], [], None, cases) == []
  {
  }

  /**
   * A pending If chain whose bodies were all recorded flushes into exactly one
   * selection over a test as wide as the chain, ahead of a pending switch.
   */
  lemma FlushedChain(conds: seq<Value>, bodies: seq<seq<Stmt>>, test: Option<Value>, cases: seq<SwitchCase>)
    requires conds != [] && |conds| <= |bodies|
    ensures var out := Flushed(conds, bodies, test, cases);
      && out[0].Switch?
      && Width(out[0].test) == |conds|
      && |out[0].cases| == (if |bodies| == |conds| then |conds| else |conds| + 1)
      && (forall i :: 0 <= i < |out[0].cases| ==> |out[0].cases[i].pattern| == |conds|)
      && Distinct(out[0].cases)
  {
    LowerChainShape(conds, bodies);
  }

  /**
   * Whatever a flush emits is a selection with no pattern twice, provided every
   * recorded condition has its body and the pending switch has distinct patterns.
   */
  lemma FlushedDistinct(conds: seq<Value>, bodies: seq<seq<Stmt>>, test: Option<Value>, cases: seq<SwitchCase>)
    requires |conds| <= |bodies| && Distinct(cases)
    ensures var out := Flushed(conds, bodies, test, cases);
      forall k :: 0 <= k < |out| ==> out[k].Switch? && Distinct(out[k].cases)
  {
    if conds != [] {
      LowerChainShape(conds, bodies);
    }
  }

  /**
   * The loop of `_flush` over `zip(conds + [None], bodies)`: collect each
   * condition, reduced to one bit, into the test, and store each body under the
   * pattern of its step.
   */
  method BuildChain(conds: seq<Value>, bodies: seq<seq<Stmt>>) returns (chain: Stmt)
    ensures chain == LowerChain(conds, bodies)
  {
    var k := |conds|;
    var steps := Steps(k, |bodies|);
    var tests: seq<Value> := [];
    var cases: seq<SwitchCase> := [];
    var i := 0;
    while i < steps
      invariant 0 <= i <= steps
      invariant tests == ChainTests(conds, i)
      invariant cases == ChainCases(conds, bodies, i)
    {
      var pattern;
      ChainTestsStep(conds, i);
      if i < k {
        tests := tests + [Reduce(conds[i])];
        pattern := RJust("1" + Dashes(|tests| - 1), k, '-');
      } else {
        pattern := Dashes(|tests|);
      }
      ChainStep(conds, bodies, i);
      cases := Put(cases, pattern, bodies[i]);
      i := i + 1;
    }
    chain := Switch(Cat(tests), cases);
  }

  /**
   * The pattern a `Case` block stores its body under: the value given, or, when
   * it is omitted, all '-' as wide as the test, which matches anything.
   */
  function CasePattern(test: Value, value: Option<string>): (p: string)
    ensures value.Some? ==> p == value.value
    ensures value.None? ==> |p| == Width(test) && forall j :: 0 <= j < |p| ==> p[j] == '-'
  {
    if value.None? then Dashes(Width(test)) else value.value
  }

  /** What an `If` or `Elif` block keeps while its body runs: its condition and the enclosing list. */
  datatype BranchScope = BranchScope(cond: Value, outer: seq<Stmt>)

  /** What an `Else` block keeps while its body runs: the enclosing list. */
  datatype ElseScope = ElseScope(outer: seq<Stmt>)

  /**
   * What a `Case` block keeps while its body runs: the pattern, the depth its
   * own domain proxy appends at, and the enclosing list.
   */
  datatype CaseScope = CaseScope(pattern: string, depth: int, outer: seq<Stmt>)
  {
    /** `case.d[name]` (or `case.d.<name>` for a domain name): appends inside a `Case` block are made at the block's own depth. */
    function Domain(name: string): Handle
    {
      HandleOf(depth, name)
    }
  }

  /** How many leading submodules of `subs` have `get_fragment`. */
  function LowerablePrefix(subs: seq<Submodule>): (n: nat)
    ensures n <= |subs|
    ensures forall i :: 0 <= i < n ==> subs[i].lowerable
    ensures n < |subs| ==> !subs[n].lowerable
  {
    if subs == [] || !subs[0].lowerable then 0 else 1 + LowerablePrefix(subs[1..])
  }

  /** The child fragments of the registered submodules, in registration order. */
  function SubFragments(subs: seq<(Submodule, Option<string>)>): (r: seq<SubFragment>)
    ensures |r| == |subs|
    ensures forall i :: 0 <= i < |subs| ==> r[i] == SubFragment(subs[i].0, subs[i].1)
  {
    if subs == [] then [] else [SubFragment(subs[0].0, subs[0].1)] + SubFragments(subs[1..])
  }

  class Module {
    /** Registered submodules with their optional names, in registration order. */
    var submodules: seq<(Submodule, Option<string>)>
    /** The domain each signal assigned so far is driven from. */
    var driving: map<Signal, Domain>
    /** The statement list of the block being described. */
    var statements: seq<Stmt>
    /** The depth of the last append. */
    var stmtDepth: int
    /** The conditions of the pending If chain. */
    var ifConds: seq<Value>
    /** The bodies of the pending If chain, with the Else body last if there is one. */
    var ifBodies: seq<seq<Stmt>>
    /** The test of the pending switch. */
    var switchTest: Option<Value>
    /** The cases of the pending switch, in insertion order. */
    var switchCases: seq<SwitchCase>
    /** The depth of the module's domain proxy: how many `If`/`Elif`/`Else` blocks are open. */
    var depth: int

    /** Every recorded condition has its body, and no switch pattern occurs twice. */
    ghost predicate Valid()
      reads this
    {
      |ifConds| <= |ifBodies| && Distinct(switchCases)
    }

    /** No If chain and no switch is pending. */
    ghost predicate NothingPending()
      reads this
    {
      ifConds == [] && ifBodies == [] && switchTest == None && switchCases == []
    }

    constructor ()
      ensures Valid() && NothingPending()
      ensures submodules == [] && driving == map[] && statements == []
      ensures stmtDepth == 0 && depth == 0
    {
      submodules := [];
      driving := map[];
      statements := [];
      stmtDepth := 0;
      ifConds := [];
      ifBodies := [];
      switchTest := None;
      switchCases := [];
      depth := 0;
    }

    /** `m.d[name]` (or `m.d.<name>` for a domain name): a handle appending into that domain at the module's depth. */
    function Domain(name: string): (h: Handle)
      reads this
    {
      HandleOf(depth, name)
    }

    /** `_flush`: lower what is pending onto the current statement list, and clear it. */
    method Flush()
      requires Valid()
      modifies this
      ensures Valid() && NothingPending()
      ensures statements == old(statements) + Flushed(old(ifConds), old(ifBodies), old(switchTest), old(switchCases))
      ensures forall k :: |old(statements)| <= k < |statements| ==> statements[k].Switch? && Distinct(statements[k].cases)
      ensures submodules == old(submodules) && driving == old(driving)
      ensures stmtDepth == old(stmtDepth) && depth == old(depth)
    {
      FlushedDistinct(ifConds, ifBodies, switchTest, switchCases);
      if ifConds != [] {
        var chain := BuildChain(ifConds, ifBodies);
        statements := statements + [chain];
      }
      if switchTest.Some? {
        statements := statements + [Switch(switchTest.value, switchCases)];
      }
      ifConds := [];
      ifBodies := [];
      switchTest := None;
      switchCases := [];
    }

    /**
     * `_add_statement`: append `assigns` to the domain `cd` at depth `atDepth`.
     * A drop in depth first flushes; the batch then goes through as `AddAll`
     * says, and stops at the first statement it refuses.
     */
    method AddStatement(assigns: seq<Stmt>, cd: Domain, atDepth: int, compat: bool) returns (err: Option<Error>)
      requires Valid()
      modifies this
      ensures Valid()
      ensures atDepth < old(stmtDepth) ==> NothingPending()
      ensures atDepth >= old(stmtDepth) ==>
        ifConds == old(ifConds) && ifBodies == old(ifBodies) &&
        switchTest == old(switchTest) && switchCases == old(switchCases)
      ensures statements == old(statements) +
        (if atDepth < old(stmtDepth) then Flushed(old(ifConds), old(ifBodies), old(switchTest), old(switchCases)) else []) +
        AddAll(old(driving), assigns, cd, compat).accepted
      ensures driving == AddAll(old(driving), assigns, cd, compat).driving
      ensures err == AddAll(old(driving), assigns, cd, compat).error
      ensures stmtDepth == atDepth
      ensures submodules == old(submodules) && depth == old(depth)
    {
      if atDepth < stmtDepth {
        Flush();
      }
      stmtDepth := atDepth;
      err := AppendBatch(assigns, cd, compat);
    }

    /**
     * The loop of `_add_statement` over the statements of one batch: each is
     * checked, its signals recorded, and it is appended, up to the first refusal.
     */
    method AppendBatch(assigns: seq<Stmt>, cd: Domain, compat: bool) returns (err: Option<Error>)
      modifies this`statements, this`driving
      ensures statements == old(statements) + AddAll(old(driving), assigns, cd, compat).accepted
      ensures driving == AddAll(old(driving), assigns, cd, compat).driving
      ensures err == AddAll(old(driving), assigns, cd, compat).error
    {
      var i := 0;
      while i < |assigns|
        invariant 0 <= i <= |assigns|
        invariant AddAll(old(driving), assigns, cd, compat) == Prefixed(assigns[..i], AddAll(driving, assigns[i..], cd, compat))
        invariant statements == old(statements) + assigns[..i]
      {
        var assign := assigns[i];
        assert assigns[i..][0] == assign && assigns[i..][1..] == assigns[i + 1..];
        if !compat && !assign.Assign? {
          return Some(NotAnAssignment(cd));
        }
        ghost var before := driving;
        err := RecordDrivers(LhsSignals(assign), cd);
        if err.Some? {
          return;
        }
        ghost var rest := AddAll(driving, assigns[i + 1..], cd, compat);
        assert AddAll(before, assigns[i..], cd, compat) == Prefixed([assign], rest);
        PrefixedTwice(assigns[..i], [assign], rest);
        statements := statements + [assign];
        assert assigns[..i + 1] == assigns[..i] + [assign];
        i := i + 1;
      }
      assert assigns[..i] == assigns;
      err := None;
    }

    /**
     * The walk of `_add_statement` over the signals of one statement: each is
     * recorded as driven from `cd`, up to the first one driven from elsewhere.
     */
    method RecordDrivers(signals: seq<Signal>, cd: Domain) returns (err: Option<Error>)
      modifies this`driving
      ensures (driving, err) == Record(old(driving), signals, cd)
    {
      var j := 0;
      while j < |signals|
        invariant 0 <= j <= |signals|
        invariant Record(old(driving), signals, cd) == Record(driving, signals[j..], cd)
      {
        var signal := signals[j];
        assert signals[j..][1..] == signals[j + 1..];
        if signal !in driving {
          driving := driving[signal := cd];
        } else if driving[signal] != cd {
          return Some(DriverConflict(signal, cd, driving[signal]));
        }
        j := j + 1;
      }
      err := None;
    }

    /** `with m.If(cond):`, entering: flush what is pending, then collect the body in a fresh list one level deeper. */
    method OpenIf(cond: Value) returns (scope: BranchScope)
      requires Valid()
      modifies this
      ensures Valid() && NothingPending()
      ensures scope == BranchScope(cond, old(statements) + Flushed(old(ifConds), old(ifBodies), old(switchTest), old(switchCases)))
      ensures statements == [] && depth == old(depth) + 1
      ensures submodules == old(submodules) && driving == old(driving) && stmtDepth == old(stmtDepth)
    {
      Flush();
      scope := BranchScope(cond, statements);
      statements := [];
      depth := depth + 1;
    }

    /** `with m.Elif(cond):`, entering: refused with no pending condition, otherwise as `If` but without a flush. */
    method OpenElif(cond: Value) returns (r: Result<BranchScope, Error>)
      requires Valid()
      modifies this
      ensures Valid()
      ensures old(ifConds) == [] ==> r == Err(ElifWithoutIf) && statements == old(statements) && depth == old(depth)
      ensures old(ifConds) != [] ==>
        r == Ok(BranchScope(cond, old(statements))) && statements == [] && depth == old(depth) + 1
      ensures ifConds == old(ifConds) && ifBodies == old(ifBodies)
      ensures switchTest == old(switchTest) && switchCases == old(switchCases)
      ensures submodules == old(submodules) && driving == old(driving) && stmtDepth == old(stmtDepth)
    {
      if ifConds == [] {
        return Err(ElifWithoutIf);
      }
      r := Ok(BranchScope(cond, statements));
      statements := [];
      depth := depth + 1;
    }

    /** Leaving an `If` or `Elif` block: record its condition and body, and return to the enclosing list. */
    method CloseBranch(scope: BranchScope)
      requires Valid()
      modifies this
      ensures Valid()
      ensures ifConds == old(ifConds) + [scope.cond] && ifBodies == old(ifBodies) + [old(statements)]
      ensures statements == scope.outer && depth == old(depth) - 1
      ensures switchTest == old(switchTest) && switchCases == old(switchCases)
      ensures submodules == old(submodules) && driving == old(driving) && stmtDepth == old(stmtDepth)
    {
      ifConds := ifConds + [scope.cond];
      ifBodies := ifBodies + [statements];
      depth := depth - 1;
      statements := scope.outer;
    }

    /** `with m.Else():`, entering: refused with no pending condition. */
    method OpenElse() returns (r: Result<ElseScope, Error>)
      requires Valid()
      modifies this
      ensures Valid()
      ensures old(ifConds) == [] ==> r == Err(ElseWithoutIf) && statements == old(statements) && depth == old(depth)
      ensures old(ifConds) != [] ==>
        r == Ok(ElseScope(old(statements))) && statements == [] && depth == old(depth) + 1
      ensures ifConds == old(ifConds) && ifBodies == old(ifBodies)
      ensures switchTest == old(switchTest) && switchCases == old(switchCases)
      ensures submodules == old(submodules) && driving == old(driving) && stmtDepth == old(stmtDepth)
    {
      if ifConds == [] {
        return Err(ElseWithoutIf);
      }
      r := Ok(ElseScope(statements));
      statements := [];
      depth := depth + 1;
    }

    /** Leaving an `Else` block: record its body, return to the enclosing list, and flush the chain. */
    method CloseElse(scope: ElseScope)
      requires Valid()
      modifies this
      ensures Valid() && NothingPending()
      ensures statements == scope.outer +
        Flushed(old(ifConds), old(ifBodies) + [old(statements)], old(switchTest), old(switchCases))
      ensures depth == old(depth) - 1
      ensures submodules == old(submodules) && driving == old(driving) && stmtDepth == old(stmtDepth)
    {
      ifBodies := ifBodies + [statements];
      depth := depth - 1;
      statements := scope.outer;
      Flush();
    }

    /**
     * `with m.Case(test, value):`, entering. A pattern of the wrong width is
     * refused; a test other than the pending one flushes first and becomes the
     * pending test; the body is collected in a fresh list.
     */
    method OpenCase(test: Value, value: Option<string>) returns (r: Result<CaseScope, Error>)
      requires Valid()
      modifies this
      ensures Valid()
      ensures var pattern := CasePattern(test, value);
        |pattern| != Width(test) ==>
          r == Err(CaseWidthMismatch(pattern, Width(test))) &&
          statements == old(statements) && switchTest == old(switchTest) && switchCases == old(switchCases) &&
          ifConds == old(ifConds) && ifBodies == old(ifBodies)
      ensures var pattern := CasePattern(test, value);
        |pattern| == Width(test) ==>
          var flush := old(switchTest) != Some(test);
          && r.Ok? && r.value == CaseScope(pattern, old(stmtDepth) + 1, old(statements) +
                      (if flush then Flushed(old(ifConds), old(ifBodies), old(switchTest), old(switchCases)) else []))
          && statements == [] && switchTest == Some(test)
          && switchCases == (if flush then [] else old(switchCases))
          && ifConds == (if flush then [] else old(ifConds))
          && ifBodies == (if flush then [] else old(ifBodies))
      ensures submodules == old(submodules) && driving == old(driving)
      ensures stmtDepth == old(stmtDepth) && depth == old(depth)
    {
      var caseDepth := stmtDepth + 1;
      var pattern := if value.None? then Dashes(Width(test)) else value.value;
      assert pattern == CasePattern(test, value);
      if |pattern| != Width(test) {
        return Err(CaseWidthMismatch(pattern, Width(test)));
      }
      if switchTest != Some(test) {
        Flush();
        switchTest := Some(test);
      }
      r := Ok(CaseScope(pattern, caseDepth, statements));
      statements := [];
    }

    /** Leaving a `Case` block: store its body under its pattern and return to the enclosing list. */
    method CloseCase(scope: CaseScope)
      requires Valid()
      modifies this`switchCases, this`statements
      ensures Valid()
      ensures switchCases == Put(old(switchCases), scope.pattern, old(statements))
      ensures statements == scope.outer
    {
      var cases := Put(switchCases, scope.pattern, statements);
      PutKeepsDistinct(switchCases, scope.pattern, statements);
      switchCases, statements := cases, scope.outer;
    }

    /** `_add_submodule`: register `sub` under `name`, refusing an object without `get_fragment`. */
    method AddSubmodule(sub: Submodule, name: Option<string>) returns (err: Option<Error>)
      modifies this`submodules
      ensures !sub.lowerable ==> err == Some(NotASubmodule(sub)) && submodules == old(submodules)
      ensures sub.lowerable ==> err == None && submodules == old(submodules) + [(sub, name)]
    {
      if !sub.lowerable {
        return Some(NotASubmodule(sub));
      }
      submodules := submodules + [(sub, name)];
      err := None;
    }

    /** `m.submodules += subs`: register each without a name, stopping at the first refused one. */
    method AddSubmodules(subs: seq<Submodule>) returns (err: Option<Error>)
      modifies this`submodules
      ensures var n := LowerablePrefix(subs);
        && submodules == old(submodules) + seq(n, i requires 0 <= i < n => (subs[i], None))
        && err == if n == |subs| then None else Some(NotASubmodule(subs[n]))
    {
      var n := LowerablePrefix(subs);
      var i := 0;
      while i < |subs|
        invariant 0 <= i <= n
        invariant submodules == old(submodules) + seq(i, k requires 0 <= k < i => (subs[k], None))
      {
        err := AddSubmodule(subs[i], None);
        if err.Some? {
          return;
        }
        i := i + 1;
      }
      err := None;
    }

    /**
     * `lower`: flush, then assemble the fragment: the submodules' fragments in
     * registration order with their names, the statements, and one driver entry
     * per signal of the driver map.
     */
    method Lower() returns (f: Fragment)
      requires Valid()
      modifies this
      ensures Valid() && NothingPending()
      ensures statements == old(statements) + Flushed(old(ifConds), old(ifBodies), old(switchTest), old(switchCases))
      ensures forall k :: |old(statements)| <= k < |statements| ==> statements[k].Switch? && Distinct(statements[k].cases)
      ensures f.subfragments == SubFragments(submodules)
      ensures f.statements == statements
      ensures f.drivers == driving
      ensures submodules == old(submodules) && driving == old(driving)
      ensures stmtDepth == old(stmtDepth) && depth == old(depth)
    {
      Flush();
      var subfragments: seq<SubFragment> := [];
      var i := 0;
      while i < |submodules|
        invariant 0 <= i <= |submodules|
        invariant subfragments == SubFragments(submodules[..i])
      {
        assert submodules[..i + 1] == submodules[..i] + [submodules[i]];
        subfragments := subfragments + [SubFragment(submodules[i].0, submodules[i].1)];
        i := i + 1;
      }
      assert submodules[..i] == submodules;
      var drivers: map<Signal, Domain> := map[];
      var todo := driving.Keys;
      while todo != {}
        invariant todo <= driving.Keys
        invariant drivers == map s | s in driving.Keys - todo :: driving[s]
        decreases todo
      {
        var signal :| signal in todo;
        drivers := drivers[signal := driving[signal]];
        todo := todo - {signal};
      }
      assert driving.Keys - todo == driving.Keys;
      f := Fragment(subfragments, statements, drivers);
    }
  }
}
