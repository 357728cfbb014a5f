/**
 * How a pending If/Elif/Else chain is lowered into one selection statement
 * (the first half of `Module._flush`). Branch i gets a pattern with '1' at the
 * position of its condition and '-' everywhere else; the Else body gets the
 * all-'-' pattern. Priority between branches is carried by the order of the
 * cases alone.
 */
module Lowering {
  import opened Ast
  import opened CaseMap

  /** A condition as it enters the test: wider than one bit, it becomes its nonzero test. */
  function Reduce(c: Value): (r: Value)
    ensures Width(r) == 1
    ensures Width(c) == 1 ==> r == c
  {
    if Width(c) != 1 then Bool(c) else c
  }

  /** Reducing twice is reducing once. */
  lemma ReduceIdempotent(c: Value)
    ensures Reduce(Reduce(c)) == Reduce(c)
  {
  }

  /** `"-" * n`. */
  function Dashes(n: nat): (s: string)
    ensures |s| == n
    ensures forall j :: 0 <= j < n ==> s[j] == '-'
  {
    seq(n, _ => '-')
  }

  /** `s.rjust(width, fill)`: `s` padded on the left with `fill` up to `width` characters. */
  function RJust(s: string, width: nat, fill: char): (r: string)
    ensures |r| == if |s| < width then width else |s|
    ensures r[|r| - |s|..] == s
    ensures forall j :: 0 <= j < |r| - |s| ==> r[j] == fill
  {
    if |s| < width then seq(width - |s|, _ => fill) + s else s
  }

  /** The pattern of branch `i` (counting from 0) of a chain of `k` conditions. */
  function BranchPattern(k: nat, i: nat): string
  {
    RJust("1" + Dashes(i), k, '-')
  }

  /**
   * Branch i's pattern has length k and is all '-' except a '1' at the i-th
   * character from the right, which is where the i-th condition sits in the test.
   */
  lemma BranchPatternShape(k: nat, i: nat)
    requires i < k
    ensures |BranchPattern(k, i)| == k
    ensures BranchPattern(k, i)[k - 1 - i] == '1'
    ensures forall j :: 0 <= j < k && j != k - 1 - i ==> BranchPattern(k, i)[j] == '-'
  {
    var p := BranchPattern(k, i);
    var tail := "1" + Dashes(i);
    assert p[k - 1 - i..] == tail;
    forall j | k - 1 - i < j < k
      ensures p[j] == '-'
    {
      assert p[j] == tail[j - (k - 1 - i)];
    }
  }

  /** The pattern stored for step `i` of the lowering loop over `k` conditions. */
  function ChainPattern(k: nat, i: nat): string
  {
    if i < k then BranchPattern(k, i) else Dashes(k)
  }

  /** Two different steps of a chain never store under the same pattern. */
  lemma ChainPatternsDiffer(k: nat, i: nat, j: nat)
    requires i < j <= k
    ensures ChainPattern(k, i) != ChainPattern(k, j)
  {
    BranchPatternShape(k, i);
    if j < k {
      BranchPatternShape(k, j);
    }
    assert ChainPattern(k, i)[k - 1 - i] == '1';
    assert ChainPattern(k, j)[k - 1 - i] == '-';
  }

  /** The number of steps of `zip(conds + [None], bodies)`. */
  function Steps(k: nat, bodies: nat): (n: nat)
    ensures n <= bodies && n <= k + 1
    ensures n == bodies || n == k + 1
  {
    if k + 1 < bodies then k + 1 else bodies
  }

  /** The test conditions collected by the first `n` steps of the lowering loop, reduced. */
  function ChainTests(conds: seq<Value>, n: nat): (tests: seq<Value>)
    ensures |tests| == if n < |conds| then n else |conds|
  {
    var m := if n < |conds| then n else |conds|;
    seq(m, i requires 0 <= i < m => Reduce(conds[i]))
  }

  /** A step of the lowering loop adds the next condition, reduced, to the test while conditions remain. */
  lemma ChainTestsStep(conds: seq<Value>, n: nat)
    ensures ChainTests(conds, n + 1) == ChainTests(conds, n) + (if n < |conds| then [Reduce(conds[n])] else [])
  {
    if n < |conds| {
      assert ChainTests(conds, n + 1)[..n] == ChainTests(conds, n);
    }
  }

  /** The case map after the first `n` steps of the lowering loop: one case per step, in step order. */
  function ChainCases(conds: seq<Value>, bodies: seq<seq<Stmt>>, n: nat): (cases: seq<SwitchCase>)
    requires n <= |bodies|
    ensures |cases| == n
  {
    seq(n, i requires 0 <= i < n => SwitchCase(ChainPattern(|conds|, i), bodies[i]))
  }

  /**
   * One step of the lowering loop stores its body under a pattern no earlier
   * step used, so the body is added last and nothing is overwritten.
   */
  lemma ChainStep(conds: seq<Value>, bodies: seq<seq<Stmt>>, n: nat)
    requires n < |bodies| && n <= |conds|
    ensures Put(ChainCases(conds, bodies, n), ChainPattern(|conds|, n), bodies[n]) == ChainCases(conds, bodies, n + 1)
  {
    var prev := ChainCases(conds, bodies, n);
    var p := ChainPattern(|conds|, n);
    forall i | 0 <= i < n
      ensures Patterns(prev)[i] != p
    {
      ChainPatternsDiffer(|conds|, i, n);
    }
    assert p !in Patterns(prev);
    assert prev + [SwitchCase(p, bodies[n])] == ChainCases(conds, bodies, n + 1);
  }

  /** The selection statement a pending chain is lowered into. */
  function LowerChain(conds: seq<Value>, bodies: seq<seq<Stmt>>): (s: Stmt)
    ensures s.Switch? && |s.cases| == Steps(|conds|, |bodies|)
    ensures forall i :: 0 <= i < |s.cases| ==> s.cases[i].body == bodies[i]
  {
    var n := Steps(|conds|, |bodies|);
    Switch(Cat(ChainTests(conds, n)), ChainCases(conds, bodies, n))
  }

  /**
   * A chain of k conditions whose bodies were all recorded (k bodies, or k + 1
   * with an Else) lowers to a selection over a k-bit test: one case per branch in
   * chain order, with branch i's '1' at the i-th character from the right, then
   * the all-'-' Else case if there is an Else body; every pattern is k long and
   * no two are equal.
   */
  lemma LowerChainShape(conds: seq<Value>, bodies: seq<seq<Stmt>>)
    requires |conds| <= |bodies|
    ensures var s := LowerChain(conds, bodies);
      && s.test == Cat(seq(|conds|, i requires 0 <= i < |conds| => Reduce(conds[i])))
      && Width(s.test) == |conds|
      && |s.cases| == (if |bodies| == |conds| then |conds| else |conds| + 1)
      && (forall i :: 0 <= i < |conds| ==> s.cases[i].body == bodies[i])
      && (forall i :: 0 <= i < |conds| ==>
            |s.cases[i].pattern| == |conds| && s.cases[i].pattern[|conds| - 1 - i] == '1' &&
            forall j :: 0 <= j < |conds| && j != |conds| - 1 - i ==> s.cases[i].pattern[j] == '-')
      && (|bodies| > |conds| ==> s.cases[|conds|] == SwitchCase(Dashes(|conds|), bodies[|conds|]))
      && (forall i :: 0 <= i < |s.cases| ==> |s.cases[i].pattern| == Width(s.test))
      && Distinct(s.cases)
  {
    var k := |conds|;
    var n := Steps(k, |bodies|);
    var s := LowerChain(conds, bodies);
    OneBitPartsWidth(ChainTests(conds, n));
    forall i | 0 <= i < k
      ensures |s.cases[i].pattern| == k && s.cases[i].pattern[k - 1 - i] == '1'
      ensures forall j :: 0 <= j < k && j != k - 1 - i ==> s.cases[i].pattern[j] == '-'
    {
      BranchPatternShape(k, i);
    }
    forall i, j | 0 <= i < j < |s.cases|
      ensures s.cases[i].pattern != s.cases[j].pattern
    {
      ChainPatternsDiffer(k, i, j);
    }
  }

  /**
   * `If(c1)`, `Elif(c2)`, `Else()` over one-bit conditions: the test is c1 and c2
   * side by side, c1 least significant, and the cases are "-1", "1-", "--" in
   * that order.
   */
  lemma TwoConditionsAndElse(c1: Value, c2: Value, b1: seq<Stmt>, b2: seq<Stmt>, b3: seq<Stmt>)
    requires Width(c1) == 1 && Width(c2) == 1
    ensures LowerChain([c1, c2], [b1, b2, b3]) ==
      Switch(Cat([c1, c2]), [SwitchCase("-1", b1), SwitchCase("1-", b2), SwitchCase("--", b3)])
  {
    var conds, bodies := [c1, c2], [b1, b2, b3];
    assert Steps(2, 3) == 3;
    assert ChainTests(conds, 3) == [c1, c2];
    assert ChainPattern(2, 0) == "-1" by { assert Dashes(0) == ""; }
    assert ChainPattern(2, 1) == "1-" by { assert Dashes(1) == "-"; }
    assert ChainPattern(2, 2) == "--";
    var cases := ChainCases(conds, bodies, 3);
    assert cases[0] == SwitchCase("-1", b1);
    assert cases[1] == SwitchCase("1-", b2);
    assert cases[2] == SwitchCase("--", b3);
    assert cases == [SwitchCase("-1", b1), SwitchCase("1-", b2), SwitchCase("--", b3)];
  }

  /** Two conditions and no `Else`: two cases, and nothing is emitted when both are false. */
  lemma TwoConditions(c1: Value, c2: Value, b1: seq<Stmt>, b2: seq<Stmt>)
    requires Width(c1) == 1 && Width(c2) == 1
    ensures LowerChain([c1, c2], [b1, b2]) == Switch(Cat([c1, c2]), [SwitchCase("-1", b1), SwitchCase("1-", b2)])
  {
    assert ChainTests([c1, c2], 2) == [c1, c2];
    assert BranchPattern(2, 0) == "-1";
    assert BranchPattern(2, 1) == "1-";
  }

  /** A lone `If(c)` lowers to the single case "1": nothing is emitted for c false. */
  lemma LoneIf(c: Value, b: seq<Stmt>)
    requires Width(c) == 1
    ensures LowerChain([c], [b]) == Switch(Cat([c]), [SwitchCase("1", b)])
  {
    assert ChainTests([c], 1) == [c];
    assert BranchPattern(1, 0) == "1";
  }
}
