/**
 * The insertion-ordered mapping from pattern to body that the builder keeps for
 * a selection (an `OrderedDict` in the source), as a sequence of cases.
 */
module CaseMap {
  import opened Wrappers
  import opened Ast

  /** No pattern occurs twice. */
  predicate Distinct(cases: seq<SwitchCase>)
  {
    forall i, j :: 0 <= i < j < |cases| ==> cases[i].pattern != cases[j].pattern
  }

  /** The patterns in insertion order. */
  function Patterns(cases: seq<SwitchCase>): (r: seq<string>)
    ensures |r| == |cases|
    ensures forall i :: 0 <= i < |cases| ==> r[i] == cases[i].pattern
  {
    if cases == [] then [] else [cases[0].pattern] + Patterns(cases[1..])
  }

  /** `cases[pattern]`: the body stored under `pattern`, if any. */
  function Get(cases: seq<SwitchCase>, pattern: string): (r: Option<seq<Stmt>>)
    ensures r.None? <==> pattern !in Patterns(cases)
  {
    if cases == [] then None
    else if cases[0].pattern == pattern then Some(cases[0].body)
    else Get(cases[1..], pattern)
  }

  /**
   * `cases[pattern] = body`: a new pattern goes last; an existing one keeps its
   * position and gets the new body.
   */
  function Put(cases: seq<SwitchCase>, pattern: string, body: seq<Stmt>): (r: seq<SwitchCase>)
    ensures Get(r, pattern) == Some(body)
    ensures pattern !in Patterns(cases) ==> r == cases + [SwitchCase(pattern, body)]
  {
    if cases == [] then [SwitchCase(pattern, body)]
    else if cases[0].pattern == pattern then [SwitchCase(pattern, body)] + cases[1..]
    else [cases[0]] + Put(cases[1..], pattern, body)
  }

  /** Storing under one pattern leaves what every other pattern maps to unchanged. */
  lemma {:induction false} PutKeepsOthers(cases: seq<SwitchCase>, pattern: string, body: seq<Stmt>, other: string)
    requires other != pattern
    ensures Get(Put(cases, pattern, body), other) == Get(cases, other)
  {
    if cases != [] && cases[0].pattern != pattern {
      PutKeepsOthers(cases[1..], pattern, body, other);
    }
  }

  /** Re-storing under a pattern already present keeps every pattern in its place. */
  lemma {:induction false} PutExistingKeepsOrder(cases: seq<SwitchCase>, pattern: string, body: seq<Stmt>)
    requires pattern in Patterns(cases)
    ensures Patterns(Put(cases, pattern, body)) == Patterns(cases)
  {
    if cases[0].pattern != pattern {
      assert Patterns(cases) == [cases[0].pattern] + Patterns(cases[1..]);
      PutExistingKeepsOrder(cases[1..], pattern, body);
    }
  }

  /** Storing never introduces a duplicate pattern. */
  lemma {:induction false} PutKeepsDistinct(cases: seq<SwitchCase>, pattern: string, body: seq<Stmt>)
    requires Distinct(cases)
    ensures Distinct(Put(cases, pattern, body))
  {
    if pattern in Patterns(cases) {
      PutExistingKeepsOrder(cases, pattern, body);
      var r := Put(cases, pattern, body);
      assert forall i :: 0 <= i < |r| ==> r[i].pattern == Patterns(r)[i];
    } else {
      var r := Put(cases, pattern, body);
      assert forall i :: 0 <= i < |cases| ==> cases[i].pattern == Patterns(cases)[i];
    }
  }
}
