/**
 * The driver map: each signal may be assigned from one domain only, the first
 * one it is assigned from (the loops of `Module._add_statement`).
 */
module Drivers {
  import opened Wrappers
  import opened Ast
  import opened Errors
  import opened Domains

  /** No signal of `signals` already driven is driven from anywhere but `cd`. */
  predicate Agrees(driving: map<Signal, Domain>, signals: seq<Signal>, cd: Domain)
  {
    forall i :: 0 <= i < |signals| && signals[i] in driving ==> driving[signals[i]] == cd
  }

  /**
   * Record `cd` as the driver of each signal in turn. The first signal already
   * driven from another domain stops the walk with a conflict; the map is left
   * as far as the walk got.
   */
  function Record(driving: map<Signal, Domain>, signals: seq<Signal>, cd: Domain): (r: (map<Signal, Domain>, Option<Error>))
    ensures r.1.Some? ==> r.1.value.DriverConflict? && r.1.value.domain == cd && r.1.value.current != cd
    decreases |signals|
  {
    if signals == [] then (driving, None)
    else
      var s := signals[0];
      if s !in driving then Record(driving[s := cd], signals[1..], cd)
      else if driving[s] != cd then (driving, Some(DriverConflict(s, cd, driving[s])))
      else Record(driving, signals[1..], cd)
  }

  /**
   * The walk fails exactly when a signal is already driven from another domain.
   * Whatever happens, a recorded domain is never changed, and every signal newly
   * recorded is driven from `cd`; on success every signal of the walk is recorded.
   */
  lemma {:induction false} RecordSpec(driving: map<Signal, Domain>, signals: seq<Signal>, cd: Domain)
    ensures var r := Record(driving, signals, cd);
      && (r.1.None? <==> Agrees(driving, signals, cd))
      && (forall s :: s in driving ==> s in r.0 && r.0[s] == driving[s])
      && (forall s :: s in r.0 && s !in driving ==> r.0[s] == cd && s in signals)
      && (r.1.None? ==> forall i :: 0 <= i < |signals| ==> signals[i] in r.0)
    decreases |signals|
  {
    if signals != [] {
      var s := signals[0];
      if s !in driving {
        RecordSpec(driving[s := cd], signals[1..], cd);
        assert Agrees(driving, signals, cd) <==> Agrees(driving[s := cd], signals[1..], cd);
      } else if driving[s] == cd {
        RecordSpec(driving, signals[1..], cd);
        assert Agrees(driving, signals, cd) <==> Agrees(driving, signals[1..], cd);
      } else {
        assert signals[0] == s;
      }
    }
  }

  /**
   * A failed walk names the first signal of `signals` driven from another
   * domain, the domain it was to be driven from, and the domain driving it.
   */
  lemma {:induction false} RecordConflict(driving: map<Signal, Domain>, signals: seq<Signal>, cd: Domain)
    ensures var r := Record(driving, signals, cd);
      r.1.Some? ==> exists i :: 0 <= i < |signals| && Agrees(driving, signals[..i], cd) &&
                               signals[i] in driving && driving[signals[i]] != cd &&
                               r.1.value == DriverConflict(signals[i], cd, driving[signals[i]])
    decreases |signals|
  {
    var r := Record(driving, signals, cd);
    if signals != [] && r.1.Some? {
      var s := signals[0];
      if s in driving && driving[s] != cd {
        assert signals[..0] == [];
      } else {
        var d' := if s !in driving then driving[s := cd] else driving;
        assert r == Record(d', signals[1..], cd);
        RecordConflict(d', signals[1..], cd);
        var i :| 0 <= i < |signals[1..]| && Agrees(d', signals[1..][..i], cd) &&
                 signals[1..][i] in d' && d'[signals[1..][i]] != cd &&
                 r.1.value == DriverConflict(signals[1..][i], cd, d'[signals[1..][i]]);
        assert signals[i + 1] == signals[1..][i];
        var before, later := signals[..i + 1], signals[1..][..i];
        assert before == [s] + later;
        forall j | 0 <= j < |before| && before[j] in driving
          ensures driving[before[j]] == cd
        {
          if j > 0 {
            assert before[j] == later[j - 1];
          }
        }
      }
    }
  }

  /** Assigning only signals already driven from `cd` succeeds and changes nothing. */
  lemma {:induction false} RecordAgain(driving: map<Signal, Domain>, signals: seq<Signal>, cd: Domain)
    requires forall i :: 0 <= i < |signals| ==> signals[i] in driving && driving[signals[i]] == cd
    ensures Record(driving, signals, cd) == (driving, None)
  {
    if signals != [] {
      RecordAgain(driving, signals[1..], cd);
    }
  }

  /** What `_add_statement` makes of a batch of statements: the new map, the statements kept, the error. */
  datatype Batch = Batch(driving: map<Signal, Domain>, accepted: seq<Stmt>, error: Option<Error>)

  /** A batch outcome with the statements `done` kept ahead of its own. */
  function Prefixed(done: seq<Stmt>, b: Batch): Batch
  {
    Batch(b.driving, done + b.accepted, b.error)
  }

  /** Keeping `a` and then `b` ahead of a batch keeps `a + b` ahead of it. */
  lemma PrefixedTwice(a: seq<Stmt>, b: seq<Stmt>, batch: Batch)
    ensures Prefixed(a, Prefixed(b, batch)) == Prefixed(a + b, batch)
  {
    assert a + (b + batch.accepted) == (a + b) + batch.accepted;
  }

  /** Every statement of `assigns` may go through: an assignment, or anything in compat mode. */
  predicate Admissible(assigns: seq<Stmt>, compat: bool)
  {
    compat || forall i :: 0 <= i < |assigns| ==> assigns[i].Assign?
  }

  /** All signals assigned by `assigns`, in order. */
  function AllLhs(assigns: seq<Stmt>): seq<Signal>
  {
    if assigns == [] then [] else LhsSignals(assigns[0]) + AllLhs(assigns[1..])
  }

  /**
   * Statements are taken in order: each must be an assignment (unless in compat
   * mode), its signals are recorded, and it is kept; the first failure stops
   * the batch, keeping the statements before it.
   */
  function AddAll(driving: map<Signal, Domain>, assigns: seq<Stmt>, cd: Domain, compat: bool): (b: Batch)
    ensures |b.accepted| <= |assigns|
    ensures b.error.Some? ==>
      b.error.value == NotAnAssignment(cd) || (b.error.value.DriverConflict? && b.error.value.domain == cd)
    decreases |assigns|
  {
    if assigns == [] then Batch(driving, [], None)
    else if !compat && !assigns[0].Assign? then Batch(driving, [], Some(NotAnAssignment(cd)))
    else
      var (d, err) := Record(driving, LhsSignals(assigns[0]), cd);
      if err.Some? then Batch(d, [], err)
      else Prefixed([assigns[0]], AddAll(d, assigns[1..], cd, compat))
  }

  /**
   * A batch goes through whole exactly when every statement is admissible and no
   * signal it assigns is driven from another domain.
   */
  lemma {:induction false} AddAllSpec(driving: map<Signal, Domain>, assigns: seq<Stmt>, cd: Domain, compat: bool)
    ensures var b := AddAll(driving, assigns, cd, compat);
      && b.accepted <= assigns
      && (b.error.None? <==> Admissible(assigns, compat) && Agrees(driving, AllLhs(assigns), cd))
      && (b.error.None? ==> b.accepted == assigns)
    decreases |assigns|
  {
    if assigns != [] && (compat || assigns[0].Assign?) {
      var (d, err) := Record(driving, LhsSignals(assigns[0]), cd);
      if err.Some? {
        RecordSpec(driving, LhsSignals(assigns[0]), cd);
        AgreesPrefix(driving, LhsSignals(assigns[0]), AllLhs(assigns[1..]), cd);
        assert AllLhs(assigns) == LhsSignals(assigns[0]) + AllLhs(assigns[1..]);
      } else {
        AddAllSpec(d, assigns[1..], cd, compat);
        AddAllStep(driving, d, assigns, cd, compat);
      }
    }
  }

  /**
   * Why statement `a` of a batch is refused with `e`: it is not an assignment
   * outside compat mode, or it is admissible and assigns a signal that `driving`
   * records from a domain other than `cd`, and `e` names that signal and both
   * domains.
   */
  predicate Refused(driving: map<Signal, Domain>, a: Stmt, cd: Domain, compat: bool, e: Error)
  {
    || (e == NotAnAssignment(cd) && !compat && !a.Assign?)
    || (&& e.DriverConflict? && (compat || a.Assign?)
        && e.signal in LhsSignals(a) && e.signal in driving
        && e.domain == cd && e.current == driving[e.signal] && e.current != cd)
  }

  /**
   * A refused batch stops at its first refused statement: the statements kept
   * are exactly those before it, all admissible and agreeing with the drivers,
   * and the error says why that statement is refused.
   */
  lemma {:induction false} AddAllRefusal(driving: map<Signal, Domain>, assigns: seq<Stmt>, cd: Domain, compat: bool)
    ensures var b := AddAll(driving, assigns, cd, compat);
      b.error.Some? ==>
        && |b.accepted| < |assigns| && b.accepted == assigns[..|b.accepted|]
        && Admissible(b.accepted, compat) && Agrees(driving, AllLhs(b.accepted), cd)
        && Refused(driving, assigns[|b.accepted|], cd, compat, b.error.value)
    decreases |assigns|, 1
  {
    var b := AddAll(driving, assigns, cd, compat);
    if assigns != [] && b.error.Some? && (compat || assigns[0].Assign?) {
      var head := LhsSignals(assigns[0]);
      var r := Record(driving, head, cd);
      if r.1.Some? {
        RecordConflict(driving, head, cd);
        assert assigns[..0] == [] && AllLhs([]) == [];
      } else {
        RefusalAfterHead(driving, r.0, assigns, cd, compat);
      }
    }
  }

  /** The step of `AddAllRefusal` past a first statement that goes through. */
  lemma RefusalAfterHead(driving: map<Signal, Domain>, d: map<Signal, Domain>, assigns: seq<Stmt>, cd: Domain, compat: bool)
    requires assigns != [] && (compat || assigns[0].Assign?)
    requires Record(driving, LhsSignals(assigns[0]), cd) == (d, None)
    requires AddAll(driving, assigns, cd, compat).error.Some?
    ensures var b := AddAll(driving, assigns, cd, compat);
      && |b.accepted| < |assigns| && b.accepted == assigns[..|b.accepted|]
      && Admissible(b.accepted, compat) && Agrees(driving, AllLhs(b.accepted), cd)
      && Refused(driving, assigns[|b.accepted|], cd, compat, b.error.value)
    decreases |assigns|, 0
  {
    var b := AddAll(driving, assigns, cd, compat);
    var rest := AddAll(d, assigns[1..], cd, compat);
    assert b == Prefixed([assigns[0]], rest);
    AddAllRefusal(d, assigns[1..], cd, compat);
    var k := |rest.accepted|;
    assert b.accepted == assigns[..k + 1];
    assert assigns[k + 1] == assigns[1..][k];
    AddAllStep(driving, d, b.accepted, cd, compat);
    assert b.accepted[1..] == rest.accepted;
    var e := b.error.value;
    if e.DriverConflict? && e != NotAnAssignment(cd) {
      RecordSpec(driving, LhsSignals(assigns[0]), cd);
      assert e.signal in d && d[e.signal] != cd;
    }
  }

  /**
   * Whatever a batch does, a recorded domain is never changed, and every newly
   * recorded signal is driven from `cd`; a batch that goes through records every
   * signal it assigns.
   */
  lemma {:induction false} AddAllKeepsDrivers(driving: map<Signal, Domain>, assigns: seq<Stmt>, cd: Domain, compat: bool)
    ensures var b := AddAll(driving, assigns, cd, compat);
      && (forall s :: s in driving ==> s in b.driving && b.driving[s] == driving[s])
      && (forall s :: s in b.driving && s !in driving ==> b.driving[s] == cd)
      && (b.error.None? ==> forall i :: 0 <= i < |AllLhs(assigns)| ==> AllLhs(assigns)[i] in b.driving)
      && (forall s :: s in b.driving && s !in driving ==> s in AllLhs(assigns))
    decreases |assigns|
  {
    if assigns != [] && (compat || assigns[0].Assign?) {
      var head := LhsSignals(assigns[0]);
      RecordSpec(driving, head, cd);
      var (d, err) := Record(driving, head, cd);
      assert AllLhs(assigns) == head + AllLhs(assigns[1..]);
      if err.None? {
        AddAllKeepsDrivers(d, assigns[1..], cd, compat);
        var tail := AllLhs(assigns[1..]);
        assert AllLhs(assigns) == head + tail;
        var b := AddAll(driving, assigns, cd, compat);
        if b.error.None? {
          forall i | 0 <= i < |head + tail|
            ensures (head + tail)[i] in b.driving
          {
            if i < |head| {
              assert head[i] in d;
            } else {
              assert (head + tail)[i] == tail[i - |head|];
            }
          }
        }
      }
    }
  }

  /** Agreement on a sequence of signals implies agreement on any prefix of it. */
  lemma AgreesPrefix(driving: map<Signal, Domain>, head: seq<Signal>, tail: seq<Signal>, cd: Domain)
    ensures Agrees(driving, head + tail, cd) ==> Agrees(driving, head, cd)
  {
    if Agrees(driving, head + tail, cd) {
      forall i | 0 <= i < |head| && head[i] in driving
        ensures driving[head[i]] == cd
      {
        assert head[i] == (head + tail)[i];
      }
    }
  }

  /** How admissibility and agreement of a batch split into its first statement and the rest. */
  lemma AddAllStep(driving: map<Signal, Domain>, d: map<Signal, Domain>, assigns: seq<Stmt>, cd: Domain, compat: bool)
    requires assigns != [] && (compat || assigns[0].Assign?)
    requires Record(driving, LhsSignals(assigns[0]), cd) == (d, None)
    ensures Admissible(assigns, compat) <==> Admissible(assigns[1..], compat)
    ensures Agrees(driving, AllLhs(assigns), cd) <==> Agrees(d, AllLhs(assigns[1..]), cd)
  {
    var head, tail := LhsSignals(assigns[0]), AllLhs(assigns[1..]);
    assert AllLhs(assigns) == head + tail;
    AgreesAfterRecord(driving, d, head, tail, cd);
  }

  /** After a successful walk over `head`, agreement on `head + tail` is agreement of the new map on `tail`. */
  lemma AgreesAfterRecord(driving: map<Signal, Domain>, d: map<Signal, Domain>, head: seq<Signal>, tail: seq<Signal>, cd: Domain)
    requires Record(driving, head, cd) == (d, None)
    ensures Agrees(driving, head + tail, cd) <==> Agrees(d, tail, cd)
  {
    RecordSpec(driving, head, cd);
    if Agrees(d, tail, cd) {
      forall i | 0 <= i < |head + tail| && (head + tail)[i] in driving
        ensures driving[(head + tail)[i]] == cd
      {
        if i >= |head| {
          assert (head + tail)[i] == tail[i - |head|];
        }
      }
    }
    if Agrees(driving, head + tail, cd) {
      forall j | 0 <= j < |tail| && tail[j] in d
        ensures d[tail[j]] == cd
      {
        assert tail[j] == (head + tail)[|head| + j];
      }
    }
  }

}
