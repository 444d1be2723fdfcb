/**
 * Every handler of the user controller runs a fixed chain of guards and
 * answers with the error of the FIRST guard that fails.  A chain is modelled
 * as the sequence of its guards in source order; `Verdict` picks the first
 * failure.
 */
module Checks {
  import opened Wrappers

  /** One guard: whether it passes, and the error it reports when it does not. */
  datatype Check<E> = Check(passes: bool, error: E)

  /** Every guard before position `k` passes (stated guard by guard). */
  ghost predicate PassesBefore<E>(cs: seq<Check<E>>, k: nat)
    requires k <= |cs|
  {
    k == 0 || (PassesBefore(cs, k - 1) && cs[k - 1].passes)
  }

  lemma {:induction false} PassesBeforeAll<E>(cs: seq<Check<E>>, k: nat)
    requires k <= |cs|
    ensures PassesBefore(cs, k) <==> forall j :: 0 <= j < k ==> cs[j].passes
  {
    if k > 0 {
      PassesBeforeAll(cs, k - 1);
    }
  }

  /** Position of the first failing guard, or `|cs|` when all of them pass. */
  function FirstFailing<E>(cs: seq<Check<E>>): (k: nat)
    ensures k <= |cs|
    ensures forall j :: 0 <= j < k ==> cs[j].passes
    ensures k < |cs| ==> !cs[k].passes
  {
    if cs == [] then 0
    else if !cs[0].passes then 0
    else 1 + FirstFailing(cs[1..])
  }

  /** The error a chain reports, or None when every guard passes. */
  function Verdict<E>(cs: seq<Check<E>>): Option<E> {
    var k := FirstFailing(cs);
    if k < |cs| then Some(cs[k].error) else None
  }

  /**
   * The chain reports nothing exactly when every guard passes, and otherwise
   * the error of a failing guard all of whose predecessors pass.
   */
  lemma VerdictIsFirstFailure<E>(cs: seq<Check<E>>)
    ensures Verdict(cs).None? <==> forall j :: 0 <= j < |cs| ==> cs[j].passes
    ensures Verdict(cs).Some? ==>
      exists k :: 0 <= k < |cs| && !cs[k].passes && cs[k].error == Verdict(cs).value && PassesBefore(cs, k)
  {
    var k := FirstFailing(cs);
    if k < |cs| {
      PassesBeforeAll(cs, k);
    }
  }

  /** When guard `k` fails and all earlier ones pass, the chain reports guard `k`'s error. */
  lemma VerdictAt<E>(cs: seq<Check<E>>, k: nat)
    requires k < |cs| && !cs[k].passes
    requires PassesBefore(cs, k)
    ensures Verdict(cs) == Some(cs[k].error)
  {
    PassesBeforeAll(cs, k);
    var f := FirstFailing(cs);
    assert f <= k;
    assert k <= f;
  }

  /** Guards that pass one after the other extend the passing prefix. */
  lemma PassesNext<E>(cs: seq<Check<E>>, k: nat)
    requires k < |cs| && PassesBefore(cs, k) && cs[k].passes
    ensures PassesBefore(cs, k + 1)
  {
  }

  /** When every guard passes, the chain reports nothing. */
  lemma VerdictNone<E>(cs: seq<Check<E>>)
    requires PassesBefore(cs, |cs|)
    ensures Verdict(cs) == None
  {
    PassesBeforeAll(cs, |cs|);
  }

  /** Any failing guard makes the whole chain fail. */
  lemma FailingCheckRejects<E>(cs: seq<Check<E>>, k: nat)
    requires k < |cs| && !cs[k].passes
    ensures Verdict(cs).Some?
  {
  }
}
