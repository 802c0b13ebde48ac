/**
 * Batch loops over a list of orders.  Each order is handled by a step that
 * sees its state and the number of remote calls made so far; the run from
 * position `i` is the list of the steps' results for the orders from `i`
 * on, each numbered after the calls of the ones before it.  The running
 * totals a loop keeps (the calls issued, the rows written, the orders sent
 * to one list) are folds over the run.
 */
module Runs {
  /** `step` applied, as a function of its own so that proofs need not look inside a step. */
  function At<S, P>(step: (S, nat) -> P, s: S, k: nat): P {
    step(s, k)
  }

  /** The calls (or rows, or any other output) of a list of results, in order. */
  function Concat<P, T>(f: P -> seq<T>, ps: seq<P>): (r: seq<T>)
    ensures |ps| == 0 ==> r == []
  {
    if |ps| == 0 then [] else f(ps[0]) + Concat(f, ps[1..])
  }

  /** How many results satisfy `b`. */
  function Count<P>(b: P -> bool, ps: seq<P>): (n: nat)
    ensures n <= |ps|
  {
    if |ps| == 0 then 0 else (if b(ps[0]) then 1 else 0) + Count(b, ps[1..])
  }

  /** The items whose result satisfies `b`, in their original order. */
  function Pick<O, P>(os: seq<O>, ps: seq<P>, b: P -> bool): (r: seq<O>)
    requires |os| == |ps|
    ensures |ps| == 0 ==> r == []
  {
    if |os| == 0 then [] else (if b(ps[0]) then [os[0]] else []) + Pick(os[1..], ps[1..], b)
  }

  /**
   * The run of `step` over `ss` from position `i`, the first call numbered
   * `k`: each element in turn, numbered after the calls `f` reports for the
   * results before it.
   */
  function RunFrom<S, P, T>(step: (S, nat) -> P, f: P -> seq<T>, ss: seq<S>, i: nat, k: nat): (r: seq<P>)
    requires i <= |ss|
    ensures |r| == |ss| - i
    decreases |ss| - i
  {
    if i == |ss| then []
    else
      var h := At(step, ss[i], k);
      [h] + RunFrom(step, f, ss, i + 1, k + |f(h)|)
  }

  /** The whole run of `step` over `ss`. */
  function Run<S, P, T>(step: (S, nat) -> P, f: P -> seq<T>, ss: seq<S>, k: nat): (r: seq<P>)
    ensures |r| == |ss|
  {
    RunFrom(step, f, ss, 0, k)
  }

  /**
   * Each element is handled on its own: its result is the step applied to
   * it alone, numbered after the calls of the results before it.
   */
  lemma {:induction false} RunFromPointwise<S, P, T>(step: (S, nat) -> P, f: P -> seq<T>, ss: seq<S>,
                                                     i: nat, k: nat, j: nat)
    requires i <= j < |ss|
    ensures var r := RunFrom(step, f, ss, i, k);
      r[j - i] == At(step, ss[j], k + |Concat(f, r[..j - i])|)
    decreases j - i
  {
    var h := At(step, ss[i], k);
    var rest := RunFrom(step, f, ss, i + 1, k + |f(h)|);
    var r := RunFrom(step, f, ss, i, k);
    assert r == [h] + rest;
    if j > i {
      RunFromPointwise(step, f, ss, i + 1, k + |f(h)|, j);
      assert r[..j - i] == [h] + rest[..j - i - 1];
      assert ([h] + rest[..j - i - 1])[1..] == rest[..j - i - 1];
    }
  }

  lemma RunPointwise<S, P, T>(step: (S, nat) -> P, f: P -> seq<T>, ss: seq<S>, k: nat, j: nat)
    requires j < |ss|
    ensures var r := Run(step, f, ss, k);
      r[j] == At(step, ss[j], k + |Concat(f, r[..j])|)
  {
    RunFromPointwise(step, f, ss, 0, k, j);
  }

  /** Steps that agree everywhere give the same run. */
  lemma {:induction false} RunFromCongruent<S, P, T>(step: (S, nat) -> P, other: (S, nat) -> P, f: P -> seq<T>,
                                                     ss: seq<S>, i: nat, k: nat)
    requires i <= |ss|
    requires forall s, k :: At(step, s, k) == At(other, s, k)
    ensures RunFrom(step, f, ss, i, k) == RunFrom(other, f, ss, i, k)
    decreases |ss| - i
  {
    if i < |ss| {
      RunFromCongruent(step, other, f, ss, i + 1, k + |f(At(step, ss[i], k))|);
    }
  }

  /**
   * One turn of a batch loop: the run from `i` is this element's result
   * followed by the run from `i + 1`, numbered after this result's calls.
   */
  lemma RunFromStep<S, P, T>(step: (S, nat) -> P, f: P -> seq<T>, ss: seq<S>, i: nat, k: nat, whole: seq<P>)
    requires i < |ss| && i <= |whole| && whole[i..] == RunFrom(step, f, ss, i, k)
    ensures i < |whole| && whole[i] == At(step, ss[i], k)
    ensures whole[i + 1..] == RunFrom(step, f, ss, i + 1, k + |f(whole[i])|)
  {
    var h := At(step, ss[i], k);
    assert whole[i..] == [h] + RunFrom(step, f, ss, i + 1, k + |f(h)|);
    assert whole[i..][0] == whole[i];
    assert whole[i..][1..] == whole[i + 1..];
  }

  /** One turn on a fold to a list: what is left to add loses its first part. */
  lemma ConcatStep<P, T>(f: P -> seq<T>, ps: seq<P>, i: nat, out: seq<T>)
    requires i < |ps|
    ensures out + Concat(f, ps[i..]) == (out + f(ps[i])) + Concat(f, ps[i + 1..])
  {
    assert ps[i..][0] == ps[i] && ps[i..][1..] == ps[i + 1..];
  }

  /** One turn on a count. */
  lemma CountStep<P>(b: P -> bool, ps: seq<P>, i: nat)
    requires i < |ps|
    ensures Count(b, ps[i..]) == (if b(ps[i]) then 1 else 0) + Count(b, ps[i + 1..])
  {
    assert ps[i..][0] == ps[i] && ps[i..][1..] == ps[i + 1..];
  }

  /** One turn on a picked list. */
  lemma PickStep<O, P>(os: seq<O>, ps: seq<P>, b: P -> bool, i: nat, out: seq<O>)
    requires |os| == |ps| && i < |ps|
    ensures out + Pick(os[i..], ps[i..], b) == (out + (if b(ps[i]) then [os[i]] else [])) + Pick(os[i + 1..], ps[i + 1..], b)
  {
    assert ps[i..][0] == ps[i] && ps[i..][1..] == ps[i + 1..];
    assert os[i..][0] == os[i] && os[i..][1..] == os[i + 1..];
  }

  /** The picked list holds exactly the items whose result satisfies `b`, in order. */
  lemma {:induction false} PickMembers<O, P>(os: seq<O>, ps: seq<P>, b: P -> bool)
    requires |os| == |ps|
    ensures |Pick(os, ps, b)| == Count(b, ps)
    ensures forall o :: o in Pick(os, ps, b) ==> exists j :: 0 <= j < |os| && os[j] == o && b(ps[j])
    ensures forall j :: 0 <= j < |os| && b(ps[j]) ==> os[j] in Pick(os, ps, b)
    decreases |os|
  {
    if |os| > 0 {
      PickMembers(os[1..], ps[1..], b);
      assert forall j :: 1 <= j < |os| ==> os[j] == os[1..][j - 1] && ps[j] == ps[1..][j - 1];
    }
  }

  /** Every item goes to exactly one of two complementary lists. */
  lemma {:induction false} PickComplement<O, P>(os: seq<O>, ps: seq<P>, b: P -> bool, c: P -> bool)
    requires |os| == |ps|
    requires forall p :: b(p) <==> !c(p)
    ensures |Pick(os, ps, b)| + |Pick(os, ps, c)| == |os|
    decreases |os|
  {
    if |os| > 0 {
      PickComplement(os[1..], ps[1..], b, c);
    }
  }

  /** Every call of a list of results was made by one of them. */
  lemma {:induction false} ConcatMember<P, T>(f: P -> seq<T>, ps: seq<P>, x: T)
    requires x in Concat(f, ps)
    ensures exists j :: 0 <= j < |ps| && x in f(ps[j])
    decreases |ps|
  {
    if x !in f(ps[0]) {
      ConcatMember(f, ps[1..], x);
      var j :| 0 <= j < |ps| - 1 && x in f(ps[1..][j]);
      assert ps[1..][j] == ps[j + 1];
    }
  }
}
