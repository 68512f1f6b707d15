/** The partition loop of `filter_places`, over any check that may raise: each item in
    input order goes to the accepted list or, with its reason, to the rejected one. */
module Partitioning {
  import opened Wrappers

  /** A check's verdict: valid or not, and the reason for a rejection. */
  type Verdict = (bool, string)

  function Partition<T>(xs: seq<T>, check: T -> Result<Verdict>): Result<(seq<T>, seq<(T, string)>)> {
    if |xs| == 0 then Ok(([], []))
    else
      var sofar :- Partition(xs[..|xs| - 1], check);
      var x := xs[|xs| - 1];
      var verdict :- check(x);
      Ok(if verdict.0 then (sofar.0 + [x], sofar.1) else (sofar.0, sofar.1 + [(x, verdict.1)]))
  }

  /** Once a prefix fails, the whole partition is that failure. */
  lemma {:induction false} PartitionErrSticks<T>(xs: seq<T>, check: T -> Result<Verdict>, k: nat)
    requires k <= |xs| && Partition(xs[..k], check).Err?
    ensures Partition(xs, check) == Partition(xs[..k], check)
    decreases |xs| - k
  {
    if k < |xs| {
      assert xs[..k + 1][..k] == xs[..k];
      PartitionErrSticks(xs, check, k + 1);
    } else {
      assert xs[..k] == xs;
    }
  }

  function Firsts<T>(rs: seq<(T, string)>): (ps: seq<T>)
    ensures |ps| == |rs| && forall i :: 0 <= i < |rs| ==> ps[i] == rs[i].0
  {
    seq(|rs|, i requires 0 <= i < |rs| => rs[i].0)
  }

  /** One step: the last item goes to one list, by its verdict. */
  lemma PartitionStep<T>(xs: seq<T>, check: T -> Result<Verdict>)
    requires |xs| > 0 && Partition(xs, check).Ok?
    ensures var x := xs[|xs| - 1];
      && Partition(xs[..|xs| - 1], check).Ok? && check(x).Ok?
      && var sofar := Partition(xs[..|xs| - 1], check).value;
         Partition(xs, check).value
         == if check(x).value.0 then (sofar.0 + [x], sofar.1) else (sofar.0, sofar.1 + [(x, check(x).value.1)])
  {
  }

  /** Every item lands in exactly one of the two lists. */
  lemma {:induction false} PartitionSplits<T>(xs: seq<T>, check: T -> Result<Verdict>)
    requires Partition(xs, check).Ok?
    ensures multiset(Partition(xs, check).value.0) + multiset(Firsts(Partition(xs, check).value.1)) == multiset(xs)
  {
    if |xs| > 0 {
      var init := xs[..|xs| - 1];
      var x := xs[|xs| - 1];
      PartitionSplits(init, check);
      PartitionStep(xs, check);
      var sofar := Partition(init, check).value;
      assert xs == init + [x];
      if !check(x).value.0 {
        assert Firsts(sofar.1 + [(x, check(x).value.1)]) == Firsts(sofar.1) + [x];
      }
    }
  }

  /** The accepted items passed the check and every rejected one failed it with the reason
      it carries; both lists keep input order. */
  lemma {:induction false} PartitionVerdicts<T>(xs: seq<T>, check: T -> Result<Verdict>)
    requires Partition(xs, check).Ok?
    ensures forall x :: x in Partition(xs, check).value.0 ==> check(x).Ok? && check(x).value.0
    ensures var rejected := Partition(xs, check).value.1;
      forall i :: 0 <= i < |rejected| ==> check(rejected[i].0) == Ok((false, rejected[i].1))
  {
    if |xs| > 0 {
      PartitionVerdicts(xs[..|xs| - 1], check);
      PartitionStep(xs, check);
    }
  }

  /** The partition succeeds exactly when the check of every item does. */
  lemma {:induction false} PartitionOkIff<T>(xs: seq<T>, check: T -> Result<Verdict>)
    ensures Partition(xs, check).Ok? <==> forall i :: 0 <= i < |xs| ==> check(xs[i]).Ok?
  {
    if |xs| > 0 {
      var init := xs[..|xs| - 1];
      PartitionOkIff(init, check);
      assert forall i :: 0 <= i < |init| ==> init[i] == xs[i];
    }
  }

  /** Reference definition: the items, in input order, whose verdict is `keep`. */
  function Kept<T>(xs: seq<T>, check: T -> Result<Verdict>, keep: bool): seq<T>
    requires forall i :: 0 <= i < |xs| ==> check(xs[i]).Ok?
  {
    if |xs| == 0 then []
    else
      (if check(xs[0]).value.0 == keep then [xs[0]] else []) + Kept(xs[1..], check, keep)
  }

  lemma {:induction false} KeptSnoc<T>(xs: seq<T>, x: T, check: T -> Result<Verdict>, keep: bool)
    requires forall i :: 0 <= i < |xs| ==> check(xs[i]).Ok?
    requires check(x).Ok?
    ensures forall i :: 0 <= i < |xs + [x]| ==> check((xs + [x])[i]).Ok?
    ensures Kept(xs + [x], check, keep) == Kept(xs, check, keep) + (if check(x).value.0 == keep then [x] else [])
    decreases |xs|
  {
    assert forall i :: 0 <= i < |xs + [x]| ==> (xs + [x])[i] == if i < |xs| then xs[i] else x;
    if |xs| > 0 {
      assert (xs + [x])[1..] == xs[1..] + [x];
      KeptSnoc(xs[1..], x, check, keep);
    } else {
      assert (xs + [x])[1..] == [];
    }
  }

  /** The accepted list is exactly the passing items and the rejected list exactly the
      failing ones, each in input order. */
  lemma {:induction false} PartitionKeepsOrder<T>(xs: seq<T>, check: T -> Result<Verdict>)
    requires Partition(xs, check).Ok?
    ensures forall i :: 0 <= i < |xs| ==> check(xs[i]).Ok?
    ensures Partition(xs, check).value.0 == Kept(xs, check, true)
    ensures Firsts(Partition(xs, check).value.1) == Kept(xs, check, false)
  {
    PartitionOkIff(xs, check);
    if |xs| > 0 {
      var init := xs[..|xs| - 1];
      var x := xs[|xs| - 1];
      PartitionKeepsOrder(init, check);
      PartitionStep(xs, check);
      var sofar := Partition(init, check).value;
      assert xs == init + [x];
      KeptSnoc(init, x, check, true);
      KeptSnoc(init, x, check, false);
      if !check(x).value.0 {
        assert Firsts(sofar.1 + [(x, check(x).value.1)]) == Firsts(sofar.1) + [x];
      }
    }
  }
}
