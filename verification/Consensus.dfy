/** Two-of-three agreement on the rate read from independent RPC providers. */
module Consensus {
  import opened Units

  datatype ReadError = ReadFailed

  datatype ConsensusError = TooFewUrls | Mismatch | TooFewReads

  /** Within 0.01% of the larger value; an overflowing product is a disagreement. */
  predicate RatesAgree(a: Uint128, b: Uint128) {
    var (hi, lo) := if a >= b then (a, b) else (b, a);
    if hi == 0 then lo == 0
    else
      var diff: int := hi - lo;
      var scaled: int := diff * 10_000;
      if scaled > U128_MAX then false else scaled <= hi
  }

  function Abs(a: int): nat {
    if a >= 0 then a else -a
  }

  /** The 128-bit test, its overflow and zero branches included, is the exact inequality. */
  lemma RatesAgreeIsExact(a: Uint128, b: Uint128)
    ensures RatesAgree(a, b) <==> 10_000 * Abs(a - b) <= Max(a, b)
    ensures RatesAgree(a, b) == RatesAgree(b, a)
  {
  }

  /** `answers[i]` is what the provider at the i-th URL answers when it is asked. */
  function RateConsensus(answers: seq<Result<Uint128, ReadError>>): Result<Uint128, ConsensusError> {
    if |answers| < 2 then Err(TooFewUrls)
    else
      match (answers[0], answers[1])
      case (Ok(a), Ok(b)) =>
        if RatesAgree(a, b) then Ok(a)
        else if |answers| < 3 then Err(Mismatch)
        else
          (match answers[2]
           case Err(_) => Err(TooFewReads)
           case Ok(c) => if RatesAgree(a, c) then Ok(a) else if RatesAgree(b, c) then Ok(b) else Err(Mismatch))
      case (Ok(a), Err(_)) =>
        if |answers| < 3 then Err(TooFewReads)
        else
          (match answers[2]
           case Ok(c) => if RatesAgree(a, c) then Ok(a) else Err(Mismatch)
           case Err(_) => Err(TooFewReads))
      case (Err(_), Ok(b)) =>
        if |answers| < 3 then Err(TooFewReads)
        else
          (match answers[2]
           case Ok(c) => if RatesAgree(b, c) then Ok(b) else Err(Mismatch)
           case Err(_) => Err(TooFewReads))
      case (Err(_), Err(_)) => Err(TooFewReads)
  }

  predicate PairAgrees(answers: seq<Result<Uint128, ReadError>>, i: nat, j: nat) {
    && i < |answers| && j < |answers|
    && answers[i].Ok? && answers[j].Ok?
    && RatesAgree(answers[i].value, answers[j].value)
  }

  /** The lower-indexed value of the first agreeing pair, in the order in which pairs are
      preferred, or nothing. */
  function FirstAgreement(answers: seq<Result<Uint128, ReadError>>, pairs: seq<(nat, nat)>): Option<Uint128> {
    if pairs == [] then None
    else if PairAgrees(answers, pairs[0].0, pairs[0].1) then Some(answers[pairs[0].0].value)
    else FirstAgreement(answers, pairs[1..])
  }

  /** The branching code returns a value exactly when some pair among the first three
      providers agrees, and then the lower-indexed value of the first such pair. */
  lemma ConsensusRefinesFirstAgreement(answers: seq<Result<Uint128, ReadError>>)
    ensures var first := FirstAgreement(answers, [(0, 1), (0, 2), (1, 2)]);
      var r := RateConsensus(answers);
      && (r.Ok? <==> first.Some?)
      && (r.Ok? ==> Some(r.value) == first)
      && (|answers| < 2 ==> r == Err(TooFewUrls))
  {
    var p1: (nat, nat), p2: (nat, nat), p3: (nat, nat) := (0, 1), (0, 2), (1, 2);
    assert [p1, p2, p3][1..] == [p2, p3] && [p2, p3][1..] == [p3] && |[p3][1..]| == 0;
    assert FirstAgreement(answers, [p3])
        == if PairAgrees(answers, 1, 2) then Some(answers[1].value) else FirstAgreement(answers, []);
    assert FirstAgreement(answers, [p2, p3])
        == if PairAgrees(answers, 0, 2) then Some(answers[0].value) else FirstAgreement(answers, [p3]);
  }

  /** With at most one faulty provider among the first three, an accepted rate is within
      tolerance of a value that an honest provider reported; and two honest providers
      among them that agree are enough for acceptance. */
  lemma ToleratesOneFault(answers: seq<Result<Uint128, ReadError>>, faulty: nat)
    ensures RateConsensus(answers).Ok? ==>
              exists i: nat :: i < 3 && i != faulty && i < |answers| && answers[i].Ok?
                               && RatesAgree(RateConsensus(answers).value, answers[i].value)
    ensures (exists i: nat, j: nat :: i < j < 3 && i != faulty && j != faulty && PairAgrees(answers, i, j)) ==>
              RateConsensus(answers).Ok?
  {
  }
}
