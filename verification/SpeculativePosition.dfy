// One verified position of speculative decoding: the law of the token it emits, and
// how far that law is from the target's.
module SpeculativePosition {
  import opened Vectors
  import opened SpeculativeLaw

  // Probability of drafting each token and accepting it.
  function AcceptedMass(q: seq<real>, p: seq<real>, eps: real): (v: seq<real>)
    requires |q| == |p|
    ensures |v| == |q|
  {
    seq(|q|, i requires 0 <= i < |q| => Times(p[i], Acceptance(q[i], p[i], eps)))
  }

  // The law of the token that replaces a rejected draft.
  function Resampled(q: seq<real>, p: seq<real>, eps: real): (v: seq<real>)
    requires |q| == |p|
    ensures |v| == |q|
  {
    Normalise(Residual(q, p, eps))
  }

  // Probability that the draft is rejected and each token resampled in its place.
  function ResampledMass(q: seq<real>, p: seq<real>, eps: real): (v: seq<real>)
    requires |q| == |p|
    ensures |v| == |q|
  {
    Scale(Resampled(q, p, eps), 1.0 - Sum(AcceptedMass(q, p, eps)))
  }

  // The law of the token that one verified position emits.
  function Emission(q: seq<real>, p: seq<real>, eps: real): (v: seq<real>)
    requires |q| == |p|
    ensures |v| == |q|
  {
    seq(|q|, i requires 0 <= i < |q| => AcceptedMass(q, p, eps)[i] + ResampledMass(q, p, eps)[i])
  }

  function Deviation(q: seq<real>, p: seq<real>, eps: real): (v: seq<real>)
    requires |q| == |p|
    ensures |v| == |q|
  {
    seq(|q|, i requires 0 <= i < |q| => Abs(Emission(q, p, eps)[i] - q[i]))
  }

  // How much the guard eps makes draft acceptance fall short of min(p, q).
  function Shortfall(q: seq<real>, p: seq<real>, eps: real): (v: seq<real>)
    requires |q| == |p|
    ensures |v| == |q|
  {
    seq(|q|, i requires 0 <= i < |q| => Min(p[i], q[i]) - Times(p[i], Acceptance(q[i], p[i], eps)))
  }

  // ----- acceptance -----

  // Acceptance without division: certain, or the a with a * (p + eps) == q.
  ghost predicate IsAcceptance(a: real, q: real, p: real, eps: real) {
    if q >= p + eps then a == 1.0
    else 0.0 <= a < 1.0 && Times(a, p + eps) == q
  }

  lemma AcceptanceIs(q: real, p: real, eps: real)
    requires q >= 0.0 && p >= 0.0 && eps >= 0.0
    ensures IsAcceptance(Acceptance(q, p, eps), q, p, eps)
  {
    if p + eps > 0.0 {
      Quotient(q, p + eps);
    }
  }

  lemma Quotient(q: real, d: real)
    requires q >= 0.0 && d > 0.0
    ensures Times(q / d, d) == q && q / d >= 0.0
    ensures q >= d <==> q / d >= 1.0
  {
    var x := q / d;
    assert x * d == q;
    if x >= 1.0 {
      TimesMonotone(1.0, x, d);
    } else {
      TimesSign(1.0 - x, d);
      assert (1.0 - x) * d == d - q;
    }
  }

  // p * acceptance is min(p, q), short of at most eps.
  lemma ShortfallBound(q: real, p: real, eps: real)
    requires q >= 0.0 && p >= 0.0 && eps >= 0.0
    ensures 0.0 <= Min(p, q) - Times(p, Acceptance(q, p, eps)) <= eps
    ensures 0.0 <= Times(p, Acceptance(q, p, eps)) <= p
  {
    hide Times, Acceptance;
    var a := Acceptance(q, p, eps);
    AcceptanceIs(q, p, eps);
    TimesSign(a, p);
    TimesSign(a, eps);
    TimesMonotone(a, 1.0, p);
    TimesMonotone(a, 1.0, eps);
    TimesUnit(p);
    TimesUnit(eps);
    TimesCommutes(a, p);
    TimesPlus(a, p, eps);
  }

  // ----- the masses of one position -----

  ghost predicate Balanced(q: seq<real>, kept: seq<real>, short: seq<real>, plus: seq<real>) {
    && |q| == |kept| == |short| == |plus|
    && forall i :: 0 <= i < |q| ==>
         q[i] == kept[i] + short[i] + plus[i] && kept[i] >= 0.0 && short[i] >= 0.0 && plus[i] >= 0.0
  }

  // Accepted drafts make up q, up to the shortfall and the positive part of q - p.
  lemma MassesBalanced(q: seq<real>, p: seq<real>, eps: real)
    requires |q| == |p| && NonNegative(q) && NonNegative(p) && eps >= 0.0
    ensures Balanced(q, AcceptedMass(q, p, eps), Shortfall(q, p, eps), PositivePart(q, p))
    ensures forall i :: 0 <= i < |q| ==> Shortfall(q, p, eps)[i] <= eps
  {
    hide Times, Acceptance;
    forall i | 0 <= i < |q|
      ensures q[i] == AcceptedMass(q, p, eps)[i] + Shortfall(q, p, eps)[i] + PositivePart(q, p)[i]
      ensures AcceptedMass(q, p, eps)[i] >= 0.0 && 0.0 <= Shortfall(q, p, eps)[i] <= eps
    {
      ShortfallBound(q[i], p[i], eps);
    }
  }

  lemma BalanceSums(q: seq<real>, kept: seq<real>, short: seq<real>, plus: seq<real>)
    requires Balanced(q, kept, short, plus)
    ensures Sum(q) == Sum(kept) + Sum(short) + Sum(plus)
    ensures Sum(kept) >= 0.0 && Sum(short) >= 0.0 && Sum(plus) >= 0.0
  {
    var rest := seq(|q|, i requires 0 <= i < |q| => short[i] + plus[i]);
    SumPlus(q, kept, rest);
    SumPlus(rest, short, plus);
    SumNonNegative(kept);
    SumNonNegative(short);
    SumNonNegative(plus);
  }

  lemma MassSums(q: seq<real>, p: seq<real>, eps: real)
    requires IsDistribution(q, |q|) && IsDistribution(p, |q|) && eps >= 0.0
    ensures 1.0 - Sum(AcceptedMass(q, p, eps)) == Sum(Shortfall(q, p, eps)) + Sum(PositivePart(q, p))
    ensures Sum(AcceptedMass(q, p, eps)) >= 0.0
    ensures 0.0 <= Sum(Shortfall(q, p, eps)) <= Times(|q| as real, eps)
    ensures Sum(PositivePart(q, p)) >= 0.0
  {
    hide Times, AcceptedMass, Shortfall, PositivePart;
    MassesBalanced(q, p, eps);
    BalanceSums(q, AcceptedMass(q, p, eps), Shortfall(q, p, eps), PositivePart(q, p));
    SumAtMost(Shortfall(q, p, eps), eps);
  }

  // torch.multinomial normalises its weights, so the division by the sum plus eps has no effect.
  lemma ResampledIs(q: seq<real>, p: seq<real>, eps: real)
    requires |q| == |p| && NonNegative(q) && eps >= 0.0
    ensures NonNegative(Residual(q, p, eps))
    ensures Resampled(q, p, eps) == Normalise(Chosen(q, p, eps))
    ensures eps > 0.0 && Sum(q) > 0.0 ==> Sum(Residual(q, p, eps)) > 0.0
  {
    hide Times, Recip;
    var w := Chosen(q, p, eps);
    var s := Sum(w);
    SumNonNegative(w);
    if s + eps > 0.0 {
      RecipIs(s + eps);
      NormaliseScale(w, Recip(s + eps));
      ScaleNonNegative(w, Recip(s + eps));
      SumScale(w, Recip(s + eps));
      TimesSign(s, Recip(s + eps));
    } else {
      SumZero(w);
      ZeroWeights(w, Recip(s + eps));
    }
  }

  lemma ZeroWeights(w: seq<real>, c: real)
    requires forall i :: 0 <= i < |w| ==> w[i] == 0.0
    ensures Scale(w, c) == w
  {
    forall i | 0 <= i < |w| ensures Scale(w, c)[i] == w[i] {
      TimesUnit(c);
    }
  }

  // ----- distance of the emitted law from q -----

  function ErrorRate(vocab: nat, eps: real): real {
    Times(2.0 * (vocab as real + 1.0), eps)
  }

  // One verified position emits q, up to an L1 distance of 2 (vocab + 1) eps.
  lemma EmissionError(q: seq<real>, p: seq<real>, eps: real)
    requires IsDistribution(q, |q|) && IsDistribution(p, |q|) && eps >= 0.0
    ensures Sum(Deviation(q, p, eps)) <= ErrorRate(|q|, eps)
  {
    hide AcceptedMass, Shortfall, PositivePart, Deviation, Sum, Times, ErrorRate;
    var z, d := Sum(PositivePart(q, p)), Sum(Shortfall(q, p, eps));
    MassSums(q, p, eps);
    RateIs(|q|, eps);
    if z < eps {
      FallbackError(q, p, eps, d, z);
    } else if z > 0.0 {
      ResidualError(q, p, eps, d, z);
    } else {
      NoResidualError(q, p, eps);
    }
  }

  lemma RateIs(vocab: nat, eps: real)
    ensures ErrorRate(vocab, eps) == 2.0 * Times(vocab as real, eps) + 2.0 * eps
  {
  }

  ghost predicate IsDeviation(dev: seq<real>, q: seq<real>, kept: seq<real>, again: seq<real>) {
    && |dev| == |q| == |kept| == |again|
    && forall i :: 0 <= i < |q| ==> dev[i] == Abs(kept[i] + again[i] - q[i])
  }

  lemma DeviationAtMost(dev: seq<real>, q: seq<real>, kept: seq<real>, short: seq<real>, plus: seq<real>,
                        again: seq<real>)
    requires Balanced(q, kept, short, plus) && IsDeviation(dev, q, kept, again) && NonNegative(again)
    ensures Sum(dev) <= Sum(short) + Sum(plus) + Sum(again)
  {
    var extra := seq(|q|, i requires 0 <= i < |q| => plus[i] + again[i]);
    SumPlus(dev, short, extra);
    SumPlus(extra, plus, again);
  }

  lemma DeviationBeyondPlus(dev: seq<real>, q: seq<real>, kept: seq<real>, short: seq<real>, plus: seq<real>,
                            again: seq<real>, extra: seq<real>)
    requires Balanced(q, kept, short, plus) && IsDeviation(dev, q, kept, again) && NonNegative(extra)
    requires |extra| == |q| && forall i :: 0 <= i < |q| ==> again[i] == plus[i] + extra[i]
    ensures Sum(dev) <= Sum(short) + Sum(extra)
  {
    SumPlus(dev, short, extra);
  }

  lemma DeviationIs(q: seq<real>, p: seq<real>, eps: real)
    requires |q| == |p|
    ensures IsDeviation(Deviation(q, p, eps), q, AcceptedMass(q, p, eps), ResampledMass(q, p, eps))
  {
  }

  // Fallback: the rejected mass d + z is spread as q itself.
  lemma FallbackError(q: seq<real>, p: seq<real>, eps: real, d: real, z: real)
    requires IsDistribution(q, |q|) && IsDistribution(p, |q|) && eps >= 0.0
    requires z == Sum(PositivePart(q, p)) < eps && d == Sum(Shortfall(q, p, eps)) >= 0.0 && z >= 0.0
    requires 1.0 - Sum(AcceptedMass(q, p, eps)) == d + z
    ensures Sum(Deviation(q, p, eps)) <= 2.0 * d + 2.0 * z
  {
    hide Times, Recip, AcceptedMass, Shortfall, PositivePart, Deviation, Residual;
    ResampledIs(q, p, eps);
    NormaliseDistribution(q);
    MassesBalanced(q, p, eps);
    DeviationIs(q, p, eps);
    ScaleNonNegative(q, d + z);
    SumScale(q, d + z);
    TimesUnit(d + z);
    DeviationAtMost(Deviation(q, p, eps), q, AcceptedMass(q, p, eps), Shortfall(q, p, eps),
                    PositivePart(q, p), ResampledMass(q, p, eps));
  }

  // The usual case: the rejected mass d + z is spread as the positive part of q - p, whose sum is z.
  lemma ResidualError(q: seq<real>, p: seq<real>, eps: real, d: real, z: real)
    requires IsDistribution(q, |q|) && IsDistribution(p, |q|) && eps >= 0.0
    requires z == Sum(PositivePart(q, p)) >= eps && d == Sum(Shortfall(q, p, eps)) >= 0.0 && z > 0.0
    requires 1.0 - Sum(AcceptedMass(q, p, eps)) == d + z
    ensures Sum(Deviation(q, p, eps)) <= 2.0 * d
  {
    hide Times, Recip, AcceptedMass, Shortfall, PositivePart, Deviation, Residual;
    ResampledIs(q, p, eps);
    MassesBalanced(q, p, eps);
    DeviationIs(q, p, eps);
    var extra := ShareOfResidual(PositivePart(q, p), ResampledMass(q, p, eps), d, z);
    DeviationBeyondPlus(Deviation(q, p, eps), q, AcceptedMass(q, p, eps), Shortfall(q, p, eps),
                        PositivePart(q, p), ResampledMass(q, p, eps), extra);
  }

  lemma ShareOfResidual(plus: seq<real>, again: seq<real>, d: real, z: real) returns (extra: seq<real>)
    requires NonNegative(plus) && z == Sum(plus) > 0.0 && d >= 0.0
    requires again == Scale(Normalise(plus), d + z)
    ensures |extra| == |plus| && NonNegative(extra) && Sum(extra) == d
    ensures forall i :: 0 <= i < |plus| ==> again[i] == plus[i] + extra[i]
  {
    hide Times, Recip;
    var share := Normalise(plus);
    extra := Scale(share, d);
    NormaliseSum(plus);
    ScaleNonNegative(share, d);
    SumScale(share, d);
    TimesUnit(d);
    forall i | 0 <= i < |plus| ensures again[i] == plus[i] + extra[i] {
      TimesPlus(share[i], d, z);
      RecipIs(z);
      TimesAssociates(plus[i], Recip(z), z);
      TimesCommutes(Recip(z), z);
      TimesUnit(plus[i]);
    }
  }

  // Without guard and without a positive part, p == q and nothing is rejected.
  lemma NoResidualError(q: seq<real>, p: seq<real>, eps: real)
    requires IsDistribution(q, |q|) && IsDistribution(p, |q|) && eps == 0.0
    requires Sum(PositivePart(q, p)) == 0.0
    ensures Sum(Deviation(q, p, eps)) == 0.0 <= ErrorRate(|q|, eps)
  {
    hide Times, AcceptedMass, Shortfall, PositivePart, Resampled;
    MassSums(q, p, eps);
    MassesBalanced(q, p, eps);
    TimesUnit(|q| as real);
    TimesUnit(2.0 * (|q| as real + 1.0));
    SumZero(PositivePart(q, p));
    SumZero(Shortfall(q, p, eps));
    var kept, again := AcceptedMass(q, p, eps), ResampledMass(q, p, eps);
    assert 1.0 - Sum(kept) == 0.0;
    forall i | 0 <= i < |q| ensures Deviation(q, p, eps)[i] == 0.0 {
      TimesUnit(Resampled(q, p, eps)[i]);
      assert again[i] == 0.0;
      assert q[i] == kept[i] + Shortfall(q, p, eps)[i] + PositivePart(q, p)[i];
    }
    SumOfZeros(Deviation(q, p, eps));
  }
}
