// What the guard eps costs: for which models the decoder is lossless all the same.
module SpeculativeGuard {
  import opened Collections
  import opened Vectors
  import opened SpeculativeLaw
  import opened SpeculativePosition
  import opened SpeculativeLossless
  import opened SpeculativeDecoder

  // ----- one position -----

  // If the residual is numerically empty, the accepted mass has to be proportional to the target;
  // otherwise what the guard takes from min(p, q) has to be proportional to the residual.
  ghost predicate Harmless(q: seq<real>, p: seq<real>, eps: real)
    requires |q| == |p|
  {
    if Sum(PositivePart(q, p)) < eps
    then forall i :: 0 <= i < |q| ==> AcceptedMass(q, p, eps)[i] == Times(q[i], Sum(AcceptedMass(q, p, eps)))
    else forall i :: 0 <= i < |q| ==>
           Times(Shortfall(q, p, eps)[i], Sum(PositivePart(q, p))) ==
               Times(PositivePart(q, p)[i], Sum(Shortfall(q, p, eps)))
  }

  lemma SameProduct(s: real, x: real, z: real, d: real)
    requires z > 0.0
    ensures Times(Times(x, Recip(z)), d + z) == x + s <==> Times(s, z) == Times(x, d)
  {
    var r := 1.0 / z;
    assert r * z == 1.0;
    assert x * r * (d + z) == x * r * d + x * (r * z);
    assert x * r * d * z == x * d * (r * z);
    if x * r * d == s {
      assert s * z == x * r * d * z;
    } else if s * z == x * d {
      assert (s - x * r * d) * z == 0.0;
    }
  }

  // The emission at one token, spelled out.
  lemma EmissionAt(q: seq<real>, p: seq<real>, eps: real, i: nat)
    requires IsDistribution(q, |q|) && IsDistribution(p, |q|) && eps > 0.0 && i < |q|
    ensures var plus, short, kept := PositivePart(q, p), Shortfall(q, p, eps), AcceptedMass(q, p, eps);
            && q[i] == kept[i] + short[i] + plus[i]
            && Emission(q, p, eps)[i] == kept[i] +
                 (if Sum(plus) < eps then Times(q[i], 1.0 - Sum(kept))
                  else Times(Times(plus[i], Recip(Sum(plus))), Sum(short) + Sum(plus)))
  {
    hide Times, Recip, Sum, PositivePart, Shortfall, AcceptedMass, Residual;
    MassSums(q, p, eps);
    MassesBalanced(q, p, eps);
    ResampledIs(q, p, eps);
    NormaliseDistribution(q);
    var kept, again := AcceptedMass(q, p, eps), Resampled(q, p, eps);
    assert Emission(q, p, eps)[i] == kept[i] + ResampledMass(q, p, eps)[i];
    assert ResampledMass(q, p, eps)[i] == Times(again[i], 1.0 - Sum(kept));
    if Sum(PositivePart(q, p)) < eps {
      assert again == q;
    } else {
      assert again == Scale(PositivePart(q, p), Recip(Sum(PositivePart(q, p))));
    }
  }

  // Exactly when a guarded position emits the target's law.
  lemma ExactAtIff(q: seq<real>, p: seq<real>, eps: real)
    requires IsDistribution(q, |q|) && IsDistribution(p, |q|) && eps > 0.0
    ensures Emission(q, p, eps) == q <==> Harmless(q, p, eps)
  {
    var plus, short, kept := PositivePart(q, p), Shortfall(q, p, eps), AcceptedMass(q, p, eps);
    forall i | 0 <= i < |q|
      ensures Emission(q, p, eps)[i] == q[i] <==>
              if Sum(plus) < eps then kept[i] == Times(q[i], Sum(kept))
                  else Times(short[i], Sum(plus)) == Times(plus[i], Sum(short))
    {
      EmissionAt(q, p, eps, i);
      hide Sum, PositivePart, Shortfall, AcceptedMass, Emission, Times, Recip;
      if Sum(plus) < eps {
        RestOf(q[i], Sum(kept));
      } else {
        SameProduct(short[i], plus[i], Sum(plus), Sum(short));
      }
    }
    hide Sum, PositivePart, Shortfall, AcceptedMass, Emission, Times;
  }

  lemma RestOf(x: real, k: real)
    ensures Times(x, 1.0 - k) == x - Times(x, k)
  {
  }

  // The guard takes nothing from a token that the draft never proposes, that the target never emits,
  // or whose target mass exceeds the draft's by at least the guard.
  predicate Clear(q: real, p: real, eps: real) {
    p == 0.0 || q == 0.0 || q >= p + eps
  }

  lemma ShortfallIff(q: real, p: real, eps: real)
    requires q >= 0.0 && p >= 0.0 && eps > 0.0
    ensures Min(p, q) - Times(p, Acceptance(q, p, eps)) == 0.0 <==> Clear(q, p, eps)
  {
    hide Times, Acceptance;
    var a := Acceptance(q, p, eps);
    AcceptanceIs(q, p, eps);
    TimesUnit(p);
    TimesCommutes(a, p);
    TimesPlus(a, p, eps);
    TimesSign(a, eps);
    TimesSign(a, p);
    if q < p + eps && a > 0.0 {
      Positive(a, eps);
      Positive(p, 1.0 - a);
      TimesPlus(p, a, 1.0 - a);
    }
  }

  lemma Positive(x: real, y: real)
    requires x >= 0.0 && y > 0.0
    ensures Times(x, y) == 0.0 <==> x == 0.0
    ensures Times(x, y) == Times(y, x) >= 0.0
  {
  }

  ghost predicate AllClear(q: seq<real>, p: seq<real>, eps: real)
    requires |q| == |p|
  {
    forall i :: 0 <= i < |q| ==> Clear(q[i], p[i], eps)
  }

  lemma ClearTakesNothing(q: seq<real>, p: seq<real>, eps: real)
    requires IsDistribution(q, |q|) && IsDistribution(p, |q|) && eps > 0.0 && AllClear(q, p, eps)
    ensures forall i :: 0 <= i < |q| ==> Shortfall(q, p, eps)[i] == 0.0
    ensures Sum(Shortfall(q, p, eps)) == 0.0
  {
    hide Times, Acceptance;
    forall i | 0 <= i < |q| ensures Shortfall(q, p, eps)[i] == 0.0 {
      assert Clear(q[i], p[i], eps);
      ShortfallIff(q[i], p[i], eps);
    }
    SumOfZeros(Shortfall(q, p, eps));
  }

  // Nothing is accepted where the masses do not meet.
  lemma ClearOfEmptyResidual(q: seq<real>, p: seq<real>, eps: real, i: nat)
    requires IsDistribution(q, |q|) && IsDistribution(p, |q|) && eps > 0.0 && AllClear(q, p, eps)
    requires Sum(PositivePart(q, p)) < eps && i < |q|
    ensures AcceptedMass(q, p, eps)[i] == 0.0
  {
    hide Times, Sum, Acceptance;
    assert Clear(q[i], p[i], eps);
    EntryAtMostSum(PositivePart(q, p), i);
    AcceptanceIs(q[i], p[i], eps);
    TimesUnit(p[i]);
    TimesUnit(Acceptance(q[i], p[i], eps));
    if p[i] > 0.0 {
      Positive(Acceptance(q[i], p[i], eps), p[i] + eps);
    }
  }

  lemma {:induction false} EntryAtMostSum(w: seq<real>, i: nat)
    requires NonNegative(w) && i < |w|
    ensures w[i] <= Sum(w)
  {
    SumNonNegative(w[1..]);
    if i == 0 {
    } else {
      EntryAtMostSum(w[1..], i - 1);
    }
  }

  // A position at which the guard takes nothing is exact.
  lemma ClearIsExact(q: seq<real>, p: seq<real>, eps: real)
    requires IsDistribution(q, |q|) && IsDistribution(p, |q|) && eps > 0.0 && AllClear(q, p, eps)
    ensures Emission(q, p, eps) == q
  {
    ClearTakesNothing(q, p, eps);
    forall i | 0 <= i < |q|
      ensures Times(q[i], 0.0) == 0.0 && Times(0.0, Sum(PositivePart(q, p))) == 0.0
      ensures Times(PositivePart(q, p)[i], 0.0) == 0.0
    {
      TimesUnit(q[i]);
      TimesUnit(Sum(PositivePart(q, p)));
      TimesUnit(PositivePart(q, p)[i]);
    }
    if Sum(PositivePart(q, p)) < eps {
      forall i | 0 <= i < |q| ensures AcceptedMass(q, p, eps)[i] == 0.0 {
        ClearOfEmptyResidual(q, p, eps, i);
      }
      SumOfZeros(AcceptedMass(q, p, eps));
    }
    ExactAtIff(q, p, eps);
    hide Times, Sum, PositivePart, Shortfall, AcceptedMass, Emission;
  }

  // Conversely: with a residual that is not numerically empty, a token that the target emits, but with
  // no more than the draft's mass, makes the position inexact.
  lemma OverlapDistorts(q: seq<real>, p: seq<real>, eps: real, i: nat)
    requires IsDistribution(q, |q|) && IsDistribution(p, |q|) && eps > 0.0 && i < |q|
    requires Sum(PositivePart(q, p)) >= eps && 0.0 < q[i] <= p[i]
    ensures Emission(q, p, eps) != q
  {
    hide Times, Sum, Acceptance;
    var plus, short := PositivePart(q, p), Shortfall(q, p, eps);
    ShortfallIff(q[i], p[i], eps);
    ShortfallBound(q[i], p[i], eps);
    assert short[i] > 0.0 && plus[i] == 0.0;
    Positive(short[i], Sum(plus));
    TimesUnit(Sum(short));
    ExactAtIff(q, p, eps);
  }

  // ----- the decoder -----

  // One token of budget: the law of what the decoder appends is the emission of its position.
  lemma OneTokenLaw(m: Models, eps: real, steps: nat, context: seq<Token>, x: Token)
    requires WellFormed(m) && steps > 0 && x < m.vocab
    ensures |m.target(context)| == |m.draft(context)| == m.vocab
    ensures Mass(DecodeTree(m, GuardedRule(eps), steps, context, 1), context + [x]) ==
            Emission(m.target(context), m.draft(context), eps)[x]
  {
    hide Expect, Dot, Sum, Times, Emission, AcceptedMass, Resampled, Blend, NonNegative;
    var f := Indicator(context + [x]);
    var q, p := m.target(context), m.draft(context);
    assert context + [] == context;
    assert IsDistribution(q, m.vocab) && IsDistribution(p, m.vocab);
    var accepted := DraftValues(m, eps, steps, context, 1, [], 1, f);
    var replaced := ReplacedValues(m, eps, steps, context, 1, [], f);
    forall y | 0 <= y < m.vocab ensures accepted[y] == replaced[y] == if y == x then 1.0 else 0.0 {
      assert [] + [y] == [y];
      BonusClipped(m, eps, steps, context, 1, [y], f);
      DoneExpect(context + [y], f);
      assert (context + [y])[|context|] == y && (context + [x])[|context|] == x;
    }
    assert accepted == replaced;
    BlockMixture(m, eps, steps, context, 1, [], f);
    EmissionValue(q, p, eps, accepted);
    DotIndicator(Emission(q, p, eps), accepted, x);
    TimesUnit(Emission(q, p, eps)[x]);
  }

  lemma DoneExpect(context: seq<Token>, f: seq<Token> -> real)
    ensures Expect(Done(context), f) == f(context)
  {
  }

  ghost predicate HarmlessEverywhere(m: Models, eps: real)
    requires WellFormed(m)
  {
    forall c: seq<Token> :: |m.target(c)| == |m.draft(c)| && Harmless(m.target(c), m.draft(c), eps)
  }

  lemma HarmlessIsWithin(m: Models, eps: real, bound: real)
    requires WellFormed(m) && eps > 0.0 && HarmlessEverywhere(m, eps)
    ensures PositionsWithin(m, eps, bound, 0.0)
  {
    hide Dot, Emission, Harmless;
    forall c: seq<Token>, v: seq<real> | |v| == m.vocab && InBound(v, bound) ensures PositionWithin(m, eps, c, v, 0.0) {
      assert IsDistribution(m.draft(c), m.vocab) && IsDistribution(m.target(c), m.vocab);
      assert Harmless(m.target(c), m.draft(c), eps);
      ExactAtIff(m.target(c), m.draft(c), eps);
    }
  }

  // Lossless: every outcome of every run has the probability it has under the target alone.
  ghost predicate LosslessUnder(m: Models, rule: Rule, steps: nat)
    requires WellFormed(m) && steps > 0
  {
    forall prompt: seq<Token>, ys: seq<Token> :: (forall j :: 0 <= j < |ys| ==> ys[j] < m.vocab) ==>
      Mass(DecodeTree(m, rule, steps, prompt, |ys|), prompt + ys) == ChainProbability(m, prompt, ys)
  }

  lemma OneTokenChain(m: Models, context: seq<Token>, x: Token)
    requires WellFormed(m) && x < m.vocab
    ensures |m.target(context)| == m.vocab && ChainProbability(m, context, [x]) == m.target(context)[x]
  {
    assert IsDistribution(m.target(context), m.vocab);
    assert ChainProbability(m, context + [x], [x][1..]) == 1.0;
    TimesUnit(m.target(context)[x]);
  }

  lemma LosslessWhenHarmless(m: Models, eps: real, steps: nat, prompt: seq<Token>, ys: seq<Token>)
    requires WellFormed(m) && steps > 0 && eps > 0.0 && HarmlessEverywhere(m, eps)
    requires forall j :: 0 <= j < |ys| ==> ys[j] < m.vocab
    ensures Mass(DecodeTree(m, GuardedRule(eps), steps, prompt, |ys|), prompt + ys) == ChainProbability(m, prompt, ys)
  {
    var f := Indicator(prompt + ys);
    assert Bounded(f, 1.0);
    HarmlessIsWithin(m, eps, 1.0);
    hide Expect, ChainProbability, HarmlessEverywhere, PositionsWithin, Times, Indicator;
    DecodeWithin(m, eps, steps, prompt, |ys|, f, 1.0, 0.0);
    TimesUnit(|ys| as real);
    PlainLaw(m, prompt, ys);
  }

  // The decoder is lossless exactly for the models whose laws the guard is harmless to in every context.
  lemma LosslessIffHarmless(m: Models, eps: real, steps: nat)
    requires WellFormed(m) && steps > 0 && eps > 0.0
    ensures LosslessUnder(m, GuardedRule(eps), steps) <==> HarmlessEverywhere(m, eps)
  {
    hide Mass, ChainProbability, Harmless, Emission;
    if HarmlessEverywhere(m, eps) {
      forall prompt: seq<Token>, ys: seq<Token> | forall j :: 0 <= j < |ys| ==> ys[j] < m.vocab
        ensures Mass(DecodeTree(m, GuardedRule(eps), steps, prompt, |ys|), prompt + ys) ==
                ChainProbability(m, prompt, ys)
      {
        LosslessWhenHarmless(m, eps, steps, prompt, ys);
      }
    }
    if LosslessUnder(m, GuardedRule(eps), steps) {
      forall c: seq<Token> ensures |m.target(c)| == |m.draft(c)| && Harmless(m.target(c), m.draft(c), eps) {
        assert IsDistribution(m.draft(c), m.vocab) && IsDistribution(m.target(c), m.vocab);
        forall x | 0 <= x < m.vocab ensures Emission(m.target(c), m.draft(c), eps)[x] == m.target(c)[x] {
          OneTokenLaw(m, eps, steps, c, x);
          OneTokenChain(m, c, x);
          assert |[x]| == 1;
          assert Mass(DecodeTree(m, GuardedRule(eps), steps, c, |[x]|), c + [x]) == ChainProbability(m, c, [x]);
        }
        assert Emission(m.target(c), m.draft(c), eps) == m.target(c);
        ExactAtIff(m.target(c), m.draft(c), eps);
      }
    }
  }

  // The draft always proposes token 0, the target is a fair coin.
  function CoinModels(): Models {
    Models(2, (c: seq<Token>) => [1.0, 0.0], (c: seq<Token>) => [0.5, 0.5])
  }

  // With any guard, that decoder emits token 0 with a probability other than the target's.
  lemma GuardDistortsDecoder(eps: real, steps: nat, prompt: seq<Token>)
    requires eps > 0.0 && steps > 0
    ensures WellFormed(CoinModels())
    ensures Mass(DecodeTree(CoinModels(), GuardedRule(eps), steps, prompt, 1), prompt + [0]) !=
            ChainProbability(CoinModels(), prompt, [0])
  {
    GuardDistorts(eps);
    var m := CoinModels();
    hide Mass, ChainProbability, Emission, Sum;
    OneTokenLaw(m, eps, steps, prompt, 0);
    OneTokenChain(m, prompt, 0);
  }

  // For all models the decoder is lossless if and only if there is no guard.
  lemma LosslessIffNoGuard(eps: real)
    requires eps >= 0.0
    ensures (forall m: Models, steps: nat | WellFormed(m) && steps > 0 ::
            LosslessUnder(m, GuardedRule(eps), steps)) <==> eps == 0.0
  {
    hide Mass, ChainProbability;
    if eps == 0.0 {
      forall m: Models, steps: nat, prompt: seq<Token>, ys: seq<Token> |
        WellFormed(m) && steps > 0 && forall j :: 0 <= j < |ys| ==> ys[j] < m.vocab
        ensures Mass(DecodeTree(m, GuardedRule(eps), steps, prompt, |ys|), prompt + ys) ==
                ChainProbability(m, prompt, ys)
      {
        LosslessChain(m, steps, prompt, ys);
      }
    } else {
      GuardDistortsDecoder(eps, 1, []);
      assert |[0]| == 1;
      assert !LosslessUnder(CoinModels(), GuardedRule(eps), 1);
    }
  }
}
