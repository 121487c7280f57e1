// The decoder itself: methods over an explicit source of randomness, each proved to
// walk the tree that SpeculativeLaw gives a law to.
module SpeculativeDecoder {
  import opened Collections
  import opened Outcomes
  import opened Vectors
  import opened SpeculativeLaw
  import opened SpeculativePosition
  import opened SpeculativeLossless

  // The guard added to every denominator, and the threshold below which a residual counts as empty.
  const EPS: real := 0.0000000001

  // ----- what the law of the decoder is -----

  ghost function Indicator(y: seq<Token>): seq<Token> -> real {
    c => if c == y then 1.0 else 0.0
  }

  // The probability that t ends with the context y.
  ghost function Mass(t: Tree, y: seq<Token>): real {
    Expect(t, Indicator(y))
  }

  // The probability of the continuation ys under the target model alone, token by token.
  ghost function ChainProbability(m: Models, context: seq<Token>, ys: seq<Token>): real
    requires WellFormed(m)
    requires forall j :: 0 <= j < |ys| ==> ys[j] < m.vocab
    decreases |ys|
  {
    if |ys| == 0 then 1.0
    else
      assert IsDistribution(m.target(context), m.vocab);
      Times(m.target(context)[ys[0]], ChainProbability(m, context + [ys[0]], ys[1..]))
  }

  lemma {:induction false} DotIndicator(w: seq<real>, v: seq<real>, x: nat)
    requires |w| == |v| && x < |w|
    requires forall i :: 0 <= i < |w| && i != x ==> v[i] == 0.0
    ensures Dot(w, v) == Times(w[x], v[x])
  {
    hide Times;
    TimesUnit(w[0]);
    if x == 0 {
      DotConstant(w[1..], v[1..], 0.0);
      TimesUnit(Sum(w[1..]));
    } else {
      DotIndicator(w[1..], v[1..], x - 1);
    }
  }

  // Plain decoding never changes the context it starts from.
  lemma {:induction false} PlainExtends(m: Models, context: seq<Token>, remaining: nat, y: seq<Token>)
    requires WellFormed(m) && |context| <= |y| && y[..|context|] != context
    ensures Mass(PlainTree(m, context, remaining), y) == 0.0
    decreases remaining
  {
    if remaining == 0 {
    } else {
      hide Dot, Sum, Times, Indicator;
      var f := Indicator(y);
      PlainUnfold(m, context, remaining, f);
      var v := PlainValues(m, context, remaining - 1, f);
      forall x | 0 <= x < m.vocab ensures v[x] == 0.0 {
        if |context| < |y| {
          assert y[..|context| + 1][..|context|] == y[..|context|];
          PlainExtends(m, context + [x], remaining - 1, y);
        } else {
          PlainGrows(m, context + [x], remaining - 1, y);
        }
      }
      DotConstant(m.target(context), v, 0.0);
      TimesUnit(1.0);
    }
  }

  lemma {:induction false} PlainGrows(m: Models, context: seq<Token>, remaining: nat, y: seq<Token>)
    requires WellFormed(m) && |y| < |context|
    ensures Mass(PlainTree(m, context, remaining), y) == 0.0
    decreases remaining
  {
    if remaining == 0 {
    } else {
      hide Dot, Sum, Times, Indicator;
      var f := Indicator(y);
      PlainUnfold(m, context, remaining, f);
      var v := PlainValues(m, context, remaining - 1, f);
      forall x | 0 <= x < m.vocab ensures v[x] == 0.0 {
        PlainGrows(m, context + [x], remaining - 1, y);
      }
      DotConstant(m.target(context), v, 0.0);
      TimesUnit(1.0);
    }
  }

  // The law of plain decoding is the chain rule.
  lemma {:induction false} PlainLaw(m: Models, context: seq<Token>, ys: seq<Token>)
    requires WellFormed(m) && forall j :: 0 <= j < |ys| ==> ys[j] < m.vocab
    ensures Mass(PlainTree(m, context, |ys|), context + ys) == ChainProbability(m, context, ys)
    decreases |ys|
  {
    if |ys| == 0 {
      assert context + ys == context;
    } else {
      hide Dot, Sum, Times, Indicator;
      var y := context + ys;
      var f := Indicator(y);
      PlainUnfold(m, context, |ys|, f);
      var v := PlainValues(m, context, |ys| - 1, f);
      forall x | 0 <= x < m.vocab && x != ys[0] ensures v[x] == 0.0 {
        assert y[|context|] == ys[0];
        PlainExtends(m, context + [x], |ys| - 1, y);
      }
      assert context + [ys[0]] + ys[1..] == y;
      PlainLaw(m, context + [ys[0]], ys[1..]);
      DotIndicator(m.target(context), v, ys[0]);
    }
  }

  // Main result: speculative decoding is lossless up to the guard. For every draft and target
  // model, prompt, number of draft steps and budget, the probability of each outcome differs from
  // the target's own by at most 2 (vocab + 1) eps per token.
  lemma LossBound(m: Models, eps: real, steps: nat, prompt: seq<Token>, ys: seq<Token>)
    requires WellFormed(m) && steps > 0 && eps >= 0.0
    requires forall j :: 0 <= j < |ys| ==> ys[j] < m.vocab
    ensures Near(Mass(DecodeTree(m, GuardedRule(eps), steps, prompt, |ys|), prompt + ys),
                 ChainProbability(m, prompt, ys), Budget(|ys|, m.vocab, eps, 1.0))
  {
    hide Expect, ChainProbability, Budget;
    var f := Indicator(prompt + ys);
    assert Bounded(f, 1.0);
    DecodeNear(m, eps, steps, prompt, |ys|, f, 1.0);
    PlainLaw(m, prompt, ys);
  }

  lemma NoBudget(tokens: nat, vocab: nat)
    ensures Budget(tokens, vocab, 0.0, 1.0) == 0.0
  {
  }

  // Without the guard it is exactly lossless, for every observation of the outcome.
  lemma Lossless(m: Models, steps: nat, prompt: seq<Token>, budget: nat, f: seq<Token> -> real, bound: real)
    requires WellFormed(m) && steps > 0 && Bounded(f, bound) && bound >= 0.0
    ensures Expect(DecodeTree(m, GuardedRule(0.0), steps, prompt, budget), f) == Expect(PlainTree(m, prompt, budget), f)
  {
    hide Expect;
    DecodeNear(m, 0.0, steps, prompt, budget, f, bound);
  }

  lemma LosslessChain(m: Models, steps: nat, prompt: seq<Token>, ys: seq<Token>)
    requires WellFormed(m) && steps > 0
    requires forall j :: 0 <= j < |ys| ==> ys[j] < m.vocab
    ensures Mass(DecodeTree(m, GuardedRule(0.0), steps, prompt, |ys|), prompt + ys) == ChainProbability(m, prompt, ys)
  {
    hide Mass, ChainProbability, Budget;
    LossBound(m, 0.0, steps, prompt, ys);
    NoBudget(|ys|, m.vocab);
  }

  // ----- the guard is what stands between the code and exactness -----

  ghost predicate ExactAtEveryPosition(eps: real) {
    forall q: seq<real>, p: seq<real> :: IsDistribution(q, |q|) && IsDistribution(p, |q|) ==> Emission(q, p, eps) == q
  }

  lemma ExactWithoutGuard(q: seq<real>, p: seq<real>)
    requires IsDistribution(q, |q|) && IsDistribution(p, |q|)
    ensures Emission(q, p, 0.0) == q
  {
    hide Emission;
    EmissionError(q, p, 0.0);
    var dev := Deviation(q, p, 0.0);
    SumZero(dev);
    forall i | 0 <= i < |q| ensures Emission(q, p, 0.0)[i] == q[i] {
      assert dev[i] == Abs(Emission(q, p, 0.0)[i] - q[i]);
    }
  }

  // The draft always proposes token 0, the target is a fair coin: token 0 is then emitted with
  // probability other than 1/2 as soon as there is a guard.
  lemma GuardDistorts(eps: real)
    requires eps > 0.0
    ensures var q, p := [0.5, 0.5], [1.0, 0.0];
            IsDistribution(q, 2) && IsDistribution(p, 2) && Emission(q, p, eps)[0] != 0.5
  {
    hide Times, Recip, Normalise, Residual, Acceptance;
    var q, p := [0.5, 0.5], [1.0, 0.0];
    var a := Acceptance(0.5, 1.0, eps);
    assert q[1..] == [0.5] && p[1..] == [0.0];
    assert Sum(q) == 1.0 && Sum(p) == 1.0;
    var plus, kept, again := PositivePart(q, p), AcceptedMass(q, p, eps), Resampled(q, p, eps);
    assert plus == [0.0, 0.5] && plus[1..] == [0.5];
    TimesUnit(a);
    TimesUnit(Acceptance(0.5, 0.0, eps));
    assert kept[0] == Times(1.0, Acceptance(0.5, 1.0, eps)) && kept[1] == Times(0.0, Acceptance(0.5, 0.0, eps));
    assert kept == [a, 0.0] && kept[1..] == [0.0];
    assert Sum(kept) == a;
    ResampledIs(q, p, eps);
    CoinAcceptance(eps, a);
    assert ResampledMass(q, p, eps)[0] == Times(again[0], 1.0 - Sum(kept));
    assert Emission(q, p, eps)[0] == kept[0] + ResampledMass(q, p, eps)[0];
    assert Emission(q, p, eps)[0] == a + Times(again[0], 1.0 - a);
    if 0.5 < eps {
      NormaliseDistribution(q);
      TimesSign(0.5, 1.0 - a);
      HalfOf(1.0 - a);
    } else {
      FirstOfZero(plus);
      TimesUnit(1.0 - a);
    }
  }

  lemma CoinAcceptance(eps: real, a: real)
    requires eps > 0.0 && a == Acceptance(0.5, 1.0, eps)
    ensures 0.0 < a < 0.5
  {
    var d := 1.0 + eps;
    var x := 0.5 / d;
    assert x * d == 0.5;
    assert x > 0.0;
    assert x + x * eps == 0.5;
    TimesSign(x, eps);
  }

  lemma HalfOf(x: real)
    ensures Times(0.5, x) == x / 2.0
  {
  }

  lemma FirstOfZero(w: seq<real>)
    requires |w| > 0 && w[0] == 0.0
    ensures Normalise(w)[0] == 0.0
  {
    TimesUnit(Recip(Sum(w)));
  }

  // Exactly when the code is lossless at every position: when there is no guard.
  lemma ExactIffNoGuard(eps: real)
    requires eps >= 0.0
    ensures ExactAtEveryPosition(eps) <==> eps == 0.0
  {
    if eps == 0.0 {
      forall q: seq<real>, p: seq<real> | IsDistribution(q, |q|) && IsDistribution(p, |q|)
        ensures Emission(q, p, eps) == q
      {
        ExactWithoutGuard(q, p);
      }
    } else {
      GuardDistorts(eps);
    }
  }

  // ----- the randomness the code consumes -----

  // A random generator together with the tree of what may still be drawn from it. Every draw must
  // have the weights the tree has at this point, and takes the branch that belongs to its outcome.
  // It also counts the coins that came out as acceptances and as rejections.
  class Rng {
    ghost var plan: Tree
    ghost var accepts: nat
    ghost var rejects: nat

    constructor (ghost t: Tree)
      ensures plan == t && accepts == rejects == 0
    {
      plan, accepts, rejects := t, 0, 0;
    }

    // torch.multinomial(w, num_samples=1)
    method Multinomial(w: seq<real>) returns (x: Token)
      requires NonNegative(w) && Sum(w) > 0.0
      requires plan.Draw? && plan.weights == w && |plan.branches| == |w|
      modifies this`plan
      ensures x < |w| && w[x] > 0.0 && plan == old(plan).branches[x]
    {
      SomePositive(w);
      x :| x < |w| && w[x] > 0.0;
      plan := plan.branches[x];
    }

    // torch.rand_like(alpha) < alpha
    method Accepts(alpha: real) returns (accept: bool)
      requires plan.Flip? && plan.alpha == alpha
      modifies this
      ensures plan == if accept then old(plan).yes else old(plan).no
      ensures accepts == old(accepts) + (if accept then 1 else 0)
      ensures rejects == old(rejects) + (if accept then 0 else 1)
      ensures accept ==> alpha > 0.0
      ensures !accept ==> alpha < 1.0
    {
      var u: real :| 0.0 <= u < 1.0;
      accept := u < alpha;
      plan := if accept then plan.yes else plan.no;
      accepts, rejects := accepts + (if accept then 1 else 0), rejects + (if accept then 0 else 1);
    }
  }

  lemma SomePositive(w: seq<real>)
    requires NonNegative(w) && Sum(w) > 0.0
    ensures exists x: nat :: x < |w| && w[x] > 0.0
  {
    if forall x: nat :: x < |w| ==> w[x] <= 0.0 {
      SumOfZeros(w);
    }
  }

  class DecodeStats {
    var totalDraftTokens: nat
    var acceptedTokens: nat
    var rejectedTokens: nat
    var correctionTokens: nat

    constructor ()
      ensures totalDraftTokens == acceptedTokens == rejectedTokens == correctionTokens == 0
    {
      totalDraftTokens, acceptedTokens, rejectedTokens, correctionTokens := 0, 0, 0, 0;
    }

    // The counts as they follow from the coins: every rejection is corrected.
    ghost predicate Counts(accepts: int, rejects: int)
      reads this
    {
      && acceptedTokens == accepts && rejectedTokens == correctionTokens == rejects
      && totalDraftTokens == accepts + rejects
    }

    method Update(accepted: nat, rejected: nat, corrections: nat)
      modifies this
      ensures totalDraftTokens == old(totalDraftTokens) + accepted + rejected
      ensures acceptedTokens == old(acceptedTokens) + accepted
      ensures rejectedTokens == old(rejectedTokens) + rejected
      ensures correctionTokens == old(correctionTokens) + corrections
    {
      totalDraftTokens := totalDraftTokens + accepted + rejected;
      acceptedTokens := acceptedTokens + accepted;
      rejectedTokens := rejectedTokens + rejected;
      correctionTokens := correctionTokens + corrections;
    }
  }

  // ----- drafting, verifying, decoding -----

  // What the code does: with and without the draft probabilities, the draft model's top_k, and the
  // token that ends the run.
  function CodeRule(claimed: bool, vocab: nat, topK: nat, eos: Option<Token>): Rule {
    (if claimed then GuardedRule(EPS) else UnclaimedRule(vocab, EPS)).(propose := p => TopK(p, topK), eos := eos)
  }

  lemma {:induction false} TopKPositive(p: seq<real>, k: nat)
    requires NonNegative(p) && Sum(p) > 0.0
    ensures NonNegative(TopK(p, k)) && Sum(TopK(p, k)) > 0.0
  {
    SomePositive(p);
    var x: nat :| x < |p| && p[x] > 0.0;
    var i := Largest(p);
    assert p[i] >= p[x];
    assert (set j | 0 <= j < |p| && p[j] > p[i]) == {};
    PositiveSum(TopK(p, k), i);
  }

  function Largest(p: seq<real>): (i: nat)
    requires |p| > 0
    ensures i < |p| && forall j :: 0 <= j < |p| ==> p[j] <= p[i]
  {
    if |p| == 1 then 0
    else
      var i := Largest(p[..|p| - 1]);
      if p[|p| - 1] > p[i] then |p| - 1 else i
  }

  lemma {:induction false} PositiveSum(w: seq<real>, i: nat)
    requires NonNegative(w) && i < |w| && w[i] > 0.0
    ensures Sum(w) > 0.0
  {
    SumNonNegative(w[1..]);
    if i == 0 {
    } else {
      PositiveSum(w[1..], i - 1);
    }
  }

  method GenerateDraft(m: Models, rng: Rng, context: seq<Token>, k: nat, topK: nat,
                       ghost rule: Rule, ghost steps: nat, ghost remaining: nat)
    returns (tokens: seq<Token>, probs: seq<seq<real>>)
    requires WellFormed(m) && steps > 0 && remaining > 0 && k == Smaller(steps, remaining)
    requires forall p: seq<real> :: rule.propose(p) == TopK(p, topK)
    requires rng.plan == DraftTree(m, rule, steps, context, remaining, [], 0)
    modifies rng`plan
    ensures |tokens| == |probs| == k
    ensures forall i :: 0 <= i < k ==> probs[i] == m.draft(context + tokens[..i])
    ensures forall i :: 0 <= i < k ==>
              tokens[i] < |probs[i]| == m.vocab && probs[i][tokens[i]] > 0.0 &&
                  (topK == 0 || Above(probs[i], tokens[i]) < topK)
    ensures rng.plan == VerifyTree(m, rule, steps, context, remaining, tokens, 0)
  {
    hide Sum, NonNegative, TopK, Above;
    tokens, probs := [], [];
    var current := context;
    assert context + tokens == context;
    for i := 0 to k
      invariant |tokens| == |probs| == i
      invariant current == context + tokens
      invariant forall j :: 0 <= j < i ==> probs[j] == m.draft(context + tokens[..j])
      invariant forall j :: 0 <= j < i ==>
                  tokens[j] < |probs[j]| == m.vocab && probs[j][tokens[j]] > 0.0 &&
                      (topK == 0 || Above(probs[j], tokens[j]) < topK)
      invariant rng.plan == DraftTree(m, rule, steps, context, remaining, tokens, 0)
    {
      var p := m.draft(current);
      assert IsDistribution(p, m.vocab);
      var token := Sample(rng, p, topK);
      var before := tokens;
      tokens, probs := tokens + [token], probs + [p];
      current := current + [token];
      assert current == context + tokens;
      assert tokens[..i] == before;
      forall j | 0 <= j < i ensures tokens[..j] == before[..j] {
      }
    }
  }

  // DraftModel.sample
  method Sample(rng: Rng, p: seq<real>, topK: nat) returns (x: Token)
    requires IsDistribution(p, |p|)
    requires rng.plan.Draw? && rng.plan.weights == TopK(p, topK) && |rng.plan.branches| == |p|
    modifies rng`plan
    ensures x < |p| && p[x] > 0.0 && (topK == 0 || Above(p, x) < topK)
    ensures rng.plan == old(rng.plan).branches[x]
  {
    TopKPositive(p, topK);
    x := rng.Multinomial(TopK(p, topK));
  }

  // The rows of one verifier pass over context + drafts that predict the drafts and the bonus token.
  function VerifierRows(m: Models, context: seq<Token>, drafts: seq<Token>): seq<seq<real>> {
    seq(|drafts| + 1, i requires 0 <= i <= |drafts| => m.target(context + drafts[..i]))
  }

  // min(1, q / (p + 1e-10)), or min(1, q * vocab) if p is not given.
  method AcceptanceOf(q: real, p: Option<real>, vocab: nat) returns (alpha: real)
    requires q >= 0.0 && (p.Some? ==> p.value >= 0.0)
    ensures alpha == if p.Some? then Acceptance(q, p.value, EPS) else Min(1.0, Times(q, vocab as real))
  {
    match p
    case Some(mass) =>
      AcceptanceRange(q, mass);
      alpha := Min(1.0, q / (mass + EPS));
    case None =>
      alpha := Min(1.0, Times(q, vocab as real));
  }

  lemma AcceptanceRange(q: real, p: real)
    requires q >= 0.0 && p >= 0.0
    ensures p + EPS > 0.0 && Acceptance(q, p, EPS) == Min(1.0, q / (p + EPS))
  {
  }

  // norm(max(0, q - p)), falling back to q.
  method ResidualWeights(q: seq<real>, p: seq<real>) returns (residual: seq<real>)
    requires IsDistribution(q, |q|) && |p| == |q|
    ensures residual == Residual(q, p, EPS)
    ensures NonNegative(residual) && Sum(residual) > 0.0
  {
    hide Times;
    ResampledIs(q, p, EPS);
    residual := PositivePart(q, p);
    if Sum(residual) < EPS {
      residual := q;
    }
    SumNonNegative(residual);
    residual := Scale(residual, 1.0 / (Sum(residual) + EPS));
  }

  lemma VerifyUnfold(m: Models, rule: Rule, steps: nat, context: seq<Token>, remaining: nat, drafts: seq<Token>, i: nat)
    requires DraftState(m, steps, remaining, drafts) && i < |drafts|
    ensures IsDistribution(m.target(context + drafts[..i]), m.vocab)
    ensures IsDistribution(m.draft(context + drafts[..i]), m.vocab)
    ensures var t := VerifyTree(m, rule, steps, context, remaining, drafts, i);
            var q, p := m.target(context + drafts[..i]), m.draft(context + drafts[..i]);
            && t.Flip? && t.yes == VerifyTree(m, rule, steps, context, remaining, drafts, i + 1)
            && t.alpha == rule.accept(q[drafts[i]], p[drafts[i]])
            && t.no.Draw? && t.no.weights == rule.resample(q, p) && |t.no.branches| == |t.no.weights|
            && forall x :: 0 <= x < |t.no.weights| ==>
                 t.no.branches[x] == EmitTree(m, rule, steps, context, remaining, drafts[..i] + [x])
  {
    hide EmitTree, Sum, NonNegative;
    assert IsDistribution(m.target(context + drafts[..i]), m.vocab) &&
           IsDistribution(m.draft(context + drafts[..i]), m.vocab);
  }

  // One position of the verification, as the code's rule unfolds it.
  lemma PositionUnfold(m: Models, claimed: bool, topK: nat, eos: Option<Token>, steps: nat, context: seq<Token>,
                       remaining: nat,
                       drafts: seq<Token>, i: nat)
    requires DraftState(m, steps, remaining, drafts) && i < |drafts|
    ensures IsDistribution(m.target(context + drafts[..i]), m.vocab)
    ensures IsDistribution(m.draft(context + drafts[..i]), m.vocab)
    ensures var rule := CodeRule(claimed, m.vocab, topK, eos);
            var t := VerifyTree(m, rule, steps, context, remaining, drafts, i);
            var q, p := m.target(context + drafts[..i]), m.draft(context + drafts[..i]);
            && t.Flip? && t.yes == VerifyTree(m, rule, steps, context, remaining, drafts, i + 1)
            && t.alpha == (if claimed then Acceptance(q[drafts[i]], p[drafts[i]], EPS)
                 else Min(1.0, Times(q[drafts[i]], m.vocab as real)))
            && t.no.Draw? && t.no.weights == Residual(q, if claimed then p else Uniform(|q|), EPS)
            && |t.no.branches| == m.vocab
            && forall x :: 0 <= x < m.vocab ==>
                 t.no.branches[x] == EmitTree(m, rule, steps, context, remaining, drafts[..i] + [x])
  {
    hide Acceptance, Residual, Times, EmitTree, VerifyTree, Sum, NonNegative;
    VerifyUnfold(m, CodeRule(claimed, m.vocab, topK, eos), steps, context, remaining, drafts, i);
  }

  lemma BonusUnfold(m: Models, rule: Rule, steps: nat, context: seq<Token>, remaining: nat, drafts: seq<Token>)
    requires DraftState(m, steps, remaining, drafts)
    ensures IsDistribution(m.target(context + drafts), m.vocab)
    ensures var t := VerifyTree(m, rule, steps, context, remaining, drafts, |drafts|);
            && t.Draw? && t.weights == m.target(context + drafts) && |t.branches| == m.vocab
            && forall x :: 0 <= x < m.vocab ==>
                 t.branches[x] == EmitTree(m, rule, steps, context, remaining, drafts + [x])
  {
    hide EmitTree, Sum, NonNegative;
    assert drafts[..|drafts|] == drafts;
    assert IsDistribution(m.target(context + drafts), m.vocab);
  }

  lemma InRangeEntries(q: seq<real>, p: seq<real>, x: Token)
    requires NonNegative(q) && NonNegative(p) && x < |q| == |p|
    ensures q[x] >= 0.0 && p[x] >= 0.0
  {
  }

  method VerifyAndAccept(m: Models, rng: Rng, drafts: seq<Token>, targetProbs: seq<seq<real>>,
                         draftProbs: Option<seq<seq<real>>>,
                         ghost topK: nat, ghost eos: Option<Token>, ghost context: seq<Token>, ghost steps: nat,
                             ghost remaining: nat)
    returns (collected: seq<Token>, accepted: nat, rejected: nat, corrections: nat)
    requires DraftState(m, steps, remaining, drafts)
    requires targetProbs == VerifierRows(m, context, drafts)
    requires draftProbs.Some? ==>
               |draftProbs.value| == |drafts| && forall i :: 0 <= i < |drafts| ==>
                   draftProbs.value[i] == m.draft(context + drafts[..i])
    requires rng.plan == VerifyTree(m, CodeRule(draftProbs.Some?, m.vocab, topK, eos), steps, context, remaining,
             drafts, 0)
    modifies rng
    ensures accepted <= |drafts| && |collected| == accepted + 1
    ensures collected[..accepted] == drafts[..accepted] && collected[accepted] < m.vocab
    ensures rejected == corrections == if accepted < |drafts| then 1 else 0
    ensures rng.accepts == old(rng.accepts) + accepted && rng.rejects == old(rng.rejects) + rejected
    ensures rng.plan == EmitTree(m, CodeRule(draftProbs.Some?, m.vocab, topK, eos), steps, context, remaining,
            collected)
  {
    hide Sum, NonNegative, Residual, EmitTree, VerifyTree, Resampled, Acceptance, TopK, CodeRule;
    collected, accepted, rejected, corrections := [], 0, 0, 0;
    for i := 0 to |drafts|
      invariant accepted == i && collected == drafts[..i] && rejected == corrections == 0
      invariant rng.accepts == old(rng.accepts) + i && rng.rejects == old(rng.rejects)
      invariant rng.plan == VerifyTree(m, CodeRule(draftProbs.Some?, m.vocab, topK, eos), steps, context, remaining,
                drafts, i)
    {
      var q, x := targetProbs[i], drafts[i];
      PositionUnfold(m, draftProbs.Some?, topK, eos, steps, context, remaining, drafts, i);
      InRangeEntries(q, m.draft(context + drafts[..i]), x);
      var alpha := AcceptanceOf(q[x], if draftProbs.Some? then Some(draftProbs.value[i][x]) else None, |q|);
      var accept := rng.Accepts(alpha);
      if accept {
        collected, accepted := collected + [x], accepted + 1;
      } else {
        rejected := 1;
        var weights := ResidualWeights(q, if draftProbs.Some? then draftProbs.value[i] else Uniform(|q|));
        var correction := rng.Multinomial(weights);
        collected := collected + [correction];
        corrections := 1;
        return;
      }
    }
    assert drafts[..|drafts|] == drafts;
    var q := targetProbs[|drafts|];
    BonusUnfold(m, CodeRule(draftProbs.Some?, m.vocab, topK, eos), steps, context, remaining, drafts);
    assert NonNegative(q) && Sum(q) > 0.0;
    var bonus := rng.Multinomial(q);
    collected := collected + [bonus];
  }

  // What follows a block.
  ghost function AfterBlock(m: Models, rule: Rule, steps: nat, context: seq<Token>, block: seq<Token>,
                            remaining: nat): Tree
    requires WellFormed(m) && steps > 0
  {
    if Stops(rule.eos, block) then Done(context + block) else DecodeTree(m, rule, steps, context + block, remaining)
  }

  method DecodeSpeculative(m: Models, hasDraft: bool, rng: Rng, prompt: seq<Token>, maxTokens: nat, draftSteps: nat,
                           topK: nat, eos: Option<Token>)
    returns (generated: seq<Token>, stats: DecodeStats, ghost blocks: nat)
    requires WellFormed(m) && draftSteps > 0
    requires rng.plan == if hasDraft then DecodeTree(m, CodeRule(true, m.vocab, topK, eos), draftSteps, prompt,
             maxTokens)
                         else PlainUntil(m, eos, prompt, maxTokens)
    modifies rng
    ensures rng.plan == Done(prompt + generated)
    ensures |generated| == maxTokens || (|generated| < maxTokens && Stops(eos, generated))
    ensures fresh(stats)
    ensures stats.Counts(rng.accepts - old(rng.accepts), rng.rejects - old(rng.rejects))
    ensures stats.acceptedTokens + stats.correctionTokens <= maxTokens
    ensures hasDraft ==> |generated| == Smaller(maxTokens, stats.acceptedTokens + blocks)
    ensures stats.rejectedTokens <= blocks
    ensures !hasDraft ==> stats.totalDraftTokens == 0
  {
    hide PlainUntil, Sum, NonNegative, CodeRule, WellFormed, DecodeTree, AfterBlock;
    blocks := 0;
    stats := new DecodeStats();
    var context := prompt;
    generated := [];
    assert prompt + generated == context;
    if !hasDraft {
      generated := DecodePlain(m, rng, prompt, maxTokens, eos);
      return;
    }
    ghost var rule := CodeRule(true, m.vocab, topK, eos);
    assert rule.eos == eos by {
      RuleEos(true, m.vocab, topK, eos);
    }
    while |generated| < maxTokens
      invariant |generated| <= maxTokens && context == prompt + generated
      invariant fresh(stats)
      invariant stats.Counts(rng.accepts - old(rng.accepts), rng.rejects - old(rng.rejects))
      invariant stats.acceptedTokens + stats.correctionTokens <= |generated|
      invariant |generated| == Smaller(maxTokens, stats.acceptedTokens + blocks)
      invariant stats.rejectedTokens <= blocks
      invariant rng.plan == DecodeTree(m, rule, draftSteps, context, maxTokens - |generated|)
    {
      var block, accepted, rejected, corrections :=
        DecodeBlock(m, rng, context, maxTokens - |generated|, draftSteps, topK, eos);
      stats.Update(accepted, rejected, corrections);
      blocks := blocks + 1;
      AfterBlockIs(m, rule, draftSteps, context, block, maxTokens - |generated| - |block|);
      generated := generated + block;
      context := context + block;
      assert context == prompt + generated;
      if eos.Some? && eos.value in block {
        return;
      }
    }
    NothingLeft(m, rule, draftSteps, context);
  }

  lemma AfterBlockIs(m: Models, rule: Rule, steps: nat, context: seq<Token>, block: seq<Token>, remaining: nat)
    requires WellFormed(m) && steps > 0
    ensures AfterBlock(m, rule, steps, context, block, remaining) ==
            if rule.eos.Some? && rule.eos.value in block then Done(context + block)
            else DecodeTree(m, rule, steps, context + block, remaining)
  {
  }

  lemma NothingLeft(m: Models, rule: Rule, steps: nat, context: seq<Token>)
    requires WellFormed(m) && steps > 0
    ensures DecodeTree(m, rule, steps, context, 0) == Done(context)
  {
  }

  lemma RuleEos(claimed: bool, vocab: nat, topK: nat, eos: Option<Token>)
    ensures CodeRule(claimed, vocab, topK, eos).eos == eos
  {
  }

  // One iteration of the loop: draft, verify, clip to the remaining budget.
  method DecodeBlock(m: Models, rng: Rng, context: seq<Token>, remaining: nat, draftSteps: nat, topK: nat,
                     ghost eos: Option<Token>)
    returns (block: seq<Token>, accepted: nat, rejected: nat, corrections: nat)
    requires WellFormed(m) && draftSteps > 0 && remaining > 0
    requires rng.plan == DecodeTree(m, CodeRule(true, m.vocab, topK, eos), draftSteps, context, remaining)
    modifies rng
    ensures 0 < |block| <= remaining
    ensures rejected == corrections <= 1 && accepted + corrections <= |block|
    ensures |block| == Smaller(remaining, accepted + 1)
    ensures rng.accepts == old(rng.accepts) + accepted && rng.rejects == old(rng.rejects) + rejected
    ensures rng.plan == AfterBlock(m, CodeRule(true, m.vocab, topK, eos), draftSteps, context, block,
            remaining - |block|)
  {
    hide Sum, NonNegative, GuardedRule, UnclaimedRule, TopK, DraftTree, VerifyTree;
    var k := Smaller(draftSteps, remaining);
    ghost var rule := CodeRule(true, m.vocab, topK, eos);
    var drafts, draftProbs := GenerateDraft(m, rng, context, k, topK, rule, draftSteps, remaining);
    var rows := VerifierRows(m, context, drafts);
    block, accepted, rejected, corrections :=
      VerifyAndAccept(m, rng, drafts, rows, Some(draftProbs), topK, eos, context, draftSteps, remaining);
    if |block| > remaining {
      block := block[..remaining];
    } else {
      assert block[..|block|] == block;
    }
  }

  // Without a draft model: one verifier pass per token.
  method DecodePlain(m: Models, rng: Rng, prompt: seq<Token>, maxTokens: nat, eos: Option<Token>)
    returns (generated: seq<Token>)
    requires WellFormed(m) && rng.plan == PlainUntil(m, eos, prompt, maxTokens)
    modifies rng`plan
    ensures rng.plan == Done(prompt + generated)
    ensures |generated| == maxTokens || (|generated| < maxTokens && Stops(eos, generated))
    ensures forall i :: 0 <= i < |generated| - 1 ==> !Stops(eos, [generated[i]])
  {
    hide Sum, NonNegative;
    generated := [];
    var context := prompt;
    assert prompt + generated == context;
    while |generated| < maxTokens
      invariant |generated| <= maxTokens && context == prompt + generated
      invariant forall i :: 0 <= i < |generated| ==> !Stops(eos, [generated[i]])
      invariant rng.plan == PlainUntil(m, eos, context, maxTokens - |generated|)
    {
      var probs := m.target(context);
      assert IsDistribution(probs, m.vocab);
      var token := rng.Multinomial(probs);
      generated := generated + [token];
      context := context + [token];
      assert context == prompt + generated;
      if eos.Some? && token == eos.value {
        assert generated[|generated| - 1] == eos.value;
        return;
      }
    }
  }
}
