// Drafts whose probabilities are not the ones they were drawn with: top_k restricts the drawing but not
// the reported probabilities, and without reported probabilities verification assumes uniform ones.
module SpeculativeProposals {
  import opened Collections
  import opened Vectors
  import opened SpeculativeLaw
  import opened SpeculativePosition
  import opened SpeculativeLossless
  import opened SpeculativeDecoder
  import opened SpeculativeGuard
  import opened SpeculativeRules

  // ----- one token of budget, under any rule -----

  // Probability of drawing each token and accepting it.
  function KeptMass(rule: Rule, q: seq<real>, p: seq<real>): (v: seq<real>)
    requires |q| == |p| == |rule.propose(p)|
    ensures |v| == |q|
  {
    seq(|q|, i requires 0 <= i < |q| => Times(Normalise(rule.propose(p))[i], rule.accept(q[i], p[i])))
  }

  ghost predicate Proper(rule: Rule, q: seq<real>, p: seq<real>) {
    && |q| == |p| == |rule.propose(p)| == |rule.resample(q, p)|
    && NonNegative(rule.propose(p)) && Sum(rule.propose(p)) > 0.0
  }

  function OneTokenMass(rule: Rule, q: seq<real>, p: seq<real>, x: Token): real
    requires |q| == |p| == |rule.propose(p)| == |rule.resample(q, p)| && x < |q|
  {
    KeptMass(rule, q, p)[x] + Times(1.0 - Sum(KeptMass(rule, q, p)), Normalise(rule.resample(q, p))[x])
  }

  lemma LastDraft(m: Models, rule: Rule, steps: nat, context: seq<Token>, y: Token, f: seq<Token> -> real)
    requires WellFormed(m) && steps > 0 && y < m.vocab
    ensures Expect(VerifyTree(m, rule, steps, context, 1, [y], 1), f) == f(context + [y])
  {
    var t := VerifyTree(m, rule, steps, context, 1, [y], 1);
    BonusUnfold(m, rule, steps, context, 1, [y]);
    assert IsDistribution(m.target(context + [y]), m.vocab);
    assert NonNegative(t.weights) && Sum(t.weights) == 1.0;
    forall z | 0 <= z < m.vocab ensures Expect(t.branches[z], f) == f(context + [y]) {
      EmitClipped(m, rule, steps, context, 1, [y], z);
    }
    hide VerifyTree, Expect, Sum, NonNegative;
    DrawSettled(t, f, f(context + [y]));
  }

  lemma EmitOne(m: Models, rule: Rule, steps: nat, context: seq<Token>, z: Token)
    requires WellFormed(m) && steps > 0
    ensures EmitTree(m, rule, steps, context, 1, [z]) == Done(context + [z])
  {
    assert [z][..1] == [z];
  }

  lemma IndicatorAt(context: seq<Token>, x: Token, y: Token)
    ensures Expect(Done(context + [y]), Indicator(context + [x])) == Indicator(context + [x])(context + [y])
    ensures Indicator(context + [x])(context + [y]) == if y == x then 1.0 else 0.0
  {
    assert (context + [x])[|context|] == x && (context + [y])[|context|] == y;
  }

  // After a rejection.
  lemma ReplacedOne(m: Models, rule: Rule, steps: nat, context: seq<Token>, x: Token, t: Tree)
    requires WellFormed(m) && steps > 0 && t.Draw? && x < |t.weights| == |t.branches|
    requires forall z :: 0 <= z < |t.weights| ==> t.branches[z] == EmitTree(m, rule, steps, context, 1, [z])
    ensures Expect(t, Indicator(context + [x])) == Normalise(t.weights)[x]
  {
    var f := Indicator(context + [x]);
    var v := Values(t.branches, f);
    forall z | 0 <= z < |t.weights| ensures v[z] == if z == x then 1.0 else 0.0 {
      EmitOne(m, rule, steps, context, z);
      IndicatorAt(context, x, z);
    }
    hide Dot, Normalise, Expect;
    DrawExpect(t, f);
    DotIndicator(Normalise(t.weights), v, x);
    TimesUnit(Normalise(t.weights)[x]);
  }

  lemma OneDraft(m: Models, rule: Rule, steps: nat, context: seq<Token>, x: Token, y: Token)
    requires WellFormed(m) && steps > 0 && x < m.vocab && y < m.vocab
    requires |m.target(context)| == |m.draft(context)| == m.vocab ==
             |rule.resample(m.target(context), m.draft(context))|
    ensures Expect(VerifyTree(m, rule, steps, context, 1, [y], 0), Indicator(context + [x])) ==
            Mix(rule.accept(m.target(context)[y], m.draft(context)[y]), if y == x then 1.0 else 0.0,
                Normalise(rule.resample(m.target(context), m.draft(context)))[x])
  {
    assert [y][..0] == [] && context + [] == context && [] + [x] == [x];
    var t := VerifyTree(m, rule, steps, context, 1, [y], 0);
    VerifyUnfold(m, rule, steps, context, 1, [y], 0);
    hide VerifyTree, EmitTree, Normalise, Mix, WellFormed;
    LastDraft(m, rule, steps, context, y, Indicator(context + [x]));
    IndicatorAt(context, x, y);
    forall z | 0 <= z < |t.no.weights| ensures t.no.branches[z] == EmitTree(m, rule, steps, context, 1, [z]) {
      assert [y][..0] + [z] == [z];
    }
    ReplacedOne(m, rule, steps, context, x, t.no);
  }

  lemma OneDraw(m: Models, rule: Rule, steps: nat, context: seq<Token>, x: Token, a: seq<real>, v: seq<real>)
    requires WellFormed(m) && steps > 0 && x < m.vocab == |a| == |v|
    requires |m.target(context)| == |m.draft(context)| == m.vocab && Proper(rule, m.target(context), m.draft(context))
    requires forall y :: 0 <= y < m.vocab ==> a[y] == rule.accept(m.target(context)[y], m.draft(context)[y])
    requires forall y :: 0 <= y < m.vocab ==> v[y] == if y == x then 1.0 else 0.0
    ensures var t, f := DraftTree(m, rule, steps, context, 1, [], 0), Indicator(context + [x]);
            && t.Draw? && t.weights == rule.propose(m.draft(context)) && |t.branches| == m.vocab
            && forall y :: 0 <= y < m.vocab ==>
                 Values(t.branches, f)[y] ==
                     Mix(a[y], v[y], Normalise(rule.resample(m.target(context), m.draft(context)))[x])
  {
    var t, f := DraftTree(m, rule, steps, context, 1, [], 0), Indicator(context + [x]);
    assert context + [] == context;
    DraftUnfold(m, rule, steps, context, 1, [], 0);
    hide Mix, Normalise, VerifyTree, Expect, Sum, NonNegative;
    forall y | 0 <= y < m.vocab
      ensures Values(t.branches, f)[y] ==
              Mix(a[y], v[y], Normalise(rule.resample(m.target(context), m.draft(context)))[x])
    {
      assert [] + [y] == [y];
      OneDraft(m, rule, steps, context, x, y);
    }
  }

  // The law of a single token: drawn and accepted, or resampled.
  lemma OneTokenMixture(m: Models, rule: Rule, steps: nat, context: seq<Token>, x: Token)
    requires WellFormed(m) && steps > 0 && x < m.vocab
    requires |m.target(context)| == |m.draft(context)| == m.vocab && Proper(rule, m.target(context), m.draft(context))
    ensures Mass(DecodeTree(m, rule, steps, context, 1), context + [x]) ==
            OneTokenMass(rule, m.target(context), m.draft(context), x)
  {
    var f, q, p := Indicator(context + [x]), m.target(context), m.draft(context);
    var t := DraftTree(m, rule, steps, context, 1, [], 0);
    var law, r := Normalise(rule.propose(p)), Normalise(rule.resample(q, p))[x];
    var a := seq(m.vocab, y requires 0 <= y < m.vocab => rule.accept(q[y], p[y]));
    var v := seq(m.vocab, y requires 0 <= y < m.vocab => if y == x then 1.0 else 0.0);
    var mix, kept := Values(t.branches, f), KeptMass(rule, q, p);
    hide Expect, Dot, Sum, Times, Mix, Normalise, DraftTree, WellFormed;
    OneDraw(m, rule, steps, context, x, a, v);
    DrawExpect(t, f);
    NormaliseSum(rule.propose(p));
    MixtureSum(law, a, kept, v, mix, r);
    DotIndicator(kept, v, x);
    TimesUnit(kept[x]);
  }

  lemma LosslessOneToken(m: Models, rule: Rule, steps: nat, context: seq<Token>, x: Token)
    requires WellFormed(m) && steps > 0 && x < m.vocab && LosslessUnder(m, rule, steps)
    requires |m.target(context)| == |m.draft(context)| == m.vocab && Proper(rule, m.target(context), m.draft(context))
    ensures OneTokenMass(rule, m.target(context), m.draft(context), x) == m.target(context)[x]
  {
    hide Mass, ChainProbability, OneTokenMass, Proper;
    assert |[x]| == 1;
    assert Mass(DecodeTree(m, rule, steps, context, |[x]|), context + [x]) == ChainProbability(m, context, [x]);
    OneTokenMixture(m, rule, steps, context, x);
    OneTokenChain(m, context, x);
  }

  lemma LosslessByAgreement(m: Models, rule: Rule, steps: nat)
    requires WellFormed(m) && steps > 0 && Agree(m, rule, GuardedRule(0.0)) && rule.eos.None?
    ensures LosslessUnder(m, rule, steps)
  {
    hide Expect, ChainProbability, Agree, Indicator;
    forall prompt: seq<Token>, ys: seq<Token> | forall j :: 0 <= j < |ys| ==> ys[j] < m.vocab
      ensures Mass(DecodeTree(m, rule, steps, prompt, |ys|), prompt + ys) == ChainProbability(m, prompt, ys)
    {
      DecodeAgrees(m, rule, GuardedRule(0.0), steps, prompt, |ys|, Indicator(prompt + ys));
      LosslessChain(m, steps, prompt, ys);
    }
  }

  // ----- top_k -----

  function TopKRule(eps: real, k: nat): Rule {
    GuardedRule(eps).(propose := p => TopK(p, k))
  }

  ghost predicate DropsNothing(draft: seq<Token> -> seq<real>, k: nat) {
    forall c: seq<Token> :: TopK(draft(c), k) == draft(c)
  }

  lemma Dropped(p: seq<real>, k: nat) returns (x: Token)
    requires NonNegative(p) && TopK(p, k) != p
    ensures x < |p| && TopK(p, k)[x] == 0.0 < p[x]
  {
    hide Above;
    x :| x < |p| && TopK(p, k)[x] != p[x];
  }

  lemma KeptSum(q: seq<real>, k: nat, eps: real)
    requires IsDistribution(q, |q|) && eps >= 0.0
    ensures Sum(KeptMass(TopKRule(eps, k), q, q)) > 0.0
  {
    var rule, w := TopKRule(eps, k), TopK(q, k);
    TopKPositive(q, k);
    NormaliseSum(w);
    var law := Normalise(w);
    hide Normalise, TopK, Acceptance, Sum, Times;
    SomePositive(law);
    var y: nat :| y < |law| && law[y] > 0.0;
    var kept := KeptMass(rule, q, q);
    forall i | 0 <= i < |q| ensures kept[i] >= 0.0 {
      AcceptanceIs(q[i], q[i], eps);
      TimesSign(law[i], rule.accept(q[i], q[i]));
    }
    assert law[y] > 0.0 ==> q[y] > 0.0 by {
      DrawnIsPossible(q, k, y);
    }
    PositiveAcceptance(q[y], eps);
    Positive(law[y], Acceptance(q[y], q[y], eps));
    PositiveSum(kept, y);
  }

  lemma DrawnIsPossible(q: seq<real>, k: nat, y: nat)
    requires NonNegative(q) && y < |q| && Normalise(TopK(q, k))[y] > 0.0
    ensures q[y] > 0.0
  {
    hide Above, Sum;
    TimesUnit(Recip(Sum(TopK(q, k))));
  }

  lemma PositiveAcceptance(q: real, eps: real)
    requires q > 0.0 && eps >= 0.0
    ensures 0.0 < Acceptance(q, q, eps) <= 1.0
  {
    AcceptanceIs(q, q, eps);
    hide Acceptance;
    TimesUnit(q + eps);
  }

  // Where target and draft are the same model, a token that top_k drops comes up too rarely.
  lemma TopKDistorts(q: seq<real>, k: nat, eps: real, x: Token)
    requires IsDistribution(q, |q|) && eps >= 0.0 && x < |q| && TopK(q, k)[x] == 0.0 < q[x]
    ensures Proper(TopKRule(eps, k), q, q) && OneTokenMass(TopKRule(eps, k), q, q, x) < q[x]
  {
    TopKPositive(q, k);
    KeptSum(q, k, eps);
    ResampledIs(q, q, eps);
    var again, kept := Resampled(q, q, eps), KeptMass(TopKRule(eps, k), q, q);
    hide Residual, Sum, TopK, Acceptance, Times;
    assert 0.0 <= again[x] <= q[x] by {
      ResampledOfSame(q, eps, x);
    }
    NothingKept(q, k, eps, x);
    FractionOf(1.0 - Sum(kept), again[x], q[x]);
  }

  lemma ResampledOfSame(q: seq<real>, eps: real, x: Token)
    requires IsDistribution(q, |q|) && eps >= 0.0 && x < |q|
    ensures 0.0 <= Resampled(q, q, eps)[x] <= q[x]
  {
    hide Residual, Sum, Times;
    ResampledIs(q, q, eps);
    NormaliseDistribution(q);
    var zeros := PositivePart(q, q);
    TimesUnit(Recip(Sum(zeros)));
  }

  lemma NothingKept(q: seq<real>, k: nat, eps: real, x: Token)
    requires x < |q| && TopK(q, k)[x] == 0.0
    ensures KeptMass(TopKRule(eps, k), q, q)[x] == 0.0
  {
    hide TopK, Acceptance, Sum, Times;
    TimesUnit(Recip(Sum(TopK(q, k))));
    TimesUnit(Acceptance(q[x], q[x], eps));
    assert TopKRule(eps, k).propose(q) == TopK(q, k);
    assert Normalise(TopK(q, k))[x] == 0.0;
  }

  lemma FractionOf(c: real, y: real, z: real)
    requires c < 1.0 && 0.0 <= y <= z && z > 0.0
    ensures Times(c, y) < z
  {
    if c <= 0.0 {
      TimesSign(-c, y);
    } else {
      Positive(y, 1.0 - c);
      TimesPlus(y, c, 1.0 - c);
      TimesCommutes(c, y);
      TimesUnit(y);
    }
  }

  // ----- no draft probabilities -----

  lemma {:induction false} SumOfSame(w: seq<real>, u: real)
    requires forall i :: 0 <= i < |w| ==> w[i] == u
    ensures Sum(w) == Times(|w| as real, u)
  {
    TimesUnit(u);
    if |w| == 0 {
    } else {
      SumOfSame(w[1..], u);
      TimesPlus(u, |w[1..]| as real, 1.0);
    }
  }

  lemma UniformIs(n: nat)
    requires n > 0
    ensures IsDistribution(Uniform(n), n)
  {
    var u: real := 1.0 / n as real;
    assert u * n as real == 1.0;
    assert u > 0.0;
    SumOfSame(Uniform(n), u);
  }

  // Against a uniform target every draft is accepted, whatever law it was drawn from.
  lemma UnclaimedLaw(q: seq<real>, p: seq<real>, eps: real, x: Token)
    requires |q| > 0 && q == Uniform(|q|) && IsDistribution(p, |q|) && x < |q|
    ensures Proper(UnclaimedRule(|q|, eps), q, p) && OneTokenMass(UnclaimedRule(|q|, eps), q, p, x) == p[x]
  {
    var rule := UnclaimedRule(|q|, eps);
    NormaliseDistribution(p);
    var u: real := 1.0 / |q| as real;
    assert Times(u, |q| as real) == 1.0;
    hide Times, Residual, Sum;
    forall i | 0 <= i < |q| ensures KeptMass(rule, q, p)[i] == p[i] {
      TimesUnit(p[i]);
    }
    assert KeptMass(rule, q, p) == p;
    TimesUnit(Normalise(rule.resample(q, p))[x]);
  }

  lemma UnclaimedAccepts(q: real, n: nat)
    requires n > 0
    ensures Min(1.0, Times(q, n as real)) == Acceptance(q, 1.0 / n as real, 0.0)
  {
    var u: real := 1.0 / n as real;
    assert u * n as real == 1.0;
    assert u > 0.0;
    var x := q / u;
    assert x * u == q;
    assert x * u * n as real == x * (u * n as real);
  }

  // Without the guard, verification without draft probabilities is lossless for every target exactly if
  // the drafts are drawn uniformly: it is not conservative.
  lemma UnclaimedLosslessIff(vocab: nat, draft: seq<Token> -> seq<real>)
    requires vocab > 0 && forall c: seq<Token> :: IsDistribution(draft(c), vocab)
    ensures (forall target: seq<Token> -> seq<real>, steps: nat |
               steps > 0 && WellFormed(Models(vocab, draft, target)) ::
               LosslessUnder(Models(vocab, draft, target), UnclaimedRule(vocab, 0.0), steps)) <==>
            (forall c: seq<Token> :: draft(c) == Uniform(vocab))
  {
    if forall c: seq<Token> :: draft(c) == Uniform(vocab) {
      forall target: seq<Token> -> seq<real>, steps: nat | steps > 0 && WellFormed(Models(vocab, draft, target))
        ensures LosslessUnder(Models(vocab, draft, target), UnclaimedRule(vocab, 0.0), steps)
      {
        UnclaimedAgrees(Models(vocab, draft, target));
        LosslessByAgreement(Models(vocab, draft, target), UnclaimedRule(vocab, 0.0), steps);
      }
    } else {
      var c :| draft(c) != Uniform(vocab);
      var x: nat :| x < vocab && draft(c)[x] != Uniform(vocab)[x];
      var m := Models(vocab, draft, (_: seq<Token>) => Uniform(vocab));
      UniformIs(vocab);
      UnclaimedLaw(Uniform(vocab), draft(c), 0.0, x);
      hide Sum, LosslessUnder, OneTokenMass, Proper, Uniform;
      assert !LosslessUnder(m, UnclaimedRule(vocab, 0.0), 1) by {
        if LosslessUnder(m, UnclaimedRule(vocab, 0.0), 1) {
          LosslessOneToken(m, UnclaimedRule(vocab, 0.0), 1, c, x);
        }
      }
    }
  }

  lemma UnclaimedAgrees(m: Models)
    requires WellFormed(m) && m.vocab > 0 && forall c: seq<Token> :: m.draft(c) == Uniform(m.vocab)
    ensures Agree(m, UnclaimedRule(m.vocab, 0.0), GuardedRule(0.0))
  {
    var rule := UnclaimedRule(m.vocab, 0.0);
    hide Acceptance, Residual, Times, Sum, NonNegative;
    forall c: seq<Token>
      ensures rule.resample(m.target(c), m.draft(c)) == GuardedRule(0.0).resample(m.target(c), m.draft(c))
    {
      assert IsDistribution(m.target(c), m.vocab);
      assert m.draft(c) == Uniform(m.vocab);
    }
    forall c: seq<Token>, x: Token | x < |m.target(c)| && x < |m.draft(c)|
      ensures rule.accept(m.target(c)[x], m.draft(c)[x]) == GuardedRule(0.0).accept(m.target(c)[x], m.draft(c)[x])
    {
      assert m.draft(c) == Uniform(m.vocab);
      UnclaimedAccepts(m.target(c)[x], m.vocab);
    }
  }
}
