// Speculative decoding has the law of plain decoding from the target model, up
// to an error proportional to the division guard eps; with eps == 0 it is exact.
module SpeculativeLossless {
  import opened Collections
  import opened Vectors
  import opened SpeculativeLaw
  import opened SpeculativePosition

  // ----- expectations of single nodes -----

  ghost function Values(bs: seq<Tree>, f: seq<Token> -> real): (v: seq<real>)
    ensures |v| == |bs|
  {
    seq(|bs|, i requires 0 <= i < |bs| => Expect(bs[i], f))
  }

  lemma DrawExpect(t: Tree, f: seq<Token> -> real)
    requires t.Draw? && |t.weights| == |t.branches|
    ensures Expect(t, f) == Dot(Normalise(t.weights), Values(t.branches, f))
    ensures Sum(t.weights) == 1.0 ==> Expect(t, f) == Dot(t.weights, Values(t.branches, f))
  {
    hide Dot, Normalise;
    if Sum(t.weights) == 1.0 {
      NormaliseDistribution(t.weights);
    }
  }

  // Expected observation of plain decoding, by the token that comes first.
  ghost function PlainValues(m: Models, context: seq<Token>, remaining: nat, f: seq<Token> -> real): (v: seq<real>)
    ensures |v| == m.vocab
  {
    seq(m.vocab, x requires 0 <= x < m.vocab => Expect(PlainTree(m, context + [x], remaining), f))
  }

  lemma PlainUnfold(m: Models, context: seq<Token>, remaining: nat, f: seq<Token> -> real)
    requires WellFormed(m) && remaining > 0
    ensures IsDistribution(m.target(context), m.vocab)
    ensures Expect(PlainTree(m, context, remaining), f) ==
            Dot(m.target(context), PlainValues(m, context, remaining - 1, f))
  {
    hide Dot;
    var t := PlainTree(m, context, remaining);
    assert IsDistribution(m.target(context), m.vocab);
    DrawExpect(t, f);
    assert Values(t.branches, f) == PlainValues(m, context, remaining - 1, f);
  }

  lemma {:induction false} PlainBounded(m: Models, context: seq<Token>, remaining: nat, f: seq<Token> -> real,
                                        bound: real)
    requires WellFormed(m) && Bounded(f, bound)
    ensures -bound <= Expect(PlainTree(m, context, remaining), f) <= bound
    decreases remaining, 1
  {
    if remaining == 0 {
    } else {
      hide Dot, Sum, Expect;
      PlainUnfold(m, context, remaining, f);
      PlainValuesBounded(m, context, remaining - 1, f, bound);
      var q := m.target(context);
      DotBound(q, q, PlainValues(m, context, remaining - 1, f), bound);
      TimesUnit(bound);
    }
  }

  lemma {:induction false} PlainValuesBounded(m: Models, context: seq<Token>, remaining: nat, f: seq<Token> -> real,
                                              bound: real)
    requires WellFormed(m) && Bounded(f, bound)
    ensures forall x :: 0 <= x < m.vocab ==> -bound <= PlainValues(m, context, remaining, f)[x] <= bound
    decreases remaining, 2
  {
    forall x | 0 <= x < m.vocab ensures -bound <= PlainValues(m, context, remaining, f)[x] <= bound {
      PlainBounded(m, context + [x], remaining, f, bound);
    }
  }

  // ----- hoisting the first unverified position out of a block -----

  ghost predicate DraftState(m: Models, steps: nat, remaining: nat, drafts: seq<Token>) {
    && WellFormed(m) && steps > 0 && remaining > 0
    && |drafts| <= Smaller(steps, remaining)
    && forall j :: 0 <= j < |drafts| ==> drafts[j] < m.vocab
  }

  // What happens when the position after `before` is rejected.
  ghost function RejectTree(m: Models, rule: Rule, steps: nat, context: seq<Token>, remaining: nat,
                            before: seq<Token>): Tree
    requires WellFormed(m) && steps > 0 && remaining > 0
  {
    var w := rule.resample(m.target(context + before), m.draft(context + before));
    Draw(w, seq(|w|, x requires 0 <= x < |w| => EmitTree(m, rule, steps, context, remaining, before + [x])))
  }

  // After `depth` draws, t flips a coin with probability alpha of going on as y does and
  // otherwise goes on as `no`.
  ghost predicate FlipsBelow(t: Tree, y: Tree, alpha: real, no: Tree, depth: nat) {
    if depth == 0 then t == Flip(alpha, y, no)
    else
      && t.Draw? && y.Draw? && t.weights == y.weights
      && |t.weights| == |t.branches| == |y.branches| && Sum(t.weights) == 1.0
      && forall x :: 0 <= x < |t.branches| ==> FlipsBelow(t.branches[x], y.branches[x], alpha, no, depth - 1)
  }

  // A coin whose bias does not depend on the draws before it may as well be flipped first.
  lemma {:induction false} HoistFlip(t: Tree, y: Tree, alpha: real, no: Tree, depth: nat, f: seq<Token> -> real)
    requires FlipsBelow(t, y, alpha, no, depth)
    ensures Expect(t, f) == Mix(alpha, Expect(y, f), Expect(no, f))
    decreases depth
  {
    if depth == 0 {
    } else {
      hide Mix, Dot, Sum;
      forall x | 0 <= x < |t.branches|
        ensures Values(t.branches, f)[x] == Mix(alpha, Values(y.branches, f)[x], Expect(no, f))
      {
        HoistFlip(t.branches[x], y.branches[x], alpha, no, depth - 1, f);
      }
      DrawExpect(t, f);
      DrawExpect(y, f);
      AverageMix(t.weights, Values(t.branches, f), Values(y.branches, f), alpha, Expect(no, f));
    }
  }

  lemma AverageMix(w: seq<real>, u: seq<real>, v: seq<real>, a: real, r: real)
    requires |w| == |u| == |v| && Sum(w) == 1.0
    requires forall i :: 0 <= i < |w| ==> u[i] == Mix(a, v[i], r)
    ensures Dot(w, u) == Mix(a, Dot(w, v), r)
  {
    hide Times;
    DotMix(w, u, v, a, r);
    TimesUnit(Times(1.0 - a, r));
  }

  // Draft tokens are drawn from the whole draft law.
  ghost predicate ProposesAll(rule: Rule) {
    forall p: seq<real> :: rule.propose(p) == p
  }

  lemma DraftUnfold(m: Models, rule: Rule, steps: nat, context: seq<Token>, remaining: nat, drafts: seq<Token>, i: nat)
    requires DraftState(m, steps, remaining, drafts) && |drafts| < Smaller(steps, remaining) && i <= |drafts|
    ensures IsDistribution(m.draft(context + drafts), m.vocab)
    ensures var t := DraftTree(m, rule, steps, context, remaining, drafts, i);
            && t.Draw? && t.weights == rule.propose(m.draft(context + drafts)) && |t.branches| == m.vocab
            && forall x :: 0 <= x < m.vocab ==>
                 t.branches[x] == DraftTree(m, rule, steps, context, remaining, drafts + [x], i)
  {
    hide Sum, NonNegative, VerifyTree;
    assert IsDistribution(m.draft(context + drafts), m.vocab);
  }

  // Position |before| can be verified before the drafts after it are drawn.
  lemma {:induction false} VerifyEarly(m: Models, rule: Rule, steps: nat, context: seq<Token>, remaining: nat,
                                       before: seq<Token>, x: Token, after: seq<Token>)
    requires DraftState(m, steps, remaining, before + [x] + after) && x < m.vocab && ProposesAll(rule)
    ensures |m.target(context + before)| == |m.draft(context + before)| == m.vocab
    ensures FlipsBelow(DraftTree(m, rule, steps, context, remaining, before + [x] + after, |before|),
                       DraftTree(m, rule, steps, context, remaining, before + [x] + after, |before| + 1),
                       rule.accept(m.target(context + before)[x], m.draft(context + before)[x]),
                       RejectTree(m, rule, steps, context, remaining, before),
                       Smaller(steps, remaining) - |before| - 1 - |after|)
    decreases Smaller(steps, remaining) - |after|
  {
    hide Sum, NonNegative, RejectTree, VerifyTree, DraftTree;
    var drafts := before + [x] + after;
    var q, p := m.target(context + before), m.draft(context + before);
    assert IsDistribution(q, m.vocab) && IsDistribution(p, m.vocab);
    if |drafts| == Smaller(steps, remaining) {
      VerifyEarlyLeaf(m, rule, steps, context, remaining, before, x, after);
    } else {
      assert rule.propose(m.draft(context + drafts)) == m.draft(context + drafts);
      DraftUnfold(m, rule, steps, context, remaining, drafts, |before|);
      DraftUnfold(m, rule, steps, context, remaining, drafts, |before| + 1);
      forall y | 0 <= y < m.vocab
        ensures FlipsBelow(DraftTree(m, rule, steps, context, remaining, drafts + [y], |before|),
                           DraftTree(m, rule, steps, context, remaining, drafts + [y], |before| + 1),
                           rule.accept(q[x], p[x]), RejectTree(m, rule, steps, context, remaining, before),
                           Smaller(steps, remaining) - |drafts| - 1)
      {
        assert drafts + [y] == before + [x] + (after + [y]);
        VerifyEarly(m, rule, steps, context, remaining, before, x, after + [y]);
      }
    }
  }

  lemma VerifyEarlyLeaf(m: Models, rule: Rule, steps: nat, context: seq<Token>, remaining: nat,
                        before: seq<Token>, x: Token, after: seq<Token>)
    requires DraftState(m, steps, remaining, before + [x] + after) && x < m.vocab
    requires |before| + 1 + |after| == Smaller(steps, remaining)
    ensures |m.target(context + before)| == |m.draft(context + before)| == m.vocab
    ensures FlipsBelow(DraftTree(m, rule, steps, context, remaining, before + [x] + after, |before|),
                       DraftTree(m, rule, steps, context, remaining, before + [x] + after, |before| + 1),
                       rule.accept(m.target(context + before)[x], m.draft(context + before)[x]),
                       RejectTree(m, rule, steps, context, remaining, before), 0)
  {
    hide Sum, NonNegative;
    var drafts := before + [x] + after;
    assert IsDistribution(m.target(context + before), m.vocab) && IsDistribution(m.draft(context + before), m.vocab);
    assert drafts[..|before|] == before && drafts[|before|] == x;
    assert VerifyTree(m, rule, steps, context, remaining, drafts, |before|).no ==
           RejectTree(m, rule, steps, context, remaining, before);
  }

  // ----- one verified position, with the continuations plugged in -----

  // x, of total mass k, together with the remaining mass valued at r.
  function Blend(k: real, x: real, r: real): real {
    x + Times(1.0 - k, r)
  }

  lemma {:induction false} MixtureSum(p: seq<real>, a: seq<real>, kept: seq<real>, v: seq<real>, mix: seq<real>,
                                      r: real)
    requires |p| == |a| == |kept| == |v| == |mix|
    requires forall i :: 0 <= i < |p| ==> kept[i] == Times(p[i], a[i])
    requires forall i :: 0 <= i < |p| ==> mix[i] == Mix(a[i], v[i], r)
    ensures Dot(p, mix) == Dot(kept, v) + Times(Sum(p) - Sum(kept), r)
  {
    hide Times, Mix;
    TimesUnit(r);
    if |p| == 0 {
    } else {
      MixtureSum(p[1..], a[1..], kept[1..], v[1..], mix[1..], r);
      MixtureAt(p[0], a[0], v[0], r);
      TimesPlus(r, p[0] - kept[0], Sum(p[1..]) - Sum(kept[1..]));
    }
  }

  lemma MixtureAt(p: real, a: real, v: real, r: real)
    ensures Times(p, Mix(a, v, r)) == Times(Times(p, a), v) + Times(p - Times(p, a), r)
  {
  }

  lemma NearTransitive(x: real, y: real, z: real, e: real, g: real)
    requires Near(x, y, e) && Near(y, z, g)
    ensures Near(x, z, e + g)
  {
  }

  lemma BlendNear(x: real, y: real, r: real, s: real, k: real, e: real)
    requires k <= 1.0 && Near(x, y, Times(k, e)) && Near(r, s, e)
    ensures Near(Blend(k, x, r), Blend(k, y, s), e)
  {
    hide Times;
    TimesNear(1.0 - k, r, s, e);
    TimesPlus(e, k, 1.0 - k);
    TimesUnit(e);
  }

  // If accepted tokens and replacements are valued within e of v, the mixture is within e of the
  // emission law's average of v.
  lemma MixtureNearEmission(q: seq<real>, p: seq<real>, eps: real, accepted: seq<real>, replaced: seq<real>,
                            v: seq<real>, e: real)
    requires IsDistribution(q, |q|) && IsDistribution(p, |q|) && eps >= 0.0 && e >= 0.0
    requires |accepted| == |replaced| == |v| == |q|
    requires Within(accepted, v, e) && Within(replaced, v, e)
    ensures Near(Blend(Sum(AcceptedMass(q, p, eps)), Dot(AcceptedMass(q, p, eps), accepted),
                       Dot(Resampled(q, p, eps), replaced)),
                 Dot(Emission(q, p, eps), v), e)
  {
    hide Dot, Sum, Times, Near, Blend, AcceptedMass, Residual;
    var kept, again := AcceptedMass(q, p, eps), Resampled(q, p, eps);
    EmissionValue(q, p, eps, v);
    MassSums(q, p, eps);
    MassesBalanced(q, p, eps);
    ResampledIs(q, p, eps);
    NormaliseSum(Residual(q, p, eps));
    DotWithin(kept, accepted, v, e);
    WeakWithin(again, replaced, v, e);
    BlendNear(Dot(kept, accepted), Dot(kept, v), Dot(again, replaced), Dot(again, v), Sum(kept), e);
  }

  lemma EmissionValue(q: seq<real>, p: seq<real>, eps: real, v: seq<real>)
    requires |q| == |p| == |v|
    ensures Dot(Emission(q, p, eps), v) ==
            Blend(Sum(AcceptedMass(q, p, eps)), Dot(AcceptedMass(q, p, eps), v), Dot(Resampled(q, p, eps), v))
  {
    hide Dot, Sum, AcceptedMass, Resampled, Times;
    DotPlus(Emission(q, p, eps), AcceptedMass(q, p, eps), ResampledMass(q, p, eps), v);
    DotScale(Resampled(q, p, eps), 1.0 - Sum(AcceptedMass(q, p, eps)), v);
  }

  // The error allowed per emitted token, for observations bounded by `bound`.
  function PerToken(vocab: nat, eps: real, bound: real): real {
    Times(ErrorRate(vocab, eps), bound)
  }

  // The emission law's average of v against the target's.
  lemma EmissionNearTarget(q: seq<real>, p: seq<real>, eps: real, v: seq<real>, bound: real)
    requires IsDistribution(q, |q|) && IsDistribution(p, |q|) && eps >= 0.0 && bound >= 0.0
    requires |v| == |q| && forall i :: 0 <= i < |v| ==> -bound <= v[i] <= bound
    ensures Near(Dot(Emission(q, p, eps), v), Dot(q, v), PerToken(|q|, eps, bound))
  {
    hide Dot, Sum, Times, ErrorRate, Emission;
    EmissionError(q, p, eps);
    var diff := seq(|q|, i requires 0 <= i < |q| => Emission(q, p, eps)[i] - q[i]);
    DotPlus(Emission(q, p, eps), q, diff, v);
    DotBound(diff, Deviation(q, p, eps), v, bound);
    TimesMonotone(Sum(Deviation(q, p, eps)), ErrorRate(|q|, eps), bound);
  }

  // ----- whole blocks, whole runs -----

  function Budget(tokens: nat, vocab: nat, eps: real, bound: real): real {
    Times(tokens as real, PerToken(vocab, eps, bound))
  }

  // Every position emits the target's law, up to `rate` in the average of any observation within `bound`.
  ghost predicate PositionsWithin(m: Models, eps: real, bound: real, rate: real)
    requires WellFormed(m)
  {
    forall c: seq<Token>, v: seq<real> :: |v| == m.vocab && InBound(v, bound) ==> PositionWithin(m, eps, c, v, rate)
  }

  ghost predicate InBound(v: seq<real>, bound: real) {
    forall i :: 0 <= i < |v| ==> -bound <= v[i] <= bound
  }

  ghost predicate PositionWithin(m: Models, eps: real, c: seq<Token>, v: seq<real>, rate: real)
    requires WellFormed(m) && |v| == m.vocab
  {
    assert IsDistribution(m.draft(c), m.vocab) && IsDistribution(m.target(c), m.vocab);
    Near(Dot(Emission(m.target(c), m.draft(c), eps), v), Dot(m.target(c), v), rate)
  }

  lemma PositionIs(m: Models, eps: real, bound: real, rate: real, c: seq<Token>, v: seq<real>)
    requires WellFormed(m) && PositionsWithin(m, eps, bound, rate) && |v| == m.vocab && InBound(v, bound)
    ensures |m.target(c)| == |m.draft(c)| == m.vocab
    ensures Near(Dot(Emission(m.target(c), m.draft(c), eps), v), Dot(m.target(c), v), rate)
  {
    hide Near, Dot, Emission;
    assert PositionWithin(m, eps, c, v, rate);
    assert IsDistribution(m.draft(c), m.vocab) && IsDistribution(m.target(c), m.vocab);
  }

  lemma PositionsWithinPerToken(m: Models, eps: real, bound: real)
    requires WellFormed(m) && eps >= 0.0 && bound >= 0.0
    ensures PositionsWithin(m, eps, bound, PerToken(m.vocab, eps, bound)) && PerToken(m.vocab, eps, bound) >= 0.0
  {
    hide Dot, Emission, Near;
    forall c: seq<Token>, v: seq<real> | |v| == m.vocab && InBound(v, bound)
      ensures PositionWithin(m, eps, c, v, PerToken(m.vocab, eps, bound))
    {
      assert IsDistribution(m.draft(c), m.vocab) && IsDistribution(m.target(c), m.vocab);
      EmissionNearTarget(m.target(c), m.draft(c), eps, v, bound);
    }
    TimesSign(2.0 * (m.vocab as real + 1.0), eps);
    TimesSign(ErrorRate(m.vocab, eps), bound);
  }

  function Allowance(tokens: nat, rate: real): real {
    Times(tokens as real, rate)
  }

  lemma AllowanceStep(tokens: nat, rate: real)
    requires tokens > 0 && rate >= 0.0
    ensures Allowance(tokens, rate) == Allowance(tokens - 1, rate) + rate && Allowance(tokens - 1, rate) >= 0.0
  {
    hide Times;
    TimesSign((tokens - 1) as real, rate);
    TimesPlus(rate, (tokens - 1) as real, 1.0);
    TimesUnit(rate);
  }

  // Expected observation of a draft node, by the token drafted.
  ghost function DraftValues(m: Models, eps: real, steps: nat, context: seq<Token>, remaining: nat,
                             drafts: seq<Token>, i: nat, f: seq<Token> -> real): (v: seq<real>)
    requires DraftState(m, steps, remaining, drafts) && |drafts| < Smaller(steps, remaining) && i <= |drafts| + 1
    ensures |v| == m.vocab
  {
    seq(m.vocab, x requires 0 <= x < m.vocab =>
      Expect(DraftTree(m, GuardedRule(eps), steps, context, remaining, drafts + [x], i), f))
  }

  // Expected observation after a rejection, by the token resampled.
  ghost function ReplacedValues(m: Models, eps: real, steps: nat, context: seq<Token>, remaining: nat,
                                drafts: seq<Token>, f: seq<Token> -> real): (v: seq<real>)
    requires WellFormed(m) && steps > 0 && |drafts| < remaining
    ensures |v| == m.vocab
  {
    seq(m.vocab, x requires 0 <= x < m.vocab =>
      Expect(DecodeTree(m, GuardedRule(eps), steps, context + drafts + [x], remaining - |drafts| - 1), f))
  }

  lemma EmitWhole(m: Models, rule: Rule, steps: nat, context: seq<Token>, remaining: nat, emitted: seq<Token>)
    requires WellFormed(m) && steps > 0 && 0 < |emitted| <= remaining && rule.eos.None?
    ensures EmitTree(m, rule, steps, context, remaining, emitted) ==
            DecodeTree(m, rule, steps, context + emitted, remaining - |emitted|)
  {
    assert emitted[..|emitted|] == emitted;
  }

  lemma EmitClipped(m: Models, rule: Rule, steps: nat, context: seq<Token>, remaining: nat, drafts: seq<Token>,
                    x: Token)
    requires WellFormed(m) && steps > 0 && 0 < |drafts| == remaining
    ensures EmitTree(m, rule, steps, context, remaining, drafts + [x]) == Done(context + drafts)
  {
    assert (drafts + [x])[..remaining] == drafts;
  }

  lemma RejectExpect(m: Models, eps: real, steps: nat, context: seq<Token>, remaining: nat,
                     drafts: seq<Token>, f: seq<Token> -> real)
    requires WellFormed(m) && steps > 0 && |drafts| < remaining
    ensures |m.target(context + drafts)| == |m.draft(context + drafts)| == m.vocab
    ensures Expect(RejectTree(m, GuardedRule(eps), steps, context, remaining, drafts), f) ==
            Dot(Resampled(m.target(context + drafts), m.draft(context + drafts), eps),
                ReplacedValues(m, eps, steps, context, remaining, drafts, f))
  {
    hide Dot, Residual, Normalise, Sum, NonNegative;
    assert IsDistribution(m.target(context + drafts), m.vocab) && IsDistribution(m.draft(context + drafts), m.vocab);
    var t := RejectTree(m, GuardedRule(eps), steps, context, remaining, drafts);
    var v := ReplacedValues(m, eps, steps, context, remaining, drafts, f);
    forall x | 0 <= x < m.vocab ensures Values(t.branches, f)[x] == v[x] {
      EmitWhole(m, GuardedRule(eps), steps, context, remaining, drafts + [x]);
      assert context + (drafts + [x]) == context + drafts + [x];
    }
    assert Values(t.branches, f) == v;
    DrawExpect(t, f);
  }

  lemma FlipFirst(m: Models, eps: real, steps: nat, context: seq<Token>, remaining: nat,
                  drafts: seq<Token>, x: Token, f: seq<Token> -> real)
    requires DraftState(m, steps, remaining, drafts) && |drafts| < Smaller(steps, remaining) && x < m.vocab
    ensures |m.target(context + drafts)| == |m.draft(context + drafts)| == m.vocab
    ensures DraftValues(m, eps, steps, context, remaining, drafts, |drafts|, f)[x] ==
            Mix(Acceptance(m.target(context + drafts)[x], m.draft(context + drafts)[x], eps),
                DraftValues(m, eps, steps, context, remaining, drafts, |drafts| + 1, f)[x],
                Expect(RejectTree(m, GuardedRule(eps), steps, context, remaining, drafts), f))
  {
    hide Acceptance, Expect, Mix, Sum, NonNegative;
    assert IsDistribution(m.target(context + drafts), m.vocab) && IsDistribution(m.draft(context + drafts), m.vocab);
    assert drafts + [x] + [] == drafts + [x];
    VerifyEarly(m, GuardedRule(eps), steps, context, remaining, drafts, x, []);
    HoistFlip(DraftTree(m, GuardedRule(eps), steps, context, remaining, drafts + [x], |drafts|),
              DraftTree(m, GuardedRule(eps), steps, context, remaining, drafts + [x], |drafts| + 1),
              Acceptance(m.target(context + drafts)[x], m.draft(context + drafts)[x], eps),
              RejectTree(m, GuardedRule(eps), steps, context, remaining, drafts),
              Smaller(steps, remaining) - |drafts| - 1, f);
  }

  lemma DraftExpect(m: Models, eps: real, steps: nat, context: seq<Token>, remaining: nat,
                    drafts: seq<Token>, f: seq<Token> -> real)
    requires DraftState(m, steps, remaining, drafts) && |drafts| < Smaller(steps, remaining)
    ensures IsDistribution(m.draft(context + drafts), m.vocab)
    ensures Expect(DraftTree(m, GuardedRule(eps), steps, context, remaining, drafts, |drafts|), f) ==
            Dot(m.draft(context + drafts), DraftValues(m, eps, steps, context, remaining, drafts, |drafts|, f))
  {
    hide Dot;
    assert IsDistribution(m.draft(context + drafts), m.vocab);
    var t := DraftTree(m, GuardedRule(eps), steps, context, remaining, drafts, |drafts|);
    DrawExpect(t, f);
    assert Values(t.branches, f) == DraftValues(m, eps, steps, context, remaining, drafts, |drafts|, f);
  }

  // Before anything after it is drawn, position |drafts| contributes a mixture of accepted and replaced tokens.
  lemma BlockMixture(m: Models, eps: real, steps: nat, context: seq<Token>, remaining: nat,
                     drafts: seq<Token>, f: seq<Token> -> real)
    requires DraftState(m, steps, remaining, drafts) && |drafts| < Smaller(steps, remaining)
    ensures |m.target(context + drafts)| == |m.draft(context + drafts)| == m.vocab
    ensures var kept := AcceptedMass(m.target(context + drafts), m.draft(context + drafts), eps);
            Expect(DraftTree(m, GuardedRule(eps), steps, context, remaining, drafts, |drafts|), f) ==
            Blend(Sum(kept), Dot(kept, DraftValues(m, eps, steps, context, remaining, drafts, |drafts| + 1, f)),
                  Dot(Resampled(m.target(context + drafts), m.draft(context + drafts), eps),
                      ReplacedValues(m, eps, steps, context, remaining, drafts, f)))
  {
    hide Expect, Mix, Dot, Sum, Times, Acceptance, Resampled, DraftTree, RejectTree;
    RejectExpect(m, eps, steps, context, remaining, drafts, f);
    DraftExpect(m, eps, steps, context, remaining, drafts, f);
    var q, p := m.target(context + drafts), m.draft(context + drafts);
    var r := Expect(RejectTree(m, GuardedRule(eps), steps, context, remaining, drafts), f);
    var mix := DraftValues(m, eps, steps, context, remaining, drafts, |drafts|, f);
    var v := DraftValues(m, eps, steps, context, remaining, drafts, |drafts| + 1, f);
    var a := seq(m.vocab, x requires 0 <= x < m.vocab => Acceptance(q[x], p[x], eps));
    forall x | 0 <= x < m.vocab ensures mix[x] == Mix(a[x], v[x], r) {
      FlipFirst(m, eps, steps, context, remaining, drafts, x, f);
    }
    MixtureSum(p, a, AcceptedMass(q, p, eps), v, mix, r);
  }

  // From every prompt, within every budget: what speculative decoding leads one to expect is
  // what plain decoding from the target does, up to the error of a position per token.
  lemma {:induction false} DecodeWithin(m: Models, eps: real, steps: nat, context: seq<Token>, remaining: nat,
                                      f: seq<Token> -> real, bound: real, rate: real)
    requires WellFormed(m) && steps > 0 && eps >= 0.0 && Bounded(f, bound) && PositionsWithin(m, eps, bound, rate)
    requires rate >= 0.0
    ensures Near(Expect(DecodeTree(m, GuardedRule(eps), steps, context, remaining), f),
                 Expect(PlainTree(m, context, remaining), f), Allowance(remaining, rate))
    decreases remaining, 1
  {
    if remaining == 0 {
      hide Times;
      TimesUnit(rate);
    } else {
      hide Expect, Near, Allowance, PositionsWithin;
      assert context + [] == context;
      DraftWithin(m, eps, steps, context, remaining, [], f, bound, rate);
    }
  }

  // From the position after `drafts` on, a block and what follows it do so.
  lemma {:induction false} DraftWithin(m: Models, eps: real, steps: nat, context: seq<Token>, remaining: nat,
                                     drafts: seq<Token>, f: seq<Token> -> real, bound: real, rate: real)
    requires DraftState(m, steps, remaining, drafts)
    requires eps >= 0.0 && Bounded(f, bound) && PositionsWithin(m, eps, bound, rate) && rate >= 0.0
    ensures Near(Expect(DraftTree(m, GuardedRule(eps), steps, context, remaining, drafts, |drafts|), f),
                 Expect(PlainTree(m, context + drafts, remaining - |drafts|), f),
                 Allowance(remaining - |drafts|, rate))
    decreases remaining, 0, Smaller(steps, remaining) - |drafts|, 2
  {
    hide Expect, Near, Allowance, PositionsWithin;
    if |drafts| < Smaller(steps, remaining) {
      PositionStep(m, eps, steps, context, remaining, drafts, f, bound, rate);
    } else if |drafts| == remaining {
      BonusClipped(m, eps, steps, context, remaining, drafts, f);
      NothingLeft(m, context + drafts, f, rate);
    } else {
      BonusWithin(m, eps, steps, context, remaining, drafts, f, bound, rate);
    }
  }

  lemma PositionStep(m: Models, eps: real, steps: nat, context: seq<Token>, remaining: nat,
                     drafts: seq<Token>, f: seq<Token> -> real, bound: real, rate: real)
    requires DraftState(m, steps, remaining, drafts) && |drafts| < Smaller(steps, remaining)
    requires eps >= 0.0 && Bounded(f, bound) && PositionsWithin(m, eps, bound, rate) && rate >= 0.0
    ensures Near(Expect(DraftTree(m, GuardedRule(eps), steps, context, remaining, drafts, |drafts|), f),
                 Expect(PlainTree(m, context + drafts, remaining - |drafts|), f),
                 Allowance(remaining - |drafts|, rate))
    decreases remaining, 0, Smaller(steps, remaining) - |drafts|, 1
  {
    hide Expect, Near, Allowance, PositionsWithin, Blend, Dot, Sum, Times, AcceptedMass, Resampled, Emission,
         DraftTree, PlainTree, DraftValues, ReplacedValues, PlainValues, GuardedRule;
    var here, left := context + drafts, remaining - |drafts|;
    var q, p, e := m.target(here), m.draft(here), Allowance(left - 1, rate);
    var accepted := DraftValues(m, eps, steps, context, remaining, drafts, |drafts| + 1, f);
    var replaced := ReplacedValues(m, eps, steps, context, remaining, drafts, f);
    var plain := PlainValues(m, here, left - 1, f);
    assert IsDistribution(q, m.vocab) && IsDistribution(p, m.vocab);
    BranchesWithin(m, eps, steps, context, remaining, drafts, f, bound, rate);
    PlainValuesBounded(m, here, left - 1, f, bound);
    AllowanceStep(left, rate);
    BlockMixture(m, eps, steps, context, remaining, drafts, f);
    MixtureNearEmission(q, p, eps, accepted, replaced, plain, e);
    PositionIs(m, eps, bound, rate, here, plain);
    PlainUnfold(m, here, left, f);
    NearTransitive(Expect(DraftTree(m, GuardedRule(eps), steps, context, remaining, drafts, |drafts|), f),
                   Dot(Emission(q, p, eps), plain), Dot(q, plain), e, rate);
  }

  lemma BranchesWithin(m: Models, eps: real, steps: nat, context: seq<Token>, remaining: nat,
                     drafts: seq<Token>, f: seq<Token> -> real, bound: real, rate: real)
    requires DraftState(m, steps, remaining, drafts) && |drafts| < Smaller(steps, remaining)
    requires eps >= 0.0 && Bounded(f, bound) && PositionsWithin(m, eps, bound, rate) && rate >= 0.0
    ensures Within(DraftValues(m, eps, steps, context, remaining, drafts, |drafts| + 1, f),
                   PlainValues(m, context + drafts, remaining - |drafts| - 1, f),
                   Allowance(remaining - |drafts| - 1, rate))
    ensures Within(ReplacedValues(m, eps, steps, context, remaining, drafts, f),
                   PlainValues(m, context + drafts, remaining - |drafts| - 1, f),
                   Allowance(remaining - |drafts| - 1, rate))
    decreases remaining, 0, Smaller(steps, remaining) - |drafts|, 0
  {
    hide Near, Allowance, PositionsWithin, Expect, GuardedRule, Sum, NonNegative, DraftTree, EmitTree, DecodeTree,
        PlainTree;
    var left := remaining - |drafts|;
    var a := DraftValues(m, eps, steps, context, remaining, drafts, |drafts| + 1, f);
    var b := ReplacedValues(m, eps, steps, context, remaining, drafts, f);
    var plain, e := PlainValues(m, context + drafts, left - 1, f), Allowance(left - 1, rate);
    forall x | 0 <= x < m.vocab
      ensures Near(a[x], plain[x], e)
      ensures Near(b[x], plain[x], e)
    {
      var longer := drafts + [x];
      assert context + longer == context + drafts + [x];
      DraftWithin(m, eps, steps, context, remaining, longer, f, bound, rate);
      DecodeWithin(m, eps, steps, context + drafts + [x], left - 1, f, bound, rate);
    }
    assert Within(a, plain, e);
    assert Within(b, plain, e);
  }

  lemma NothingLeft(m: Models, context: seq<Token>, f: seq<Token> -> real, rate: real)
    ensures Near(f(context), Expect(PlainTree(m, context, 0), f), Allowance(0, rate))
  {
    hide Times;
    TimesUnit(rate);
  }

  // Every draft was accepted and the budget is used up: the bonus token is dropped.
  lemma BonusClipped(m: Models, eps: real, steps: nat, context: seq<Token>, remaining: nat,
                     drafts: seq<Token>, f: seq<Token> -> real)
    requires DraftState(m, steps, remaining, drafts) && |drafts| == remaining
    ensures Expect(DraftTree(m, GuardedRule(eps), steps, context, remaining, drafts, |drafts|), f) ==
            f(context + drafts)
  {
    hide Dot, Sum, Times, Normalise;
    assert drafts[..|drafts|] == drafts;
    var q := m.target(context + drafts);
    assert IsDistribution(q, m.vocab);
    var t := VerifyTree(m, GuardedRule(eps), steps, context, remaining, drafts, |drafts|);
    forall x | 0 <= x < m.vocab ensures Values(t.branches, f)[x] == f(context + drafts) {
      EmitClipped(m, GuardedRule(eps), steps, context, remaining, drafts, x);
    }
    DrawExpect(t, f);
    DotConstant(q, Values(t.branches, f), f(context + drafts));
    TimesUnit(f(context + drafts));
  }

  // Every draft was accepted: the bonus token is drawn from the target itself.
  lemma BonusWithin(m: Models, eps: real, steps: nat, context: seq<Token>, remaining: nat,
                  drafts: seq<Token>, f: seq<Token> -> real, bound: real, rate: real)
    requires DraftState(m, steps, remaining, drafts) && |drafts| == Smaller(steps, remaining) < remaining
    requires eps >= 0.0 && Bounded(f, bound) && PositionsWithin(m, eps, bound, rate) && rate >= 0.0
    ensures Near(Expect(DraftTree(m, GuardedRule(eps), steps, context, remaining, drafts, |drafts|), f),
                 Expect(PlainTree(m, context + drafts, remaining - |drafts|), f),
                 Allowance(remaining - |drafts|, rate))
    decreases remaining, 0, Smaller(steps, remaining) - |drafts|, 0
  {
    hide Allowance, PositionsWithin, Dot, Sum, Expect, Near;
    assert drafts[..|drafts|] == drafts;
    var here, left := context + drafts, remaining - |drafts|;
    assert IsDistribution(m.target(here), m.vocab);
    var t := VerifyTree(m, GuardedRule(eps), steps, context, remaining, drafts, |drafts|);
    var u := Values(t.branches, f);
    var plain, e := PlainValues(m, here, left - 1, f), Allowance(left - 1, rate);
    forall x | 0 <= x < m.vocab ensures Near(u[x], plain[x], e) {
      EmitWhole(m, GuardedRule(eps), steps, context, remaining, drafts + [x]);
      assert context + (drafts + [x]) == here + [x];
      DecodeWithin(m, eps, steps, here + [x], left - 1, f, bound, rate);
    }
    DrawExpect(t, f);
    PlainUnfold(m, here, left, f);
    AllowanceStep(left, rate);
    assert Within(u, plain, e);
    WeakWithin(m.target(here), u, plain, e);
    NearWeaken(Expect(t, f), Expect(PlainTree(m, here, left), f), e, Allowance(left, rate));
  }

  lemma NearWeaken(x: real, y: real, e: real, g: real)
    requires Near(x, y, e) && e <= g
    ensures Near(x, y, g)
  {
  }

  // With the error of a guarded position.
  lemma DecodeNear(m: Models, eps: real, steps: nat, context: seq<Token>, remaining: nat, f: seq<Token> -> real,
                   bound: real)
    requires WellFormed(m) && steps > 0 && eps >= 0.0 && Bounded(f, bound) && bound >= 0.0
    ensures Near(Expect(DecodeTree(m, GuardedRule(eps), steps, context, remaining), f),
                 Expect(PlainTree(m, context, remaining), f), Budget(remaining, m.vocab, eps, bound))
  {
    hide Expect, Near, PerToken, PositionsWithin;
    PositionsWithinPerToken(m, eps, bound);
    DecodeWithin(m, eps, steps, context, remaining, f, bound, PerToken(m.vocab, eps, bound));
  }
}
