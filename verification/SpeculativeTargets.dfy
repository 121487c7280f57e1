// For which draft models decoding is lossless for every target model, at any guard.
module SpeculativeTargets {
  import opened Collections
  import opened Vectors
  import opened SpeculativeLaw
  import opened SpeculativePosition
  import opened SpeculativeLossless
  import opened SpeculativeDecoder
  import opened SpeculativeGuard
  import opened SpeculativeRules
  import opened SpeculativeProposals

  ghost predicate HarmlessForAll(p: seq<real>, eps: real) {
    forall q: seq<real> :: IsDistribution(q, |p|) ==> Harmless(q, p, eps)
  }

  // The draft law is uniform, and the guard so large that no residual other than a whole one counts.
  ghost predicate UniformAndCoarse(p: seq<real>, eps: real) {
    |p| > 0 && p == Uniform(|p|) && eps + 1.0 / |p| as real >= 1.0
  }

  // ----- sums -----

  lemma {:induction false} TwoEntries(w: seq<real>, i: nat, j: nat)
    requires NonNegative(w) && i < j < |w|
    ensures w[i] + w[j] <= Sum(w)
  {
    if i == 0 {
      EntryAtMostSum(w[1..], j - 1);
    } else {
      TwoEntries(w[1..], i - 1, j - 1);
    }
  }

  lemma {:induction false} SumOfOne(w: seq<real>, j: nat)
    requires j < |w| && forall i :: 0 <= i < |w| && i != j ==> w[i] == 0.0
    ensures Sum(w) == w[j]
  {
    if j == 0 {
      SumOfZeros(w[1..]);
    } else {
      SumOfOne(w[1..], j - 1);
    }
  }

  // Every law gives some token at least the mass it would have if all had the same.
  lemma LargestAtLeast(q: seq<real>, u: real)
    requires IsDistribution(q, |q|) && |q| > 0 && Times(|q| as real, u) == 1.0
    ensures q[Largest(q)] >= u
  {
    var hi := q[Largest(q)];
    SumAtMost(q, hi);
    if hi < u {
      Positive(|q| as real, u - hi);
      TimesPlus(|q| as real, hi, u - hi);
    }
  }

  lemma UnitShare(n: nat)
    requires n > 0
    ensures 0.0 < 1.0 / n as real <= 1.0 && Times(n as real, 1.0 / n as real) == 1.0
  {
    var u: real := 1.0 / n as real;
    assert u * n as real == 1.0;
    assert u > 0.0;
    if n > 1 {
      assert u * (n as real - 1.0) > 0.0;
    }
  }

  // ----- a uniform draft and a coarse guard are harmless -----

  lemma UniformRatio(q: seq<real>, u: real, eps: real, i: nat)
    requires IsDistribution(q, |q|) && eps > 0.0 && u > 0.0 && u + eps >= 1.0 && i < |q|
    ensures Times(u, Acceptance(q[i], u, eps)) == Times(q[i], Times(u, Recip(u + eps)))
  {
    EntryAtMostSum(q, i);
    AcceptanceIs(q[i], u, eps);
    RecipIs(u + eps);
    var a, r := Acceptance(q[i], u, eps), Recip(u + eps);
    hide Acceptance, Sum, Recip;
    assert a * (u + eps) == q[i] by {
      TimesUnit(u + eps);
    }
    assert r * (u + eps) == 1.0;
    assert a == a * (r * (u + eps)) == q[i] * r;
    assert u * a == q[i] * (u * r);
  }

  // The accepted mass is proportional to the target.
  lemma UniformKept(q: seq<real>, p: seq<real>, eps: real)
    requires IsDistribution(q, |q|) && |p| == |q| && eps > 0.0 && UniformAndCoarse(p, eps)
    ensures forall i :: 0 <= i < |q| ==> AcceptedMass(q, p, eps)[i] == Times(q[i], Sum(AcceptedMass(q, p, eps)))
  {
    UnitShare(|p|);
    var u: real := 1.0 / |p| as real;
    var c, kept := Times(u, Recip(u + eps)), AcceptedMass(q, p, eps);
    hide Sum, Times, Recip, Acceptance;
    forall i | 0 <= i < |q| ensures kept[i] == Scale(q, c)[i] {
      UniformRatio(q, u, eps, i);
    }
    assert kept == Scale(q, c);
    SumScale(q, c);
    TimesUnit(c);
  }

  function Smallest(a: seq<real>, u: real): (v: seq<real>)
    ensures |v| == |a|
  {
    seq(|a|, i requires 0 <= i < |a| => Min(a[i], u))
  }

  // A residual that is not smaller than the coarse guard is that of a single token.
  lemma WholeResidual(q: seq<real>, p: seq<real>, eps: real)
    requires IsDistribution(q, |q|) && |p| == |q| && eps > 0.0 && UniformAndCoarse(p, eps)
    requires Sum(PositivePart(q, p)) >= eps
    ensures AllClear(q, p, eps)
  {
    UnitShare(|p|);
    var u: real := 1.0 / |p| as real;
    var plus, low, j := PositivePart(q, p), Smallest(q, u), Largest(q);
    LargestAtLeast(q, u);
    SumPlus(q, plus, low);
    assert Sum(low) <= u;
    hide Sum;
    forall i | 0 <= i < |q| && i != j ensures q[i] == 0.0 && plus[i] == 0.0 {
      TwoEntries(low, if i < j then i else j, if i < j then j else i);
      assert low[i] == Min(q[i], u) && low[j] == u;
    }
    SumOfOne(plus, j);
  }

  lemma CoarseIsHarmless(q: seq<real>, p: seq<real>, eps: real)
    requires IsDistribution(q, |q|) && IsDistribution(p, |q|) && eps > 0.0 && UniformAndCoarse(p, eps)
    ensures Harmless(q, p, eps)
  {
    if Sum(PositivePart(q, p)) < eps {
      UniformKept(q, p, eps);
    } else {
      WholeResidual(q, p, eps);
      ClearIsExact(q, p, eps);
      ExactAtIff(q, p, eps);
    }
  }

  // ----- any other is not -----

  // p moved towards the uniform law by a fraction t.
  function Towards(p: seq<real>, t: real): (q: seq<real>)
    ensures |q| == |p|
  {
    seq(|p|, i requires 0 <= i < |p| => Scale(p, 1.0 - t)[i] + Scale(Uniform(|p|), t)[i])
  }

  lemma TowardsIs(p: seq<real>, t: real)
    requires IsDistribution(p, |p|) && |p| > 0 && 0.0 < t < 1.0
    ensures IsDistribution(Towards(p, t), |p|)
    ensures forall i :: 0 <= i < |p| ==> 0.0 < Towards(p, t)[i] <= p[i] + Times(1.0 / |p| as real, t)
  {
    UnitShare(|p|);
    UniformIs(|p|);
    var u: real := 1.0 / |p| as real;
    var a, b := Scale(p, 1.0 - t), Scale(Uniform(|p|), t);
    hide Sum, Times;
    SumScale(p, 1.0 - t);
    SumScale(Uniform(|p|), t);
    TimesUnit(t);
    TimesUnit(1.0 - t);
    SumPlus(Towards(p, t), a, b);
    forall i | 0 <= i < |p| ensures 0.0 < Towards(p, t)[i] <= p[i] + Times(u, t) {
      TimesSign(p[i], 1.0 - t);
      TimesSign(p[i], t);
      TimesSign(u, t);
      TimesPlus(p[i], 1.0 - t, t);
      TimesUnit(p[i]);
    }
  }

  lemma TowardsIsNear(p: seq<real>, t: real, eps: real)
    requires IsDistribution(p, |p|) && |p| > 0 && 0.0 < t < 1.0 && t < eps
    ensures IsDistribution(Towards(p, t), |p|) && Sum(PositivePart(Towards(p, t), p)) < eps
    ensures forall i :: 0 <= i < |p| ==> 0.0 < Towards(p, t)[i] < p[i] + eps
  {
    UnitShare(|p|);
    TowardsIs(p, t);
    var u: real := 1.0 / |p| as real;
    var plus := PositivePart(Towards(p, t), p);
    TimesSign(u, t);
    assert Times(u, t) <= t by {
      TimesMonotone(u, 1.0, t);
      TimesUnit(t);
    }
    SumAtMost(plus, Times(u, t));
    assert Times(|p| as real, Times(u, t)) == t by {
      TimesAssociates(|p| as real, u, t);
      TimesUnit(t);
    }
  }

  lemma Cancel(x: real, z: real)
    requires x * z == 0.0
    ensures x == 0.0 || z == 0.0
  {
  }

  // A common share is accepted of two tokens only if their draft masses are the same.
  lemma SharesAgree(a: real, b: real, x: real, y: real, k: real, eps: real)
    requires eps > 0.0 && x > 0.0 && y > 0.0
    requires Times(a, x) == Times(Times(x, a + eps), k) && Times(b, y) == Times(Times(y, b + eps), k)
    ensures a == b
  {
    assert x * (a - (a + eps) * k) == 0.0;
    assert y * (b - (b + eps) * k) == 0.0;
    Cancel(x, a - (a + eps) * k);
    Cancel(y, b - (b + eps) * k);
    assert (1.0 - k) * (a - b) == 0.0;
    Cancel(1.0 - k, a - b);
    assert k == 1.0 ==> (a + eps) * k == a + eps;
  }

  lemma UnevenDraftHarmed(p: seq<real>, eps: real, i: nat, j: nat)
    requires IsDistribution(p, |p|) && eps > 0.0 && i < |p| && j < |p| && p[i] != p[j]
    ensures !HarmlessForAll(p, eps)
  {
    var t := Min(eps, 1.0) / 2.0;
    var q := Towards(p, t);
    TowardsIsNear(p, t, eps);
    if Harmless(q, p, eps) {
      var k := Sum(AcceptedMass(q, p, eps));
      AcceptanceIs(q[i], p[i], eps);
      AcceptanceIs(q[j], p[j], eps);
      var x, y := Acceptance(q[i], p[i], eps), Acceptance(q[j], p[j], eps);
      hide Acceptance, Sum, Times, Towards;
      assert Times(p[i], x) == Times(q[i], k) && Times(p[j], y) == Times(q[j], k);
      TimesUnit(p[i] + eps);
      TimesUnit(p[j] + eps);
      SharesAgree(p[i], p[j], x, y, k, eps);
    }
  }

  // Mass d on token 0 and the rest on token 1.
  function TwoTokens(n: nat, d: real): (q: seq<real>)
    ensures |q| == n
  {
    seq(n, i requires 0 <= i < n => if i == 0 then d else if i == 1 then 1.0 - d else 0.0)
  }

  lemma TwoTokensIs(n: nat, d: real)
    requires n > 1 && 0.0 <= d <= 1.0
    ensures IsDistribution(TwoTokens(n, d), n)
  {
    var q := TwoTokens(n, d);
    SumOfOne(q[1..], 0);
  }

  lemma FineGuardHarms(p: seq<real>, eps: real)
    requires IsDistribution(p, |p|) && |p| > 1 && p == Uniform(|p|) && 0.0 < eps < 1.0 - 1.0 / |p| as real
    ensures !HarmlessForAll(p, eps)
  {
    UnitShare(|p|);
    var u: real := 1.0 / |p| as real;
    var d := Min(u, 1.0 - u - eps);
    var q := TwoTokens(|p|, d);
    TwoTokensIs(|p|, d);
    var plus := PositivePart(q, p);
    EntryAtMostSum(plus, 1);
    assert plus[1] >= eps;
    OverlapDistorts(q, p, eps, 0);
    ExactAtIff(q, p, eps);
  }

  // ----- exactly when -----

  lemma UniformOrUneven(p: seq<real>) returns (i: nat)
    requires IsDistribution(p, |p|) && |p| > 0
    ensures i < |p| && (p[i] == p[0] ==> p == Uniform(|p|))
  {
    if j: nat :| j < |p| && p[j] != p[0] {
      i := j;
    } else {
      i := 0;
      UnitShare(|p|);
      SumOfSame(p, p[0]);
      var u: real := 1.0 / |p| as real;
      assert p[0] == u by {
        TimesPlus(|p| as real, p[0], u - p[0]);
        assert |p| as real * (u - p[0]) == 0.0;
      }
      assert p == Uniform(|p|);
    }
  }

  // A guard is harmless at a draft law for every target if and only if the draft is uniform and the
  // guard coarse.
  lemma HarmlessForAllIff(p: seq<real>, eps: real)
    requires IsDistribution(p, |p|) && eps > 0.0
    ensures HarmlessForAll(p, eps) <==> UniformAndCoarse(p, eps)
  {
    assert |p| > 0 by {
      assert p != [];
    }
    var i := UniformOrUneven(p);
    UnitShare(|p|);
    var u: real := 1.0 / |p| as real;
    assert |p| == 1 ==> u == 1.0;
    if UniformAndCoarse(p, eps) {
      forall q: seq<real> | IsDistribution(q, |p|) ensures Harmless(q, p, eps) {
        CoarseIsHarmless(q, p, eps);
      }
    } else if p[i] != p[0] {
      UnevenDraftHarmed(p, eps, i, 0);
    } else {
      FineGuardHarms(p, eps);
    }
  }

  ghost predicate GuardFits(draft: seq<Token> -> seq<real>, eps: real) {
    eps == 0.0 || forall c: seq<Token> :: UniformAndCoarse(draft(c), eps)
  }

  ghost predicate LosslessForAll(vocab: nat, draft: seq<Token> -> seq<real>, rule: Rule) {
    forall target: seq<Token> -> seq<real>, steps: nat | steps > 0 && WellFormed(Models(vocab, draft, target)) ::
      LosslessUnder(Models(vocab, draft, target), rule, steps)
  }

  lemma GuardFitsOne(vocab: nat, draft: seq<Token> -> seq<real>, target: seq<Token> -> seq<real>, eps: real, steps: nat)
    requires WellFormed(Models(vocab, draft, target)) && steps > 0 && eps >= 0.0 && GuardFits(draft, eps)
    ensures LosslessUnder(Models(vocab, draft, target), GuardedRule(eps), steps)
  {
    var m := Models(vocab, draft, target);
    if eps == 0.0 {
      LosslessByAgreement(m, GuardedRule(0.0), steps);
    } else {
      hide LosslessUnder, Harmless, UniformAndCoarse;
      forall c: seq<Token> ensures |m.target(c)| == |m.draft(c)| && Harmless(m.target(c), m.draft(c), eps) {
        assert IsDistribution(m.draft(c), vocab) && IsDistribution(m.target(c), vocab);
        assert UniformAndCoarse(draft(c), eps);
        CoarseIsHarmless(m.target(c), m.draft(c), eps);
      }
      LosslessIffHarmless(m, eps, steps);
    }
  }

  lemma GuardFailsSomewhere(vocab: nat, draft: seq<Token> -> seq<real>, eps: real)
    requires (forall c: seq<Token> :: IsDistribution(draft(c), vocab)) && eps > 0.0 && !GuardFits(draft, eps)
    ensures !LosslessForAll(vocab, draft, GuardedRule(eps))
  {
    var c: seq<Token> :| !UniformAndCoarse(draft(c), eps);
    assert IsDistribution(draft(c), vocab);
    HarmlessForAllIff(draft(c), eps);
    hide LosslessUnder, Harmless, UniformAndCoarse;
    var q: seq<real> :| IsDistribution(q, vocab) && !Harmless(q, draft(c), eps);
    var target := (_: seq<Token>) => q;
    var m := Models(vocab, draft, target);
    assert WellFormed(m);
    LosslessIffHarmless(m, eps, 1);
    assert !Harmless(m.target(c), m.draft(c), eps);
    assert !HarmlessEverywhere(m, eps);
    assert !LosslessUnder(Models(vocab, draft, target), GuardedRule(eps), 1);
  }

  // For a given draft model, decoding is lossless for every target if and only if there is no guard, or
  // the draft is uniform in every context and the guard coarse.
  lemma LosslessForAllIff(vocab: nat, draft: seq<Token> -> seq<real>, eps: real)
    requires (forall c: seq<Token> :: IsDistribution(draft(c), vocab)) && eps >= 0.0
    ensures LosslessForAll(vocab, draft, GuardedRule(eps)) <==> GuardFits(draft, eps)
  {
    if GuardFits(draft, eps) {
      forall target: seq<Token> -> seq<real>, steps: nat | steps > 0 && WellFormed(Models(vocab, draft, target))
        ensures LosslessUnder(Models(vocab, draft, target), GuardedRule(eps), steps)
      {
        GuardFitsOne(vocab, draft, target, eps, steps);
      }
    } else {
      GuardFailsSomewhere(vocab, draft, eps);
    }
  }

  // ----- with top_k, and without draft probabilities -----

  lemma LosslessAlike(m: Models, rule: Rule, other: Rule, steps: nat)
    requires WellFormed(m) && steps > 0 && Agree(m, rule, other) && rule.eos == other.eos
    ensures LosslessUnder(m, other, steps) ==> LosslessUnder(m, rule, steps)
  {
    hide Expect, ChainProbability, Agree, Indicator;
    if LosslessUnder(m, other, steps) {
      forall prompt: seq<Token>, ys: seq<Token> | forall j :: 0 <= j < |ys| ==> ys[j] < m.vocab
        ensures Mass(DecodeTree(m, rule, steps, prompt, |ys|), prompt + ys) == ChainProbability(m, prompt, ys)
      {
        DecodeAgrees(m, rule, other, steps, prompt, |ys|, Indicator(prompt + ys));
      }
    }
  }

  lemma TopKAgrees(vocab: nat, draft: seq<Token> -> seq<real>, target: seq<Token> -> seq<real>, k: nat, eps: real)
    requires DropsNothing(draft, k)
    ensures Agree(Models(vocab, draft, target), TopKRule(eps, k), GuardedRule(eps))
    ensures Agree(Models(vocab, draft, target), GuardedRule(eps), TopKRule(eps, k))
  {
    hide TopK, Acceptance, Residual;
  }

  lemma TopKFailsSomewhere(vocab: nat, draft: seq<Token> -> seq<real>, k: nat, eps: real)
    requires (forall c: seq<Token> :: IsDistribution(draft(c), vocab)) && eps >= 0.0 && !DropsNothing(draft, k)
    ensures !LosslessForAll(vocab, draft, TopKRule(eps, k))
  {
    var c :| TopK(draft(c), k) != draft(c);
    var m := Models(vocab, draft, draft);
    assert IsDistribution(draft(c), vocab);
    hide TopK, Sum, LosslessUnder, OneTokenMass, Proper;
    var x := Dropped(draft(c), k);
    TopKDistorts(draft(c), k, eps, x);
    assert !LosslessUnder(m, TopKRule(eps, k), 1) by {
      if LosslessUnder(m, TopKRule(eps, k), 1) {
        LosslessOneToken(m, TopKRule(eps, k), 1, c, x);
      }
    }
  }

  // Drafting with top_k is lossless for every target if and only if it drops nothing that has mass, and
  // drafting without it is.
  lemma TopKLosslessForAllIff(vocab: nat, draft: seq<Token> -> seq<real>, k: nat, eps: real)
    requires (forall c: seq<Token> :: IsDistribution(draft(c), vocab)) && eps >= 0.0
    ensures LosslessForAll(vocab, draft, TopKRule(eps, k)) <==> DropsNothing(draft, k) && GuardFits(draft, eps)
  {
    if !DropsNothing(draft, k) {
      TopKFailsSomewhere(vocab, draft, k, eps);
    } else {
      LosslessForAllIff(vocab, draft, eps);
      hide LosslessUnder, DropsNothing, GuardFits, Agree;
      forall target: seq<Token> -> seq<real>, steps: nat | steps > 0 && WellFormed(Models(vocab, draft, target))
        ensures LosslessUnder(Models(vocab, draft, target), TopKRule(eps, k), steps) <==>
                LosslessUnder(Models(vocab, draft, target), GuardedRule(eps), steps)
      {
        TopKAgrees(vocab, draft, target, k, eps);
        LosslessAlike(Models(vocab, draft, target), TopKRule(eps, k), GuardedRule(eps), steps);
        LosslessAlike(Models(vocab, draft, target), GuardedRule(eps), TopKRule(eps, k), steps);
      }
    }
  }

  // The uniform law with a little mass moved from token 1 to token 0.
  function Tilted(n: nat, d: real): (q: seq<real>)
    ensures |q| == n
  {
    seq(n, i requires 0 <= i < n => Uniform(n)[i] + if i == 0 then d else if i == 1 then -d else 0.0)
  }

  lemma TiltedIs(n: nat, d: real)
    requires n > 1 && 0.0 <= d <= 1.0 / n as real
    ensures IsDistribution(Tilted(n, d), n)
    ensures Sum(PositivePart(Tilted(n, d), Uniform(n))) == PositivePart(Tilted(n, d), Uniform(n))[0] == d
  {
    UnitShare(n);
    UniformIs(n);
    var e := seq(n, i requires 0 <= i < n => if i == 0 then d else if i == 1 then -d else 0.0);
    SumOfOne(e[1..], 0);
    SumPlus(Tilted(n, d), Uniform(n), e);
    SumOfOne(PositivePart(Tilted(n, d), Uniform(n)), 0);
  }

  // What is accepted of it, drafted uniformly.
  lemma TiltedKept(n: nat, d: real, eps: real)
    requires n > 1 && 0.0 <= d <= 1.0 / n as real
    ensures |UnclaimedRule(n, eps).propose(Uniform(n))| == n
    ensures var kept := KeptMass(UnclaimedRule(n, eps), Tilted(n, d), Uniform(n));
            kept[1] == Tilted(n, d)[1] && Sum(kept) == 1.0 - d
  {
    UnitShare(n);
    UniformIs(n);
    TiltedIs(n, d);
    var q, p, u: real := Tilted(n, d), Uniform(n), 1.0 / n as real;
    NormaliseDistribution(p);
    var kept, plus := KeptMass(UnclaimedRule(n, eps), q, p), PositivePart(q, p);
    hide Sum;
    forall i | 0 <= i < n ensures q[i] == kept[i] + plus[i] {
      ShareKept(u, n, q[i], if i == 0 then d else 0.0);
    }
    SumPlus(q, kept, plus);
  }

  lemma ShareKept(u: real, n: nat, q: real, d: real)
    requires Times(n as real, u) == 1.0 && u > 0.0 && d >= 0.0 && q >= 0.0 && (if d > 0.0 then q == u + d else q <= u)
    ensures Times(u, Min(1.0, Times(q, n as real))) == q - d
  {
    hide Times;
    var r := n as real;
    TimesUnit(u);
    TimesCommutes(r, u);
    if d > 0.0 {
      TimesPlus(r, u, d);
      TimesCommutes(q, r);
      TimesSign(r, d);
    } else {
      TimesMonotone(q, u, r);
      TimesCommutes(q, r);
      TimesAssociates(u, r, q);
      TimesUnit(q);
    }
  }

  lemma TiltedDistorts(n: nat, d: real, eps: real)
    requires n > 1 && 0.0 < d < 1.0 / n as real && d < eps
    ensures var rule, q, p := UnclaimedRule(n, eps), Tilted(n, d), Uniform(n);
            Proper(rule, q, p) && OneTokenMass(rule, q, p, 1) != q[1]
  {
    UnitShare(n);
    UniformIs(n);
    TiltedIs(n, d);
    TiltedKept(n, d, eps);
    var q, p := Tilted(n, d), Uniform(n);
    ResampledIs(q, p, eps);
    NormaliseDistribution(q);
    hide Sum, Residual;
    assert Normalise(UnclaimedRule(n, eps).resample(q, p)) == Resampled(q, p, eps) == q;
    Positive(d, q[1]);
  }

  lemma UnclaimedFailsUnevenly(vocab: nat, draft: seq<Token> -> seq<real>, eps: real, c: seq<Token>)
    requires vocab > 0 && (forall c: seq<Token> :: IsDistribution(draft(c), vocab)) && draft(c) != Uniform(vocab)
    ensures !LosslessForAll(vocab, draft, UnclaimedRule(vocab, eps))
  {
    assert IsDistribution(draft(c), vocab);
    var x: nat :| x < vocab && draft(c)[x] != Uniform(vocab)[x];
    var target := (_: seq<Token>) => Uniform(vocab);
    var m := Models(vocab, draft, target);
    UniformIs(vocab);
    UnclaimedLaw(Uniform(vocab), draft(c), eps, x);
    hide Sum, LosslessUnder, OneTokenMass, Proper, Uniform;
    assert !LosslessUnder(m, UnclaimedRule(vocab, eps), 1) by {
      if LosslessUnder(m, UnclaimedRule(vocab, eps), 1) {
        LosslessOneToken(m, UnclaimedRule(vocab, eps), 1, c, x);
      }
    }
  }

  lemma UnclaimedFailsGuarded(vocab: nat, draft: seq<Token> -> seq<real>, eps: real)
    requires vocab > 1 && eps > 0.0 && forall c: seq<Token> :: draft(c) == Uniform(vocab)
    ensures !LosslessForAll(vocab, draft, UnclaimedRule(vocab, eps))
  {
    UnitShare(vocab);
    UniformIs(vocab);
    var d := Min(eps, 1.0 / vocab as real) / 2.0;
    TiltedIs(vocab, d);
    TiltedDistorts(vocab, d, eps);
    var target := (_: seq<Token>) => Tilted(vocab, d);
    var m := Models(vocab, draft, target);
    hide Sum, LosslessUnder, OneTokenMass, Proper, Uniform, Tilted, NonNegative;
    assert WellFormed(m);
    assert m.draft([]) == Uniform(vocab);
    assert !LosslessUnder(m, UnclaimedRule(vocab, eps), 1) by {
      if LosslessUnder(m, UnclaimedRule(vocab, eps), 1) {
        LosslessOneToken(m, UnclaimedRule(vocab, eps), 1, [], 1);
      }
    }
  }

  // Verification without draft probabilities is lossless for every target if and only if there is no
  // guard and the drafts are drawn uniformly.
  lemma UnclaimedLosslessForAllIff(vocab: nat, draft: seq<Token> -> seq<real>, eps: real)
    requires vocab > 1 && (forall c: seq<Token> :: IsDistribution(draft(c), vocab)) && eps >= 0.0
    ensures LosslessForAll(vocab, draft, UnclaimedRule(vocab, eps)) <==>
            eps == 0.0 && forall c: seq<Token> :: draft(c) == Uniform(vocab)
  {
    hide LosslessUnder;
    if c: seq<Token> :| draft(c) != Uniform(vocab) {
      UnclaimedFailsUnevenly(vocab, draft, eps, c);
    } else if eps == 0.0 {
      UnclaimedLosslessIff(vocab, draft);
    } else {
      UnclaimedFailsGuarded(vocab, draft, eps);
    }
  }
}
