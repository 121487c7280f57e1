// Stopping at the end-of-sequence token: the decode loop looks for it once per block, plain decoding
// once per token, so what they return agrees in law up to the first such token only.
module SpeculativeEos {
  import opened Collections
  import opened Outcomes
  import opened Vectors
  import opened SpeculativeLaw
  import opened SpeculativePosition
  import opened SpeculativeLossless
  import opened SpeculativeDecoder
  import opened SpeculativeRules
  import opened SpeculativeProposals

  // f does not look beyond the first eos at or after position start.
  ghost predicate Blind(f: seq<Token> -> real, start: nat, eos: Token) {
    forall c: seq<Token>, more: seq<Token> :: |c| >= start && eos in c[start..] ==> f(c + more) == f(c)
  }

  // f has the same value on all texts that start with the context.
  ghost predicate Settled(f: seq<Token> -> real, context: seq<Token>, v: real) {
    forall more: seq<Token> :: f(context + more) == v
  }

  lemma SettledMore(f: seq<Token> -> real, context: seq<Token>, v: real, more: seq<Token>)
    requires Settled(f, context, v)
    ensures Settled(f, context + more, v) && f(context + more) == v && f(context) == v
  {
    assert context + [] == context;
    forall rest: seq<Token> ensures f(context + more + rest) == v {
      assert context + more + rest == context + (more + rest);
    }
  }

  lemma SettledByEos(f: seq<Token> -> real, start: nat, eos: Token, context: seq<Token>, tokens: seq<Token>)
    requires Blind(f, start, eos) && |context| >= start && eos in tokens
    ensures Settled(f, context + tokens, f(context + tokens))
  {
    var c := context + tokens;
    var i :| 0 <= i < |tokens| && tokens[i] == eos;
    assert c[start..][|context| - start + i] == eos;
  }

  // ----- plain decoding -----

  lemma {:induction false} PlainSettled(m: Models, context: seq<Token>, remaining: nat, f: seq<Token> -> real, v: real)
    requires WellFormed(m) && Settled(f, context, v)
    ensures Expect(PlainTree(m, context, remaining), f) == v
    decreases remaining
  {
    SettledMore(f, context, v, []);
    if remaining == 0 {
    } else {
      hide Settled, Sum, NonNegative;
      assert IsDistribution(m.target(context), m.vocab);
      assert NonNegative(m.target(context)) && Sum(m.target(context)) == 1.0;
      forall x | 0 <= x < m.vocab ensures Expect(PlainTree(m, context + [x], remaining - 1), f) == v {
        SettledMore(f, context, v, [x]);
        PlainSettled(m, context + [x], remaining - 1, f, v);
      }
      hide Expect;
      DrawSettled(PlainTree(m, context, remaining), f, v);
    }
  }

  // What comes after the first eos makes no difference to f, so stopping there makes none either.
  lemma {:induction false} PlainUntilSame(m: Models, eos: Token, context: seq<Token>, remaining: nat,
                                          f: seq<Token> -> real, start: nat)
    requires WellFormed(m) && |context| >= start && Blind(f, start, eos)
    ensures Expect(PlainUntil(m, Some(eos), context, remaining), f) == Expect(PlainTree(m, context, remaining), f)
    decreases remaining
  {
    if remaining == 0 {
    } else {
      hide Blind, Sum, NonNegative;
      var t, u := PlainUntil(m, Some(eos), context, remaining), PlainTree(m, context, remaining);
      assert IsDistribution(m.target(context), m.vocab);
      forall x | 0 <= x < m.vocab ensures Expect(t.branches[x], f) == Expect(u.branches[x], f) {
        if x == eos {
          SettledByEos(f, start, eos, context, [x]);
          PlainSettled(m, context + [x], remaining - 1, f, f(context + [x]));
        } else {
          PlainUntilSame(m, eos, context + [x], remaining - 1, f, start);
        }
      }
      hide Expect;
      DrawSame(t, u, f);
    }
  }

  lemma {:induction false} PlainUntilNone(m: Models, context: seq<Token>, remaining: nat)
    requires WellFormed(m)
    ensures PlainUntil(m, None, context, remaining) == PlainTree(m, context, remaining)
    decreases remaining
  {
    if remaining == 0 {
    } else {
      var t, u := PlainUntil(m, None, context, remaining), PlainTree(m, context, remaining);
      forall x | 0 <= x < |t.branches| ensures t.branches[x] == u.branches[x] {
        PlainUntilNone(m, context + [x], remaining - 1);
      }
      assert t.branches == u.branches;
    }
  }

  // ----- speculative decoding -----

  function UntilRule(eps: real, eos: Token): Rule {
    GuardedRule(eps).(eos := Some(eos))
  }

  // The weights a guarded rule resamples from can be normalised.
  lemma ResampleProper(q: seq<real>, p: seq<real>, eps: real)
    requires IsDistribution(q, |q|) && IsDistribution(p, |q|) && eps > 0.0
    ensures NonNegative(Residual(q, p, eps)) && Sum(Residual(q, p, eps)) > 0.0
  {
    hide Residual;
    ResampledIs(q, p, eps);
  }

  ghost predicate EmitsSettled(m: Models, eps: real, steps: nat, context: seq<Token>, remaining: nat,
                               f: seq<Token> -> real, v: real)
    requires WellFormed(m) && steps > 0 && remaining > 0
  {
    forall tokens: seq<Token> :: |tokens| > 0 ==>
      Expect(EmitTree(m, GuardedRule(eps), steps, context, remaining, tokens), f) == v
  }

  lemma {:induction false} VerifySettled(m: Models, eps: real, steps: nat, context: seq<Token>, remaining: nat,
                                         drafts: seq<Token>, i: nat, f: seq<Token> -> real, v: real)
    requires DraftState(m, steps, remaining, drafts) && i <= |drafts| && eps > 0.0
    requires EmitsSettled(m, eps, steps, context, remaining, f, v)
    ensures Expect(VerifyTree(m, GuardedRule(eps), steps, context, remaining, drafts, i), f) == v
    decreases |drafts| - i
  {
    hide Sum, NonNegative, Residual, EmitTree, Acceptance;
    var q, p := m.target(context + drafts[..i]), m.draft(context + drafts[..i]);
    assert IsDistribution(q, m.vocab) && IsDistribution(p, m.vocab);
    var t := VerifyTree(m, GuardedRule(eps), steps, context, remaining, drafts, i);
    if i == |drafts| {
      assert NonNegative(q) && Sum(q) == 1.0;
      forall x | 0 <= x < m.vocab ensures Expect(t.branches[x], f) == v {
        assert |drafts + [x]| > 0;
      }
      hide Expect;
      DrawSettled(t, f, v);
    } else {
      ResampleProper(q, p, eps);
      forall x | 0 <= x < m.vocab ensures Expect(t.no.branches[x], f) == v {
        assert |drafts[..i] + [x]| > 0;
      }
      VerifySettled(m, eps, steps, context, remaining, drafts, i + 1, f, v);
      hide Expect;
      DrawSettled(t.no, f, v);
      FlipSettled(t.alpha, t.yes, t.no, f, v);
    }
  }

  lemma {:induction false} DraftSettled(m: Models, eps: real, steps: nat, context: seq<Token>, remaining: nat,
                                        drafts: seq<Token>, f: seq<Token> -> real, v: real)
    requires DraftState(m, steps, remaining, drafts) && eps > 0.0
    requires EmitsSettled(m, eps, steps, context, remaining, f, v)
    ensures Expect(DraftTree(m, GuardedRule(eps), steps, context, remaining, drafts, 0), f) == v
    decreases Smaller(steps, remaining) - |drafts|
  {
    if |drafts| == Smaller(steps, remaining) {
      VerifySettled(m, eps, steps, context, remaining, drafts, 0, f, v);
    } else {
      var t := DraftTree(m, GuardedRule(eps), steps, context, remaining, drafts, 0);
      DraftUnfold(m, GuardedRule(eps), steps, context, remaining, drafts, 0);
      hide Sum, NonNegative, DraftTree, Expect, EmitsSettled, GuardedRule;
      assert NonNegative(t.weights) && Sum(t.weights) == 1.0;
      forall x | 0 <= x < m.vocab ensures Expect(t.branches[x], f) == v {
        DraftSettled(m, eps, steps, context, remaining, drafts + [x], f, v);
      }
      DrawSettled(t, f, v);
    }
  }

  lemma {:induction false} DecodeSettled(m: Models, eps: real, steps: nat, context: seq<Token>, remaining: nat,
                                         f: seq<Token> -> real, v: real)
    requires WellFormed(m) && steps > 0 && eps > 0.0 && Settled(f, context, v)
    ensures Expect(DecodeTree(m, GuardedRule(eps), steps, context, remaining), f) == v
    decreases remaining
  {
    SettledMore(f, context, v, []);
    if remaining == 0 {
    } else {
      hide Settled;
      forall tokens: seq<Token> | |tokens| > 0
        ensures Expect(EmitTree(m, GuardedRule(eps), steps, context, remaining, tokens), f) == v
      {
        var kept := tokens[..Smaller(|tokens|, remaining)];
        SettledMore(f, context, v, kept);
        DecodeSettled(m, eps, steps, context + kept, remaining - |kept|, f, v);
      }
      DraftSettled(m, eps, steps, context, remaining, [], f, v);
    }
  }

  lemma {:induction false} DecodeSame(m: Models, eps: real, eos: Token, steps: nat, context: seq<Token>, remaining: nat,
                                      f: seq<Token> -> real, start: nat)
    requires WellFormed(m) && steps > 0 && eps > 0.0 && |context| >= start && Blind(f, start, eos)
    ensures Expect(DecodeTree(m, UntilRule(eps, eos), steps, context, remaining), f) ==
            Expect(DecodeTree(m, GuardedRule(eps), steps, context, remaining), f)
    decreases remaining
  {
    if remaining == 0 {
    } else {
      hide Blind;
      forall tokens: seq<Token> | |tokens| > 0
        ensures Expect(EmitTree(m, UntilRule(eps, eos), steps, context, remaining, tokens), f) ==
                Expect(EmitTree(m, GuardedRule(eps), steps, context, remaining, tokens), f)
      {
        var kept := tokens[..Smaller(|tokens|, remaining)];
        if eos in kept {
          SettledByEos(f, start, eos, context, kept);
          DecodeSettled(m, eps, steps, context + kept, remaining - |kept|, f, f(context + kept));
        } else {
          DecodeSame(m, eps, eos, steps, context + kept, remaining - |kept|, f, start);
        }
      }
      assert Agree(m, UntilRule(eps, eos), GuardedRule(eps));
      DraftSame(m, UntilRule(eps, eos), GuardedRule(eps), steps, context, remaining, [], f);
    }
  }

  // ----- the law up to the first eos -----

  // With the stop token, every observation that does not look beyond its first occurrence has the
  // expectation it has under plain decoding that stops there, up to the guard.
  lemma DecodeNearUntil(m: Models, eps: real, steps: nat, prompt: seq<Token>, budget: nat, eos: Token,
                        f: seq<Token> -> real, bound: real)
    requires WellFormed(m) && steps > 0 && eps > 0.0 && Bounded(f, bound) && bound >= 0.0 && Blind(f, |prompt|, eos)
    ensures Near(Expect(DecodeTree(m, UntilRule(eps, eos), steps, prompt, budget), f),
                 Expect(PlainUntil(m, Some(eos), prompt, budget), f), Budget(budget, m.vocab, eps, bound))
  {
    hide Expect, Blind, Bounded;
    DecodeSame(m, eps, eos, steps, prompt, budget, f, |prompt|);
    PlainUntilSame(m, eos, prompt, budget, f, |prompt|);
    DecodeNear(m, eps, steps, prompt, budget, f, bound);
  }

  ghost predicate BlindTo(f: seq<Token> -> real, start: nat, eos: Option<Token>) {
    eos.Some? ==> Blind(f, start, eos.value)
  }

  // The decode loop as DecodeSpeculative runs it, against plain decoding as DecodePlain runs it: with the
  // code's guard and stop token, and with a top_k that drops nothing, 0 for instance.
  lemma CodeNear(m: Models, steps: nat, prompt: seq<Token>, budget: nat, topK: nat, eos: Option<Token>,
                 f: seq<Token> -> real, bound: real)
    requires WellFormed(m) && steps > 0 && Bounded(f, bound) && bound >= 0.0 && BlindTo(f, |prompt|, eos)
    requires DropsNothing(m.draft, topK)
    ensures Near(Expect(DecodeTree(m, CodeRule(true, m.vocab, topK, eos), steps, prompt, budget), f),
                 Expect(PlainUntil(m, eos, prompt, budget), f), Budget(budget, m.vocab, 0.0000000001, bound))
  {
    var rule, plain := CodeRule(true, m.vocab, topK, eos), GuardedRule(EPS).(eos := eos);
    assert Agree(m, rule, plain) by {
      hide TopK, Acceptance, Residual;
    }
    hide Expect, Blind, Bounded, Agree;
    DecodeAgrees(m, rule, plain, steps, prompt, budget, f);
    match eos
    case Some(token) => DecodeNearUntil(m, EPS, steps, prompt, budget, token, f, bound);
    case None =>
      assert plain == GuardedRule(EPS);
      PlainUntilNone(m, prompt, budget);
      DecodeNear(m, EPS, steps, prompt, budget, f, bound);
  }

  // Without top_k, for all models.
  lemma CodeNearWithoutTopK(m: Models, steps: nat, prompt: seq<Token>, budget: nat, eos: Option<Token>,
                            f: seq<Token> -> real, bound: real)
    requires WellFormed(m) && steps > 0 && Bounded(f, bound) && bound >= 0.0 && BlindTo(f, |prompt|, eos)
    ensures Near(Expect(DecodeTree(m, CodeRule(true, m.vocab, 0, eos), steps, prompt, budget), f),
                 Expect(PlainUntil(m, eos, prompt, budget), f), Budget(budget, m.vocab, 0.0000000001, bound))
  {
    forall c: seq<Token> ensures TopK(m.draft(c), 0) == m.draft(c) {
    }
    CodeNear(m, steps, prompt, budget, 0, eos, f, bound);
  }

  // The text up to and including the first eos.
  function Cut(tokens: seq<Token>, eos: Token): seq<Token> {
    if |tokens| == 0 then []
    else if tokens[0] == eos then [eos]
    else [tokens[0]] + Cut(tokens[1..], eos)
  }

  lemma {:induction false} CutMore(tokens: seq<Token>, eos: Token, more: seq<Token>)
    requires eos in tokens
    ensures Cut(tokens + more, eos) == Cut(tokens, eos)
  {
    if tokens[0] == eos {
    } else {
      assert tokens == [tokens[0]] + tokens[1..];
      assert (tokens + more)[1..] == tokens[1..] + more;
      CutMore(tokens[1..], eos, more);
    }
  }

  ghost function CutIndicator(start: nat, eos: Token, ys: seq<Token>): seq<Token> -> real {
    c => if |c| >= start && Cut(c[start..], eos) == ys then 1.0 else 0.0
  }

  lemma CutIsBlind(start: nat, eos: Token, ys: seq<Token>)
    ensures Blind(CutIndicator(start, eos, ys), start, eos) && Bounded(CutIndicator(start, eos, ys), 1.0)
  {
    var f := CutIndicator(start, eos, ys);
    forall c: seq<Token>, more: seq<Token> | |c| >= start && eos in c[start..] ensures f(c + more) == f(c) {
      assert (c + more)[start..] == c[start..] + more;
      CutMore(c[start..], eos, more);
    }
  }

  // Every text up to the first eos is generated with the probability it has under plain decoding, up
  // to the guard.
  lemma CutLaw(m: Models, eps: real, steps: nat, prompt: seq<Token>, budget: nat, eos: Token, ys: seq<Token>)
    requires WellFormed(m) && steps > 0 && eps > 0.0
    ensures Near(Expect(DecodeTree(m, UntilRule(eps, eos), steps, prompt, budget), CutIndicator(|prompt|, eos, ys)),
                 Expect(PlainUntil(m, Some(eos), prompt, budget), CutIndicator(|prompt|, eos, ys)),
                 Budget(budget, m.vocab, eps, 1.0))
  {
    CutIsBlind(|prompt|, eos, ys);
    DecodeNearUntil(m, eps, steps, prompt, budget, eos, CutIndicator(|prompt|, eos, ys), 1.0);
  }

  // ----- beyond it -----

  // A vocabulary of a single token, which is the stop token.
  function OnlyEos(): Models {
    Models(1, (c: seq<Token>) => [1.0], (c: seq<Token>) => [1.0])
  }

  lemma OnlyEosProper(eps: real)
    requires eps > 0.0
    ensures WellFormed(OnlyEos()) && IsDistribution([1.0], 1)
    ensures NonNegative(Residual([1.0], [1.0], eps)) && Sum(Residual([1.0], [1.0], eps)) > 0.0
    ensures 0.0 < Acceptance(1.0, 1.0, eps) < 1.0
  {
    assert [1.0][1..] == [];
    assert Sum([1.0]) == 1.0;
    AcceptanceIs(1.0, 1.0, eps);
    ResampleProper([1.0], [1.0], eps);
    hide Residual, Acceptance;
    var a := Acceptance(1.0, 1.0, eps);
    TimesUnit(1.0 + eps);
  }

  // A draw from the only token there is.
  lemma OneBranch(t: Tree, f: seq<Token> -> real)
    requires t.Draw? && |t.weights| == |t.branches| == 1 && NonNegative(t.weights) && Sum(t.weights) > 0.0
    ensures Expect(t, f) == Expect(t.branches[0], f)
  {
    hide Expect;
    DrawSettled(t, f, Expect(t.branches[0], f));
  }

  lemma EmitEos(eps: real, prompt: seq<Token>, tokens: seq<Token>)
    requires WellFormed(OnlyEos()) && |tokens| > 0 && 0 in tokens[..Smaller(|tokens|, 2)]
    ensures EmitTree(OnlyEos(), UntilRule(eps, 0), 2, prompt, 2, tokens) ==
            Done(prompt + tokens[..Smaller(|tokens|, 2)])
  {
  }

  // After the first of two drafts.
  lemma SecondAccepted(eps: real, prompt: seq<Token>, f: seq<Token> -> real)
    requires eps > 0.0 && WellFormed(OnlyEos()) && f == Indicator(prompt + [0, 0])
    ensures Expect(VerifyTree(OnlyEos(), UntilRule(eps, 0), 2, prompt, 2, [0, 0], 1), f) == 1.0
  {
    OnlyEosProper(eps);
    var m, rule := OnlyEos(), UntilRule(eps, 0);
    var t := VerifyTree(m, rule, 2, prompt, 2, [0, 0], 1);
    assert [0, 0][..1] == [0] && [0] + [0] == [0, 0] && [0, 0] + [0] == [0, 0, 0] && [0, 0, 0][..2] == [0, 0] &&
           [0, 0][..2] == [0, 0];
    EmitEos(eps, prompt, [0, 0]);
    EmitEos(eps, prompt, [0, 0, 0]);
    hide Residual, Acceptance, Sum, EmitTree, Mix;
    OneBranch(t.yes, f);
    OneBranch(t.no, f);
    FlipSettled(t.alpha, t.yes, t.no, f, 1.0);
  }

  lemma FirstAccepted(eps: real, prompt: seq<Token>, f: seq<Token> -> real)
    requires eps > 0.0 && WellFormed(OnlyEos()) && f == Indicator(prompt + [0, 0])
    ensures Expect(VerifyTree(OnlyEos(), UntilRule(eps, 0), 2, prompt, 2, [0, 0], 0), f) == Acceptance(1.0, 1.0, eps)
  {
    OnlyEosProper(eps);
    SecondAccepted(eps, prompt, f);
    var m, rule := OnlyEos(), UntilRule(eps, 0);
    var t := VerifyTree(m, rule, 2, prompt, 2, [0, 0], 0);
    assert [0, 0][..0] == [] && [] + [0] == [0] && [0][..1] == [0];
    EmitEos(eps, prompt, [0]);
    assert |prompt + [0]| != |prompt + [0, 0]|;
    hide Residual, Acceptance, Sum, EmitTree, VerifyTree, Times;
    OneBranch(t.no, f);
    TimesUnit(t.alpha);
    TimesUnit(1.0 - t.alpha);
  }

  // Plain decoding then returns one token, but two drafts can be accepted together.
  lemma PastEos(eps: real, prompt: seq<Token>)
    requires eps > 0.0
    ensures WellFormed(OnlyEos())
    ensures Mass(PlainUntil(OnlyEos(), Some(0), prompt, 2), prompt + [0]) == 1.0
    ensures Mass(DecodeTree(OnlyEos(), UntilRule(eps, 0), 2, prompt, 2), prompt + [0, 0]) ==
            Acceptance(1.0, 1.0, eps) > 0.0
  {
    OnlyEosProper(eps);
    var m, rule := OnlyEos(), UntilRule(eps, 0);
    OneBranch(PlainUntil(m, Some(0), prompt, 2), Indicator(prompt + [0]));
    var f := Indicator(prompt + [0, 0]);
    FirstAccepted(eps, prompt, f);
    assert [] + [0] == [0] && [0] + [0] == [0, 0];
    DraftUnfold(m, rule, 2, prompt, 2, [], 0);
    DraftUnfold(m, rule, 2, prompt, 2, [0], 0);
    hide Acceptance, Sum, VerifyTree, Expect;
    OneBranch(DraftTree(m, rule, 2, prompt, 2, [0], 0), f);
    OneBranch(DraftTree(m, rule, 2, prompt, 2, [], 0), f);
  }
}
