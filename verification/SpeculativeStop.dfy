// What the decode loop returns beyond the stop token: for which models nothing follows it.
module SpeculativeStop {
  import opened Collections
  import opened Outcomes
  import opened Vectors
  import opened SpeculativeLaw
  import opened SpeculativePosition
  import opened SpeculativeLossless
  import opened SpeculativeDecoder
  import opened SpeculativeGuard
  import opened SpeculativeRules
  import opened SpeculativeEos

  // Whether something follows the stop token in what was generated from position start on.
  ghost function Beyond(start: nat, eos: Token): seq<Token> -> real {
    c => if |c| > start && eos in c[start..|c| - 1] then 1.0 else 0.0
  }

  // ----- signs of expectations -----

  lemma {:induction false} DotOfZeros(w: seq<real>, v: seq<real>)
    requires |w| == |v| && forall i :: 0 <= i < |w| ==> w[i] == 0.0 || v[i] == 0.0
    ensures Dot(w, v) == 0.0
  {
    if |w| == 0 {
    } else {
      DotOfZeros(w[1..], v[1..]);
      TimesUnit(w[0]);
      TimesUnit(v[0]);
    }
  }

  lemma {:induction false} DotSign(w: seq<real>, v: seq<real>)
    requires |w| == |v| && NonNegative(w) && NonNegative(v)
    ensures Dot(w, v) >= 0.0
  {
    if |w| == 0 {
    } else {
      DotSign(w[1..], v[1..]);
      TimesSign(w[0], v[0]);
    }
  }

  lemma {:induction false} DotPositive(w: seq<real>, v: seq<real>, i: nat)
    requires |w| == |v| && NonNegative(w) && NonNegative(v) && i < |w| && w[i] > 0.0 && v[i] > 0.0
    ensures Dot(w, v) > 0.0
  {
    TimesSign(w[0], v[0]);
    if i == 0 {
      DotSign(w[1..], v[1..]);
    } else {
      DotPositive(w[1..], v[1..], i - 1);
    }
  }

  // The weights of a draw can be normalised, and there is one branch for each.
  ghost predicate ProperDraw(t: Tree) {
    t.Draw? && |t.weights| == |t.branches| && NonNegative(t.weights) && Sum(t.weights) > 0.0
  }

  lemma NormalisedSign(w: seq<real>, i: nat)
    requires NonNegative(w) && Sum(w) > 0.0 && i < |w|
    ensures w[i] == 0.0 ==> Normalise(w)[i] == 0.0
    ensures w[i] > 0.0 ==> Normalise(w)[i] > 0.0
  {
    hide Sum, Recip, Times;
    RecipIs(Sum(w));
    TimesUnit(Recip(Sum(w)));
    TimesSign(w[i], Recip(Sum(w)));
  }

  lemma DrawZero(t: Tree, f: seq<Token> -> real)
    requires ProperDraw(t) && forall x :: 0 <= x < |t.branches| ==>
             t.weights[x] == 0.0 || Expect(t.branches[x], f) == 0.0
    ensures Expect(t, f) == 0.0
  {
    hide Expect, Normalise, Sum, NonNegative, Dot;
    DrawExpect(t, f);
    forall i | 0 <= i < |t.weights| ensures Normalise(t.weights)[i] == 0.0 || Values(t.branches, f)[i] == 0.0 {
      NormalisedSign(t.weights, i);
    }
    DotOfZeros(Normalise(t.weights), Values(t.branches, f));
  }

  lemma DrawSign(t: Tree, f: seq<Token> -> real)
    requires ProperDraw(t) && forall x :: 0 <= x < |t.branches| ==> Expect(t.branches[x], f) >= 0.0
    ensures Expect(t, f) >= 0.0
    ensures forall x :: 0 <= x < |t.branches| && t.weights[x] > 0.0 && Expect(t.branches[x], f) > 0.0 ==>
            Expect(t, f) > 0.0
  {
    hide Expect, Normalise, Sum, Dot;
    DrawExpect(t, f);
    NormaliseSum(t.weights);
    var w, v := Normalise(t.weights), Values(t.branches, f);
    DotSign(w, v);
    forall x | 0 <= x < |t.branches| && t.weights[x] > 0.0 && Expect(t.branches[x], f) > 0.0
      ensures Expect(t, f) > 0.0 {
      NormalisedSign(t.weights, x);
      DotPositive(w, v, x);
    }
  }

  lemma FlipSign(alpha: real, yes: Tree, no: Tree, f: seq<Token> -> real)
    requires 0.0 <= alpha <= 1.0 && Expect(yes, f) >= 0.0 && Expect(no, f) >= 0.0
    ensures Expect(Flip(alpha, yes, no), f) >= 0.0
    ensures alpha > 0.0 && Expect(yes, f) > 0.0 ==> Expect(Flip(alpha, yes, no), f) > 0.0
    ensures alpha == 0.0 ==> Expect(Flip(alpha, yes, no), f) == Expect(no, f)
  {
    TimesSign(alpha, Expect(yes, f));
    TimesSign(1.0 - alpha, Expect(no, f));
    TimesUnit(Expect(yes, f));
    TimesUnit(Expect(no, f));
  }

  // ----- rules whose draws are proper -----

  ghost predicate ProperAt(m: Models, rule: Rule, c: seq<Token>) {
    var s, w := rule.propose(m.draft(c)), rule.resample(m.target(c), m.draft(c));
    && |m.target(c)| == |m.draft(c)| == |s| == |w| == m.vocab
    && NonNegative(s) && Sum(s) > 0.0 && NonNegative(w) && Sum(w) > 0.0
    && forall x :: 0 <= x < m.vocab ==> 0.0 <= rule.accept(m.target(c)[x], m.draft(c)[x]) <= 1.0
  }

  ghost predicate ProperRule(m: Models, rule: Rule) {
    WellFormed(m) && forall c: seq<Token> :: ProperAt(m, rule, c)
  }

  // A draft of the token can be drawn after c, and accepted.
  ghost predicate Acceptable(m: Models, rule: Rule, token: Token, c: seq<Token>)
    requires ProperAt(m, rule, c) && token < m.vocab
  {
    rule.propose(m.draft(c))[token] > 0.0 && rule.accept(m.target(c)[token], m.draft(c)[token]) > 0.0
  }

  ghost predicate Never(m: Models, rule: Rule, token: Token)
    requires ProperRule(m, rule) && token < m.vocab
  {
    forall c: seq<Token> :: ProperAt(m, rule, c) && !Acceptable(m, rule, token, c)
  }

  // ----- if a drafted stop token is never accepted -----

  // Where the block drafts the stop token it is going to be rejected.
  ghost predicate DraftsRefused(m: Models, rule: Rule, token: Token, context: seq<Token>, drafts: seq<Token>) {
    forall j :: 0 <= j < |drafts| && drafts[j] == token ==> Refused(m, rule, token, context + drafts[..j])
  }

  ghost predicate Refused(m: Models, rule: Rule, token: Token, c: seq<Token>) {
    token < |m.target(c)| && token < |m.draft(c)| && rule.accept(m.target(c)[token], m.draft(c)[token]) == 0.0
  }

  ghost predicate EmitsNothing(m: Models, rule: Rule, eos: Token, steps: nat, context: seq<Token>, remaining: nat,
                               f: seq<Token> -> real)
    requires WellFormed(m) && steps > 0 && remaining > 0
  {
    forall tokens: seq<Token> :: |tokens| > 0 && eos !in tokens[..|tokens| - 1] ==>
      Expect(EmitTree(m, rule, steps, context, remaining, tokens), f) == 0.0
  }

  lemma EmitsNothingAt(m: Models, rule: Rule, eos: Token, steps: nat, context: seq<Token>, remaining: nat,
                       f: seq<Token> -> real, before: seq<Token>, x: Token)
    requires WellFormed(m) && steps > 0 && remaining > 0 && eos !in before
    requires EmitsNothing(m, rule, eos, steps, context, remaining, f)
    ensures Expect(EmitTree(m, rule, steps, context, remaining, before + [x]), f) == 0.0
  {
    assert (before + [x])[..|before + [x]| - 1] == before;
  }

  lemma BonusNothing(m: Models, rule: Rule, eos: Token, steps: nat, context: seq<Token>, remaining: nat,
                     drafts: seq<Token>, f: seq<Token> -> real)
    requires DraftState(m, steps, remaining, drafts) && eos !in drafts
    requires EmitsNothing(m, rule, eos, steps, context, remaining, f)
    ensures Expect(VerifyTree(m, rule, steps, context, remaining, drafts, |drafts|), f) == 0.0
  {
    hide VerifyTree, EmitTree, Expect, EmitsNothing, Sum, NonNegative;
    var t := VerifyTree(m, rule, steps, context, remaining, drafts, |drafts|);
    BonusUnfold(m, rule, steps, context, remaining, drafts);
    assert NonNegative(t.weights) && Sum(t.weights) == 1.0;
    forall x | 0 <= x < m.vocab ensures Expect(t.branches[x], f) == 0.0 {
      EmitsNothingAt(m, rule, eos, steps, context, remaining, f, drafts, x);
    }
    DrawZero(t, f);
  }

  lemma RejectNothing(m: Models, rule: Rule, eos: Token, steps: nat, context: seq<Token>, remaining: nat,
                      drafts: seq<Token>, i: nat, f: seq<Token> -> real)
    requires DraftState(m, steps, remaining, drafts) && i < |drafts| && ProperRule(m, rule) && eos !in drafts[..i]
    requires EmitsNothing(m, rule, eos, steps, context, remaining, f)
    ensures VerifyTree(m, rule, steps, context, remaining, drafts, i).Flip?
    ensures Expect(VerifyTree(m, rule, steps, context, remaining, drafts, i).no, f) == 0.0
  {
    hide VerifyTree, EmitTree, Expect, EmitsNothing, Sum, NonNegative;
    var t := VerifyTree(m, rule, steps, context, remaining, drafts, i);
    VerifyUnfold(m, rule, steps, context, remaining, drafts, i);
    assert ProperAt(m, rule, context + drafts[..i]);
    forall x | 0 <= x < |t.no.weights| ensures Expect(t.no.branches[x], f) == 0.0 {
      EmitsNothingAt(m, rule, eos, steps, context, remaining, f, drafts[..i], x);
    }
    DrawZero(t.no, f);
  }

  lemma {:induction false} VerifyNothing(m: Models, rule: Rule, eos: Token, steps: nat, context: seq<Token>,
                                         remaining: nat,
                                         drafts: seq<Token>, i: nat, f: seq<Token> -> real)
    requires DraftState(m, steps, remaining, drafts) && i <= |drafts| && ProperRule(m, rule)
    requires eos !in drafts[..i] && DraftsRefused(m, rule, eos, context, drafts)
    requires EmitsNothing(m, rule, eos, steps, context, remaining, f)
    ensures Expect(VerifyTree(m, rule, steps, context, remaining, drafts, i), f) == 0.0
    decreases |drafts| - i
  {
    hide VerifyTree, EmitTree, Expect, EmitsNothing, ProperRule, WellFormed;
    if i == |drafts| {
      assert drafts[..i] == drafts;
      BonusNothing(m, rule, eos, steps, context, remaining, drafts, f);
    } else {
      var t := VerifyTree(m, rule, steps, context, remaining, drafts, i);
      VerifyUnfold(m, rule, steps, context, remaining, drafts, i);
      RejectNothing(m, rule, eos, steps, context, remaining, drafts, i, f);
      if drafts[i] == eos {
        assert Refused(m, rule, eos, context + drafts[..i]);
        FlipNever(t.yes, t.no, f);
      } else {
        assert drafts[..i + 1] == drafts[..i] + [drafts[i]];
        VerifyNothing(m, rule, eos, steps, context, remaining, drafts, i + 1, f);
        FlipSettled(t.alpha, t.yes, t.no, f, 0.0);
      }
    }
  }

  lemma FlipNever(yes: Tree, no: Tree, f: seq<Token> -> real)
    ensures Expect(Flip(0.0, yes, no), f) == Expect(no, f)
  {
    TimesUnit(Expect(yes, f));
    TimesUnit(Expect(no, f));
  }

  lemma RefusedMore(m: Models, rule: Rule, token: Token, context: seq<Token>, drafts: seq<Token>, x: Token)
    requires DraftsRefused(m, rule, token, context, drafts)
    requires (x == token ==> Refused(m, rule, token, context + drafts))
    ensures DraftsRefused(m, rule, token, context, drafts + [x])
  {
    var more := drafts + [x];
    forall j | 0 <= j < |more| && more[j] == token ensures Refused(m, rule, token, context + more[..j]) {
      assert more[..j] == drafts[..j];
      if j == |drafts| {
        assert drafts[..j] == drafts;
      } else {
        assert Refused(m, rule, token, context + drafts[..j]);
      }
    }
  }

  lemma {:induction false} DraftNothing(m: Models, rule: Rule, eos: Token, steps: nat, context: seq<Token>,
                                        remaining: nat,
                                        drafts: seq<Token>, f: seq<Token> -> real)
    requires DraftState(m, steps, remaining, drafts) && ProperRule(m, rule) && eos < m.vocab && Never(m, rule, eos)
    requires DraftsRefused(m, rule, eos, context, drafts) && EmitsNothing(m, rule, eos, steps, context, remaining, f)
    ensures Expect(DraftTree(m, rule, steps, context, remaining, drafts, 0), f) == 0.0
    decreases Smaller(steps, remaining) - |drafts|
  {
    if |drafts| == Smaller(steps, remaining) {
      VerifyNothing(m, rule, eos, steps, context, remaining, drafts, 0, f);
    } else {
      var t := DraftTree(m, rule, steps, context, remaining, drafts, 0);
      DraftUnfold(m, rule, steps, context, remaining, drafts, 0);
      assert ProperAt(m, rule, context + drafts) && !Acceptable(m, rule, eos, context + drafts);
      assert t.weights[eos] > 0.0 ==> Refused(m, rule, eos, context + drafts);
      hide DraftTree, VerifyTree, Expect, EmitsNothing, ProperRule, ProperAt, Acceptable, Never, WellFormed,
          DraftsRefused, Refused, Sum;
      forall x | 0 <= x < m.vocab ensures t.weights[x] == 0.0 || Expect(t.branches[x], f) == 0.0 {
        if t.weights[x] > 0.0 {
          RefusedMore(m, rule, eos, context, drafts, x);
          DraftNothing(m, rule, eos, steps, context, remaining, drafts + [x], f);
        }
      }
      DrawZero(t, f);
    }
  }

  lemma NothingYet(start: nat, eos: Token, context: seq<Token>, kept: seq<Token>)
    requires |context| >= start && eos !in context[start..]
    ensures eos !in kept ==> eos !in (context + kept)[start..]
    ensures |kept| > 0 && eos !in kept[..|kept| - 1] ==> Beyond(start, eos)(context + kept) == 0.0
    ensures Beyond(start, eos)(context) == 0.0
  {
    assert (context + kept)[start..] == context[start..] + kept;
    if |kept| > 0 {
      assert (context + kept)[start..|context + kept| - 1] == context[start..] + kept[..|kept| - 1];
    }
    if |context| > start {
      assert forall t :: t in context[start..|context| - 1] ==> t in context[start..];
    }
  }

  lemma {:induction false} DecodeNothing(m: Models, rule: Rule, eos: Token, steps: nat, context: seq<Token>,
                                         remaining: nat,
                                         start: nat)
    requires ProperRule(m, rule) && steps > 0 && eos < m.vocab && Never(m, rule, eos) && rule.eos == Some(eos)
    requires |context| >= start && eos !in context[start..]
    ensures Expect(DecodeTree(m, rule, steps, context, remaining), Beyond(start, eos)) == 0.0
    decreases remaining
  {
    var f := Beyond(start, eos);
    NothingYet(start, eos, context, []);
    if remaining == 0 {
    } else {
      hide ProperRule, Never, WellFormed, Beyond;
      forall tokens: seq<Token> | |tokens| > 0 && eos !in tokens[..|tokens| - 1]
        ensures Expect(EmitTree(m, rule, steps, context, remaining, tokens), f) == 0.0
      {
        var kept := tokens[..Smaller(|tokens|, remaining)];
        NothingYet(start, eos, context, kept);
        if |kept| < |tokens| {
          assert kept == tokens[..|tokens| - 1][..|kept|];
        } else {
          assert kept == tokens;
        }
        if eos !in kept {
          DecodeNothing(m, rule, eos, steps, context + kept, remaining - |kept|, start);
        }
      }
      DraftNothing(m, rule, eos, steps, context, remaining, [], f);
    }
  }

  // ----- if one can be accepted -----

  ghost predicate EmitsSign(m: Models, rule: Rule, steps: nat, context: seq<Token>, remaining: nat,
                            f: seq<Token> -> real)
    requires WellFormed(m) && steps > 0 && remaining > 0
  {
    forall tokens: seq<Token> :: |tokens| > 0 ==> Expect(EmitTree(m, rule, steps, context, remaining, tokens), f) >= 0.0
  }

  lemma EmitsSignAt(m: Models, rule: Rule, steps: nat, context: seq<Token>, remaining: nat, f: seq<Token> -> real,
                    tokens: seq<Token>)
    requires WellFormed(m) && steps > 0 && remaining > 0 && |tokens| > 0
    requires EmitsSign(m, rule, steps, context, remaining, f)
    ensures Expect(EmitTree(m, rule, steps, context, remaining, tokens), f) >= 0.0
  {
  }

  lemma BonusSign(m: Models, rule: Rule, steps: nat, context: seq<Token>, remaining: nat,
                  drafts: seq<Token>, f: seq<Token> -> real)
    requires DraftState(m, steps, remaining, drafts) && EmitsSign(m, rule, steps, context, remaining, f)
    ensures Expect(VerifyTree(m, rule, steps, context, remaining, drafts, |drafts|), f) >= 0.0
  {
    hide VerifyTree, EmitTree, Expect, EmitsSign, Sum, NonNegative;
    var t := VerifyTree(m, rule, steps, context, remaining, drafts, |drafts|);
    BonusUnfold(m, rule, steps, context, remaining, drafts);
    assert NonNegative(t.weights) && Sum(t.weights) == 1.0;
    forall x | 0 <= x < m.vocab ensures Expect(t.branches[x], f) >= 0.0 {
      EmitsSignAt(m, rule, steps, context, remaining, f, drafts + [x]);
    }
    DrawSign(t, f);
  }

  lemma RejectSign(m: Models, rule: Rule, steps: nat, context: seq<Token>, remaining: nat,
                   drafts: seq<Token>, i: nat, f: seq<Token> -> real)
    requires DraftState(m, steps, remaining, drafts) && i < |drafts| && ProperRule(m, rule)
    requires EmitsSign(m, rule, steps, context, remaining, f)
    ensures var t := VerifyTree(m, rule, steps, context, remaining, drafts, i);
            t.Flip? && 0.0 <= t.alpha <= 1.0 && Expect(t.no, f) >= 0.0
  {
    hide VerifyTree, EmitTree, Expect, EmitsSign, Sum, NonNegative;
    var t := VerifyTree(m, rule, steps, context, remaining, drafts, i);
    VerifyUnfold(m, rule, steps, context, remaining, drafts, i);
    assert ProperAt(m, rule, context + drafts[..i]);
    forall x | 0 <= x < |t.no.weights| ensures Expect(t.no.branches[x], f) >= 0.0 {
      EmitsSignAt(m, rule, steps, context, remaining, f, drafts[..i] + [x]);
    }
    DrawSign(t.no, f);
  }

  lemma {:induction false} VerifySign(m: Models, rule: Rule, steps: nat, context: seq<Token>, remaining: nat,
                                      drafts: seq<Token>, i: nat, f: seq<Token> -> real)
    requires DraftState(m, steps, remaining, drafts) && i <= |drafts| && ProperRule(m, rule)
    requires EmitsSign(m, rule, steps, context, remaining, f)
    ensures Expect(VerifyTree(m, rule, steps, context, remaining, drafts, i), f) >= 0.0
    decreases |drafts| - i
  {
    hide VerifyTree, EmitTree, Expect, EmitsSign, ProperRule, WellFormed;
    if i == |drafts| {
      BonusSign(m, rule, steps, context, remaining, drafts, f);
    } else {
      var t := VerifyTree(m, rule, steps, context, remaining, drafts, i);
      VerifyUnfold(m, rule, steps, context, remaining, drafts, i);
      RejectSign(m, rule, steps, context, remaining, drafts, i, f);
      VerifySign(m, rule, steps, context, remaining, drafts, i + 1, f);
      FlipSign(t.alpha, t.yes, t.no, f);
    }
  }

  lemma {:induction false} DraftSign(m: Models, rule: Rule, steps: nat, context: seq<Token>, remaining: nat,
                                     drafts: seq<Token>, f: seq<Token> -> real)
    requires DraftState(m, steps, remaining, drafts) && ProperRule(m, rule)
    requires EmitsSign(m, rule, steps, context, remaining, f)
    ensures Expect(DraftTree(m, rule, steps, context, remaining, drafts, 0), f) >= 0.0
    decreases Smaller(steps, remaining) - |drafts|
  {
    if |drafts| == Smaller(steps, remaining) {
      VerifySign(m, rule, steps, context, remaining, drafts, 0, f);
    } else {
      var t := DraftTree(m, rule, steps, context, remaining, drafts, 0);
      DraftUnfold(m, rule, steps, context, remaining, drafts, 0);
      assert ProperAt(m, rule, context + drafts);
      hide DraftTree, VerifyTree, Expect, EmitsSign, ProperRule, WellFormed, Sum;
      forall x | 0 <= x < m.vocab ensures Expect(t.branches[x], f) >= 0.0 {
        DraftSign(m, rule, steps, context, remaining, drafts + [x], f);
      }
      DrawSign(t, f);
    }
  }

  lemma EmitIs(m: Models, rule: Rule, steps: nat, context: seq<Token>, remaining: nat, tokens: seq<Token>)
    requires WellFormed(m) && steps > 0 && remaining > 0 && |tokens| > 0
    ensures var kept := tokens[..Smaller(|tokens|, remaining)];
            EmitTree(m, rule, steps, context, remaining, tokens) ==
            if Stops(rule.eos, kept) then Done(context + kept)
            else DecodeTree(m, rule, steps, context + kept, remaining - |kept|)
  {
    hide DecodeTree;
  }

  lemma {:induction false} DecodeSign(m: Models, rule: Rule, steps: nat, context: seq<Token>, remaining: nat,
                                      f: seq<Token> -> real)
    requires ProperRule(m, rule) && steps > 0 && forall c: seq<Token> :: f(c) >= 0.0
    ensures Expect(DecodeTree(m, rule, steps, context, remaining), f) >= 0.0
    decreases remaining, 1
  {
    if remaining == 0 {
    } else {
      hide ProperRule, WellFormed, EmitsSign;
      DecodeEmitsSign(m, rule, steps, context, remaining, f);
      DraftSign(m, rule, steps, context, remaining, [], f);
    }
  }

  lemma {:induction false} DecodeEmitsSign(m: Models, rule: Rule, steps: nat, context: seq<Token>, remaining: nat,
                                           f: seq<Token> -> real)
    requires ProperRule(m, rule) && steps > 0 && remaining > 0 && forall c: seq<Token> :: f(c) >= 0.0
    ensures EmitsSign(m, rule, steps, context, remaining, f)
    decreases remaining, 0
  {
    assert WellFormed(m);
    hide ProperRule, WellFormed, DecodeTree, EmitTree, Expect;
    forall tokens: seq<Token> | |tokens| > 0
      ensures Expect(EmitTree(m, rule, steps, context, remaining, tokens), f) >= 0.0
    {
      var kept := tokens[..Smaller(|tokens|, remaining)];
      DecodeSign(m, rule, steps, context + kept, remaining - |kept|, f);
      EmitIs(m, rule, steps, context, remaining, tokens);
      DoneExpect(context + kept, f);
    }
  }

  // With a budget of two, a block that starts with the stop token and goes on is all there is.
  lemma EmitBeyond(m: Models, rule: Rule, eos: Token, steps: nat, c: seq<Token>, tokens: seq<Token>)
    requires WellFormed(m) && steps > 0 && rule.eos == Some(eos) && |tokens| >= 2 && tokens[0] == eos
    ensures Expect(EmitTree(m, rule, steps, c, 2, tokens), Beyond(|c|, eos)) == 1.0
  {
    var kept := tokens[..2];
    assert kept[0] == eos;
    assert (c + kept)[|c|..|c + kept| - 1] == [eos];
  }

  lemma RestBeyond(m: Models, rule: Rule, eos: Token, steps: nat, c: seq<Token>, drafts: seq<Token>)
    requires DraftState(m, steps, 2, drafts) && |drafts| > 0 && drafts[0] == eos && rule.eos == Some(eos)
    ensures Expect(VerifyTree(m, rule, steps, c, 2, drafts, |drafts|), Beyond(|c|, eos)) == 1.0
  {
    hide VerifyTree, EmitTree, Expect, Sum, NonNegative;
    var t, f := VerifyTree(m, rule, steps, c, 2, drafts, |drafts|), Beyond(|c|, eos);
    BonusUnfold(m, rule, steps, c, 2, drafts);
    assert NonNegative(t.weights) && Sum(t.weights) == 1.0;
    forall x | 0 <= x < m.vocab ensures Expect(t.branches[x], f) == 1.0 {
      EmitBeyond(m, rule, eos, steps, c, drafts + [x]);
    }
    DrawSettled(t, f, 1.0);
  }

  // After the stop token was accepted in first place.
  lemma AcceptedBeyond(m: Models, rule: Rule, eos: Token, steps: nat, c: seq<Token>, drafts: seq<Token>)
    requires DraftState(m, steps, 2, drafts) && |drafts| > 0 && drafts[0] == eos && rule.eos == Some(eos)
    requires ProperRule(m, rule)
    ensures Expect(VerifyTree(m, rule, steps, c, 2, drafts, 1), Beyond(|c|, eos)) == 1.0
  {
    RestBeyond(m, rule, eos, steps, c, drafts);
    if |drafts| == 2 {
      hide VerifyTree, EmitTree, Expect, Sum, NonNegative;
      var t, f := VerifyTree(m, rule, steps, c, 2, drafts, 1), Beyond(|c|, eos);
      VerifyUnfold(m, rule, steps, c, 2, drafts, 1);
      assert ProperAt(m, rule, c + drafts[..1]);
      forall x | 0 <= x < |t.no.weights| ensures Expect(t.no.branches[x], f) == 1.0 {
        EmitBeyond(m, rule, eos, steps, c, drafts[..1] + [x]);
      }
      DrawSettled(t.no, f, 1.0);
      FlipSettled(t.alpha, t.yes, t.no, f, 1.0);
    }
  }

  lemma BlockBeyond(m: Models, rule: Rule, eos: Token, steps: nat, c: seq<Token>, drafts: seq<Token>)
    requires DraftState(m, steps, 2, drafts) && |drafts| > 0 && drafts[0] == eos && rule.eos == Some(eos)
    requires ProperRule(m, rule)
    requires eos < m.vocab && ProperAt(m, rule, c) && Acceptable(m, rule, eos, c)
    ensures Expect(VerifyTree(m, rule, steps, c, 2, drafts, 0), Beyond(|c|, eos)) > 0.0
  {
    var f := Beyond(|c|, eos);
    DecodeEmitsSign(m, rule, steps, c, 2, f);
    AcceptedBeyond(m, rule, eos, steps, c, drafts);
    RejectSign(m, rule, steps, c, 2, drafts, 0, f);
    assert c + drafts[..0] == c;
    VerifyUnfold(m, rule, steps, c, 2, drafts, 0);
    hide VerifyTree, Expect, EmitsSign, ProperRule, ProperAt;
    var t := VerifyTree(m, rule, steps, c, 2, drafts, 0);
    FlipSign(t.alpha, t.yes, t.no, f);
  }

  lemma DraftedBeyond(m: Models, rule: Rule, eos: Token, steps: nat, c: seq<Token>)
    requires ProperRule(m, rule) && steps > 0 && rule.eos == Some(eos)
    requires eos < m.vocab && ProperAt(m, rule, c) && Acceptable(m, rule, eos, c)
    ensures Expect(DraftTree(m, rule, steps, c, 2, [eos], 0), Beyond(|c|, eos)) > 0.0
  {
    if steps == 1 {
      BlockBeyond(m, rule, eos, steps, c, [eos]);
    } else {
      var t, f := DraftTree(m, rule, steps, c, 2, [eos], 0), Beyond(|c|, eos);
      DraftUnfold(m, rule, steps, c, 2, [eos], 0);
      assert ProperAt(m, rule, c + [eos]);
      SomePositive(t.weights);
      var y: nat :| y < |t.weights| && t.weights[y] > 0.0;
      hide Expect, VerifyTree, ProperRule, Sum, NonNegative;
      forall x | 0 <= x < m.vocab ensures Expect(t.branches[x], f) > 0.0 {
        assert [eos] + [x] == [eos, x];
        BlockBeyond(m, rule, eos, steps, c, [eos, x]);
      }
      DrawSign(t, f);
    }
  }

  lemma SomethingBeyond(m: Models, rule: Rule, eos: Token, steps: nat, c: seq<Token>)
    requires ProperRule(m, rule) && steps > 0 && rule.eos == Some(eos)
    requires eos < m.vocab && ProperAt(m, rule, c) && Acceptable(m, rule, eos, c)
    ensures Expect(DecodeTree(m, rule, steps, c, 2), Beyond(|c|, eos)) > 0.0
  {
    var t, f := DraftTree(m, rule, steps, c, 2, [], 0), Beyond(|c|, eos);
    assert c + [] == c && forall x: Token :: [] + [x] == [x];
    DecodeEmitsSign(m, rule, steps, c, 2, f);
    DraftUnfold(m, rule, steps, c, 2, [], 0);
    DraftedBeyond(m, rule, eos, steps, c);
    hide Expect, ProperRule, EmitsSign, Sum, NonNegative;
    forall x | 0 <= x < m.vocab ensures Expect(t.branches[x], f) >= 0.0 {
      DraftSign(m, rule, steps, c, 2, [x], f);
    }
    DrawSign(t, f);
  }

  // ----- exactly when nothing follows the stop token -----

  ghost predicate NothingFollows(m: Models, rule: Rule, eos: Token, steps: nat)
    requires WellFormed(m) && steps > 0
  {
    forall prompt: seq<Token>, budget: nat ::
      Expect(DecodeTree(m, rule, steps, prompt, budget), Beyond(|prompt|, eos)) == 0.0
  }

  // Under any rule: when after no context a draft of the stop token can be both drawn and accepted.
  lemma NothingFollowsIff(m: Models, rule: Rule, eos: Token, steps: nat)
    requires ProperRule(m, rule) && steps > 0 && rule.eos == Some(eos) && eos < m.vocab
    ensures NothingFollows(m, rule, eos, steps) <==> Never(m, rule, eos)
  {
    if Never(m, rule, eos) {
      forall prompt: seq<Token>, budget: nat
        ensures Expect(DecodeTree(m, rule, steps, prompt, budget), Beyond(|prompt|, eos)) == 0.0
      {
        DecodeNothing(m, rule, eos, steps, prompt, budget, |prompt|);
      }
    } else {
      var c: seq<Token> :| !(ProperAt(m, rule, c) && !Acceptable(m, rule, eos, c));
      assert ProperAt(m, rule, c);
      SomethingBeyond(m, rule, eos, steps, c);
    }
  }

  lemma AcceptsSomething(q: real, p: real, eps: real)
    requires q >= 0.0 && p >= 0.0 && eps > 0.0
    ensures 0.0 <= Acceptance(q, p, eps) <= 1.0 && (Acceptance(q, p, eps) == 0.0 <==> q == 0.0)
  {
    AcceptanceIs(q, p, eps);
    hide Acceptance;
    TimesUnit(p + eps);
    TimesSign(Acceptance(q, p, eps), p + eps);
  }

  // What the rule does to laws: draw from the draft's top_k, accept and resample with the guard.
  ghost predicate IsGuarded(rule: Rule, eps: real, k: nat) {
    && (forall p: seq<real> :: rule.propose(p) == TopK(p, k))
    && (forall q: real, p: real :: rule.accept(q, p) == Acceptance(q, p, eps))
    && (forall q: seq<real>, p: seq<real> :: |q| == |p| ==> rule.resample(q, p) == Residual(q, p, eps))
  }

  lemma GuardedIsProper(m: Models, rule: Rule, eps: real, k: nat, c: seq<Token>)
    requires WellFormed(m) && eps > 0.0 && IsGuarded(rule, eps, k)
    ensures ProperAt(m, rule, c)
  {
    var p, q := m.draft(c), m.target(c);
    assert IsDistribution(p, m.vocab) && IsDistribution(q, m.vocab);
    TopKPositive(p, k);
    ResampleProper(q, p, eps);
    hide TopK, Residual, Acceptance, Sum;
    forall x | 0 <= x < m.vocab ensures 0.0 <= Acceptance(q[x], p[x], eps) <= 1.0 {
      AcceptsSomething(q[x], p[x], eps);
    }
  }

  // After c the draft, restricted to its top_k, or the target gives the token no mass.
  ghost predicate Apart(m: Models, k: nat, token: Token, c: seq<Token>) {
    token < |m.draft(c)| && token < |m.target(c)| && (TopK(m.draft(c), k)[token] == 0.0 || m.target(c)[token] == 0.0)
  }

  lemma ApartIff(m: Models, rule: Rule, eps: real, k: nat, eos: Token, c: seq<Token>)
    requires WellFormed(m) && eps > 0.0 && eos < m.vocab && IsGuarded(rule, eps, k)
    ensures ProperAt(m, rule, c)
    ensures Apart(m, k, eos, c) <==> !Acceptable(m, rule, eos, c)
  {
    GuardedIsProper(m, rule, eps, k, c);
    assert IsDistribution(m.draft(c), m.vocab) && IsDistribution(m.target(c), m.vocab);
    hide TopK, Residual, Acceptance, Sum;
    AcceptsSomething(m.target(c)[eos], m.draft(c)[eos], eps);
  }

  // From no prompt and within no budget anything is returned after the stop token, if and only if after
  // every context the draft, restricted to its top_k, or the target gives it no mass.
  lemma StopsIff(m: Models, rule: Rule, eps: real, k: nat, eos: Token, steps: nat)
    requires WellFormed(m) && eps > 0.0 && eos < m.vocab && steps > 0 && IsGuarded(rule, eps, k)
    requires rule.eos == Some(eos)
    ensures NothingFollows(m, rule, eos, steps) <==> forall c: seq<Token> :: Apart(m, k, eos, c)
  {
    forall c: seq<Token> ensures ProperAt(m, rule, c) && (Apart(m, k, eos, c) <==> !Acceptable(m, rule, eos, c)) {
      ApartIff(m, rule, eps, k, eos, c);
    }
    hide NothingFollows, ProperAt, Acceptable, Apart, IsGuarded;
    NothingFollowsIff(m, rule, eos, steps);
  }

  // The decode loop of the code.
  lemma CodeStopsIff(m: Models, topK: nat, eos: Token, steps: nat)
    requires WellFormed(m) && eos < m.vocab && steps > 0
    ensures NothingFollows(m, CodeRule(true, m.vocab, topK, Some(eos)), eos, steps) <==>
            forall c: seq<Token> :: Apart(m, topK, eos, c)
  {
    assert IsGuarded(CodeRule(true, m.vocab, topK, Some(eos)), EPS, topK) by {
      hide TopK, Residual, Acceptance;
    }
    StopsIff(m, CodeRule(true, m.vocab, topK, Some(eos)), EPS, topK, eos, steps);
  }

  // Without top_k: if and only if the two models never give the stop token mass after the same context.
  lemma StopsWithoutTopKIff(m: Models, eps: real, eos: Token, steps: nat)
    requires WellFormed(m) && eps > 0.0 && eos < m.vocab && steps > 0
    ensures NothingFollows(m, UntilRule(eps, eos), eos, steps) <==>
            forall c: seq<Token> :: m.draft(c)[eos] == 0.0 || m.target(c)[eos] == 0.0
  {
    forall p: seq<real> ensures TopK(p, 0) == p {
    }
    assert IsGuarded(UntilRule(eps, eos), eps, 0) by {
      hide TopK, Residual, Acceptance;
    }
    StopsIff(m, UntilRule(eps, eos), eps, 0, eos, steps);
    hide NothingFollows, TopK;
    assert (forall c: seq<Token> :: Apart(m, 0, eos, c)) <==>
           (forall c: seq<Token> :: m.draft(c)[eos] == 0.0 || m.target(c)[eos] == 0.0) by {
      if forall c: seq<Token> :: m.draft(c)[eos] == 0.0 || m.target(c)[eos] == 0.0 {
        forall c: seq<Token> ensures Apart(m, 0, eos, c) {
          assert m.draft(c)[eos] == 0.0 || m.target(c)[eos] == 0.0;
        }
      }
      if forall c: seq<Token> :: Apart(m, 0, eos, c) {
        forall c: seq<Token> ensures m.draft(c)[eos] == 0.0 || m.target(c)[eos] == 0.0 {
          assert Apart(m, 0, eos, c);
        }
      }
    }
  }
}
