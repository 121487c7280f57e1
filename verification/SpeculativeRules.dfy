// Decoding under any rule: single nodes of the trees, and when two rules come to the same.
module SpeculativeRules {
  import opened Collections
  import opened Vectors
  import opened SpeculativeLaw
  import opened SpeculativePosition
  import opened SpeculativeLossless
  import opened SpeculativeDecoder

  // ----- single nodes -----

  lemma FlipSettled(alpha: real, yes: Tree, no: Tree, f: seq<Token> -> real, v: real)
    requires Expect(yes, f) == v && Expect(no, f) == v
    ensures Expect(Flip(alpha, yes, no), f) == v
  {
    TimesUnit(v);
    TimesPlus(v, alpha, 1.0 - alpha);
  }

  lemma DrawSettled(t: Tree, f: seq<Token> -> real, v: real)
    requires t.Draw? && |t.weights| == |t.branches| && NonNegative(t.weights) && Sum(t.weights) > 0.0
    requires forall x :: 0 <= x < |t.branches| ==> Expect(t.branches[x], f) == v
    ensures Expect(t, f) == v
  {
    hide Dot, Normalise, Times, Sum;
    DrawExpect(t, f);
    DotConstant(Normalise(t.weights), Values(t.branches, f), v);
    NormaliseSum(t.weights);
    TimesUnit(v);
  }

  // ----- rules that come to the same -----

  // On the laws that the models have, two rules draw, accept and resample alike.
  ghost predicate Agree(m: Models, rule: Rule, other: Rule) {
    forall c: seq<Token> ::
      && rule.propose(m.draft(c)) == other.propose(m.draft(c)) && |rule.propose(m.draft(c))| == |m.draft(c)|
      && rule.resample(m.target(c), m.draft(c)) == other.resample(m.target(c), m.draft(c))
      && forall x: Token :: x < |m.target(c)| && x < |m.draft(c)| ==>
           rule.accept(m.target(c)[x], m.draft(c)[x]) == other.accept(m.target(c)[x], m.draft(c)[x])
  }

  lemma DrawSame(t: Tree, u: Tree, f: seq<Token> -> real)
    requires t.Draw? && u.Draw? && t.weights == u.weights && |t.weights| == |t.branches| == |u.branches|
    requires forall x :: 0 <= x < |t.branches| ==> Expect(t.branches[x], f) == Expect(u.branches[x], f)
    ensures Expect(t, f) == Expect(u, f)
  {
    hide Dot, Normalise;
    DrawExpect(t, f);
    DrawExpect(u, f);
    assert Values(t.branches, f) == Values(u.branches, f);
  }

  ghost predicate EmitsSame(m: Models, rule: Rule, other: Rule, steps: nat, context: seq<Token>, remaining: nat,
                            f: seq<Token> -> real)
    requires WellFormed(m) && steps > 0 && remaining > 0
  {
    forall tokens: seq<Token> :: |tokens| > 0 ==>
      Expect(EmitTree(m, rule, steps, context, remaining, tokens), f) ==
      Expect(EmitTree(m, other, steps, context, remaining, tokens), f)
  }

  lemma AgreeAt(m: Models, rule: Rule, other: Rule, c: seq<Token>, x: Token)
    requires WellFormed(m) && Agree(m, rule, other) && x < m.vocab
    ensures IsDistribution(m.target(c), m.vocab) && IsDistribution(m.draft(c), m.vocab)
    ensures rule.propose(m.draft(c)) == other.propose(m.draft(c)) && |rule.propose(m.draft(c))| == m.vocab
    ensures rule.resample(m.target(c), m.draft(c)) == other.resample(m.target(c), m.draft(c))
    ensures rule.accept(m.target(c)[x], m.draft(c)[x]) == other.accept(m.target(c)[x], m.draft(c)[x])
  {
    assert IsDistribution(m.target(c), m.vocab) && IsDistribution(m.draft(c), m.vocab);
  }

  lemma FlipSame(alpha: real, yes: Tree, no: Tree, yes': Tree, no': Tree, f: seq<Token> -> real)
    requires Expect(yes, f) == Expect(yes', f) && Expect(no, f) == Expect(no', f)
    ensures Expect(Flip(alpha, yes, no), f) == Expect(Flip(alpha, yes', no'), f)
  {
  }

  lemma EmitsSameAt(m: Models, rule: Rule, other: Rule, steps: nat, context: seq<Token>, remaining: nat,
                    f: seq<Token> -> real, tokens: seq<Token>)
    requires WellFormed(m) && steps > 0 && remaining > 0 && |tokens| > 0
    requires EmitsSame(m, rule, other, steps, context, remaining, f)
    ensures Expect(EmitTree(m, rule, steps, context, remaining, tokens), f) ==
            Expect(EmitTree(m, other, steps, context, remaining, tokens), f)
  {
  }

  lemma BonusSame(m: Models, rule: Rule, other: Rule, steps: nat, context: seq<Token>, remaining: nat,
                  drafts: seq<Token>, f: seq<Token> -> real)
    requires DraftState(m, steps, remaining, drafts) && EmitsSame(m, rule, other, steps, context, remaining, f)
    ensures Expect(VerifyTree(m, rule, steps, context, remaining, drafts, |drafts|), f) ==
            Expect(VerifyTree(m, other, steps, context, remaining, drafts, |drafts|), f)
  {
    hide VerifyTree, EmitTree, Expect, EmitsSame, Sum, NonNegative;
    var t := VerifyTree(m, rule, steps, context, remaining, drafts, |drafts|);
    var u := VerifyTree(m, other, steps, context, remaining, drafts, |drafts|);
    BonusUnfold(m, rule, steps, context, remaining, drafts);
    BonusUnfold(m, other, steps, context, remaining, drafts);
    forall x | 0 <= x < m.vocab ensures Expect(t.branches[x], f) == Expect(u.branches[x], f) {
      EmitsSameAt(m, rule, other, steps, context, remaining, f, drafts + [x]);
    }
    DrawSame(t, u, f);
  }

  lemma RejectSame(m: Models, rule: Rule, other: Rule, steps: nat, context: seq<Token>, remaining: nat,
                   drafts: seq<Token>, i: nat, f: seq<Token> -> real, t: Tree, u: Tree)
    requires DraftState(m, steps, remaining, drafts) && i < |drafts|
    requires EmitsSame(m, rule, other, steps, context, remaining, f)
    requires t.Draw? && u.Draw? && t.weights == u.weights && |t.weights| == |t.branches| == |u.branches|
    requires forall x :: 0 <= x < |t.weights| ==>
             t.branches[x] == EmitTree(m, rule, steps, context, remaining, drafts[..i] + [x])
    requires forall x :: 0 <= x < |t.weights| ==>
             u.branches[x] == EmitTree(m, other, steps, context, remaining, drafts[..i] + [x])
    ensures Expect(t, f) == Expect(u, f)
  {
    hide EmitTree, Expect, EmitsSame;
    forall x | 0 <= x < |t.branches| ensures Expect(t.branches[x], f) == Expect(u.branches[x], f) {
      EmitsSameAt(m, rule, other, steps, context, remaining, f, drafts[..i] + [x]);
    }
    DrawSame(t, u, f);
  }

  lemma PositionSame(m: Models, rule: Rule, other: Rule, steps: nat, context: seq<Token>, remaining: nat,
                     drafts: seq<Token>, i: nat, f: seq<Token> -> real)
    requires DraftState(m, steps, remaining, drafts) && i < |drafts| && Agree(m, rule, other)
    requires EmitsSame(m, rule, other, steps, context, remaining, f)
    requires Expect(VerifyTree(m, rule, steps, context, remaining, drafts, i + 1), f) ==
             Expect(VerifyTree(m, other, steps, context, remaining, drafts, i + 1), f)
    ensures Expect(VerifyTree(m, rule, steps, context, remaining, drafts, i), f) ==
            Expect(VerifyTree(m, other, steps, context, remaining, drafts, i), f)
  {
    hide VerifyTree, EmitTree, Expect, EmitsSame, Agree, IsDistribution, WellFormed;
    var t := VerifyTree(m, rule, steps, context, remaining, drafts, i);
    var u := VerifyTree(m, other, steps, context, remaining, drafts, i);
    VerifyUnfold(m, rule, steps, context, remaining, drafts, i);
    VerifyUnfold(m, other, steps, context, remaining, drafts, i);
    AgreeAt(m, rule, other, context + drafts[..i], drafts[i]);
    RejectSame(m, rule, other, steps, context, remaining, drafts, i, f, t.no, u.no);
    FlipSame(t.alpha, t.yes, t.no, u.yes, u.no, f);
  }

  lemma {:induction false} VerifySame(m: Models, rule: Rule, other: Rule, steps: nat, context: seq<Token>,
                                      remaining: nat,
                                      drafts: seq<Token>, i: nat, f: seq<Token> -> real)
    requires DraftState(m, steps, remaining, drafts) && i <= |drafts| && Agree(m, rule, other)
    requires EmitsSame(m, rule, other, steps, context, remaining, f)
    ensures Expect(VerifyTree(m, rule, steps, context, remaining, drafts, i), f) ==
            Expect(VerifyTree(m, other, steps, context, remaining, drafts, i), f)
    decreases |drafts| - i
  {
    hide VerifyTree, EmitTree, Expect, EmitsSame, Agree, WellFormed;
    if i == |drafts| {
      BonusSame(m, rule, other, steps, context, remaining, drafts, f);
    } else {
      VerifySame(m, rule, other, steps, context, remaining, drafts, i + 1, f);
      PositionSame(m, rule, other, steps, context, remaining, drafts, i, f);
    }
  }

  lemma {:induction false} DraftSame(m: Models, rule: Rule, other: Rule, steps: nat, context: seq<Token>,
                                     remaining: nat,
                                     drafts: seq<Token>, f: seq<Token> -> real)
    requires DraftState(m, steps, remaining, drafts) && Agree(m, rule, other)
    requires EmitsSame(m, rule, other, steps, context, remaining, f)
    ensures Expect(DraftTree(m, rule, steps, context, remaining, drafts, 0), f) ==
            Expect(DraftTree(m, other, steps, context, remaining, drafts, 0), f)
    decreases Smaller(steps, remaining) - |drafts|
  {
    if |drafts| == Smaller(steps, remaining) {
      VerifySame(m, rule, other, steps, context, remaining, drafts, 0, f);
    } else {
      var t := DraftTree(m, rule, steps, context, remaining, drafts, 0);
      var u := DraftTree(m, other, steps, context, remaining, drafts, 0);
      DraftUnfold(m, rule, steps, context, remaining, drafts, 0);
      DraftUnfold(m, other, steps, context, remaining, drafts, 0);
      assert rule.propose(m.draft(context + drafts)) == other.propose(m.draft(context + drafts));
      assert |rule.propose(m.draft(context + drafts))| == m.vocab;
      hide Sum, NonNegative, DraftTree, Expect, EmitsSame, Agree;
      forall x | 0 <= x < m.vocab ensures Expect(t.branches[x], f) == Expect(u.branches[x], f) {
        DraftSame(m, rule, other, steps, context, remaining, drafts + [x], f);
      }
      DrawSame(t, u, f);
    }
  }

  // Rules that agree and stop alike give every observation the same expectation.
  lemma {:induction false} DecodeAgrees(m: Models, rule: Rule, other: Rule, steps: nat, context: seq<Token>,
                                        remaining: nat,
                                        f: seq<Token> -> real)
    requires WellFormed(m) && steps > 0 && Agree(m, rule, other) && rule.eos == other.eos
    ensures Expect(DecodeTree(m, rule, steps, context, remaining), f) ==
            Expect(DecodeTree(m, other, steps, context, remaining), f)
    decreases remaining
  {
    if remaining == 0 {
    } else {
      hide Agree;
      forall tokens: seq<Token> | |tokens| > 0
        ensures Expect(EmitTree(m, rule, steps, context, remaining, tokens), f) ==
                Expect(EmitTree(m, other, steps, context, remaining, tokens), f)
      {
        var kept := tokens[..Smaller(|tokens|, remaining)];
        if !Stops(rule.eos, kept) {
          DecodeAgrees(m, rule, other, steps, context + kept, remaining - |kept|, f);
        }
      }
      DraftSame(m, rule, other, steps, context, remaining, [], f);
    }
  }
}
