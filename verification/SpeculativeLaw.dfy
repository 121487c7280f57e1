// The law of speculative decoding.
//
// A randomised program is a tree: Draw chooses a branch with probability
// proportional to its weight (torch.multinomial normalises its argument),
// Flip takes the first branch with probability alpha (a uniform number in
// [0, 1) fell below alpha), Done holds the tokens of the finished context.
module SpeculativeLaw {
  import opened Collections
  import opened Outcomes
  import opened Vectors

  type Token = nat

  datatype Tree =
    | Done(context: seq<Token>)
    | Draw(weights: seq<real>, branches: seq<Tree>)
    | Flip(alpha: real, yes: Tree, no: Tree)

  // The two language models: each maps a context to the softmax of its
  // temperature-scaled logits at the last position of that context.
  datatype Models = Models(vocab: nat, draft: seq<Token> -> seq<real>, target: seq<Token> -> seq<real>)

  ghost predicate WellFormed(m: Models) {
    forall c: seq<Token> :: IsDistribution(m.draft(c), m.vocab) && IsDistribution(m.target(c), m.vocab)
  }

  // ----- expectation of an observation f of the finished context -----

  ghost function Expect(t: Tree, f: seq<Token> -> real): real {
    match t
    case Done(c) => f(c)
    case Draw(w, bs) =>
      if |w| == |bs| then Dot(Normalise(w), seq(|bs|, i requires 0 <= i < |bs| => Expect(bs[i], f))) else 0.0
    case Flip(alpha, yes, no) => Mix(alpha, Expect(yes, f), Expect(no, f))
  }

  ghost predicate Bounded(f: seq<Token> -> real, bound: real) {
    forall c: seq<Token> :: -bound <= f(c) <= bound
  }

  // ----- plain autoregressive decoding from the target model -----

  ghost function PlainTree(m: Models, context: seq<Token>, remaining: nat): Tree
    decreases remaining
  {
    if remaining == 0 then Done(context)
    else
      var w := m.target(context);
      Draw(w, seq(|w|, x requires 0 <= x < |w| => PlainTree(m, context + [x], remaining - 1)))
  }

  predicate Stops(eos: Option<Token>, tokens: seq<Token>) {
    eos.Some? && eos.value in tokens
  }

  // The same, ending early with the token eos.
  ghost function PlainUntil(m: Models, eos: Option<Token>, context: seq<Token>, remaining: nat): Tree
    decreases remaining
  {
    if remaining == 0 then Done(context)
    else
      var w := m.target(context);
      Draw(w, seq(|w|, x requires 0 <= x < |w| =>
                    if Stops(eos, [x]) then Done(context + [x]) else PlainUntil(m, eos, context + [x], remaining - 1)))
  }

  // ----- speculative decoding -----

  // Acceptance probability of a draft token with target mass q and draft mass p.
  function Acceptance(q: real, p: real, eps: real): real {
    if p + eps == 0.0 then 1.0 else Min(1.0, q / (p + eps))
  }

  function PositivePart(q: seq<real>, p: seq<real>): (v: seq<real>)
    requires |q| == |p|
    ensures |v| == |q|
  {
    seq(|q|, i requires 0 <= i < |q| => if q[i] - p[i] < 0.0 then 0.0 else q[i] - p[i])
  }

  // What a rejected position is resampled from: the positive part of q - p, or q itself when
  // that part is numerically empty.
  function Chosen(q: seq<real>, p: seq<real>, eps: real): (v: seq<real>)
    requires |q| == |p|
    ensures |v| == |q|
  {
    if Sum(PositivePart(q, p)) < eps then q else PositivePart(q, p)
  }

  // ... divided by its sum plus the guard eps.
  function Residual(q: seq<real>, p: seq<real>, eps: real): (v: seq<real>)
    requires |q| == |p|
    ensures |v| == |q|
  {
    Scale(Chosen(q, p, eps), Recip(Sum(Chosen(q, p, eps)) + eps))
  }

  // The weights a draft token is drawn from, given the draft law; how it is accepted, given its target
  // and draft mass; the weights a rejected position is resampled from, given the target and draft
  // laws; and the token, if any, that ends the run once a block contains it.
  datatype Rule = Rule(propose: seq<real> -> seq<real>, accept: (real, real) -> real,
                       resample: (seq<real>, seq<real>) -> seq<real>, eos: Option<Token>)

  function GuardedRule(eps: real): Rule {
    Rule(p => p, (q, p) => Acceptance(q, p, eps), (q, p) => if |q| == |p| then Residual(q, p, eps) else q, None)
  }

  // How many tokens have more mass than token i.
  function Above(p: seq<real>, i: nat): nat
    requires i < |p|
  {
    |set j | 0 <= j < |p| && p[j] > p[i]|
  }

  // Sampling restricted to the k largest masses, ties included; 0 stands for no restriction.
  function TopK(p: seq<real>, k: nat): (w: seq<real>)
    ensures |w| == |p|
  {
    seq(|p|, i requires 0 <= i < |p| => if k == 0 || Above(p, i) < k then p[i] else 0.0)
  }

  function Uniform(n: nat): (p: seq<real>)
    ensures |p| == n
  {
    seq(n, i requires 0 <= i < n => 1.0 / n as real)
  }

  // Without draft probabilities, every draft is taken to have been drawn uniformly, and unguarded.
  function UnclaimedRule(vocab: nat, eps: real): Rule {
    GuardedRule(eps).(accept := (q, p) => Min(1.0, Times(q, vocab as real)),
                      resample := (q, p) => Residual(q, Uniform(|q|), eps))
  }

  // The rest of the run once a block has produced `emitted` new tokens: they are
  // clipped to the budget and appended to the context.
  ghost function EmitTree(m: Models, rule: Rule, steps: nat, context: seq<Token>, remaining: nat,
                          emitted: seq<Token>): Tree
    requires WellFormed(m) && steps > 0 && remaining > 0 && |emitted| > 0
    decreases remaining, 0
  {
    var kept := emitted[..Smaller(|emitted|, remaining)];
    if Stops(rule.eos, kept) then Done(context + kept)
    else DecodeTree(m, rule, steps, context + kept, remaining - |kept|)
  }

  // Accept or reject the drafts from position i on.
  ghost function VerifyTree(m: Models, rule: Rule, steps: nat, context: seq<Token>, remaining: nat,
                            drafts: seq<Token>, i: nat): Tree
    requires WellFormed(m) && steps > 0 && remaining > 0
    requires i <= |drafts|
    requires forall j :: 0 <= j < |drafts| ==> drafts[j] < m.vocab
    decreases remaining, 1, |drafts| - i
  {
    var q := m.target(context + drafts[..i]);
    if i == |drafts| then
      Draw(q, seq(|q|, x requires 0 <= x < |q| => EmitTree(m, rule, steps, context, remaining, drafts + [x])))
    else
      var p := m.draft(context + drafts[..i]);
      var weights := rule.resample(q, p);
      Flip(rule.accept(q[drafts[i]], p[drafts[i]]),
           VerifyTree(m, rule, steps, context, remaining, drafts, i + 1),
           Draw(weights, seq(|weights|, x requires 0 <= x < |weights| =>
                               EmitTree(m, rule, steps, context, remaining, drafts[..i] + [x]))))
  }

  // Draft up to min(steps, remaining) tokens, then verify from position i on.
  ghost function DraftTree(m: Models, rule: Rule, steps: nat, context: seq<Token>, remaining: nat,
                           drafts: seq<Token>, i: nat): Tree
    requires WellFormed(m) && steps > 0 && remaining > 0
    requires i <= |drafts| <= Smaller(steps, remaining)
    requires forall j :: 0 <= j < |drafts| ==> drafts[j] < m.vocab
    decreases remaining, 2, Smaller(steps, remaining) - |drafts|
  {
    if |drafts| == Smaller(steps, remaining) then
      VerifyTree(m, rule, steps, context, remaining, drafts, i)
    else
      var p := m.draft(context + drafts);
      Draw(rule.propose(p), seq(|p|,
          x requires 0 <= x < |p| => DraftTree(m, rule, steps, context, remaining, drafts + [x], i)))
  }

  ghost function DecodeTree(m: Models, rule: Rule, steps: nat, context: seq<Token>, remaining: nat): Tree
    requires WellFormed(m) && steps > 0
    decreases remaining, 3
  {
    if remaining == 0 then Done(context)
    else DraftTree(m, rule, steps, context, remaining, [], 0)
  }
}
