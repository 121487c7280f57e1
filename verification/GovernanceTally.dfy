// How far the tallies of the governance program can exceed the tokens there are: voting power is
// read off a wallet at the time of its vote, so tokens paid on from a wallet that has voted to one
// that has not are counted again.
module GovernanceTally {
  import opened Governance
  import opened TokenLedger

  // ----- comparing ledgers -----

  lemma BalanceWithout(l: Ledger, a: Account, b: Account)
    ensures Balance(l - {a}, b) == if b == a then 0 else Balance(l, b)
  {
  }

  lemma BalanceUpdate(l: Ledger, a: Account, n: nat, b: Account)
    ensures Balance(l[a := n], b) == if b == a then n else Balance(l, b)
  {
  }

  lemma TotalTakes(l: Ledger, a: Account)
    ensures Total(l) == Balance(l, a) + Total(l - {a})
  {
    if a in l {
      TotalWithout(l, a);
    } else {
      assert l - {a} == l;
    }
  }

  lemma {:induction false} TotalMonotone(l: Ledger, m: Ledger)
    requires forall a :: Balance(l, a) <= Balance(m, a)
    ensures Total(l) <= Total(m)
    decreases |l|
  {
    if l == map[] {
    } else {
      var a :| a in l;
      assert Balance(l, a) <= Balance(m, a);
      hide Balance;
      TotalTakes(l, a);
      TotalTakes(m, a);
      forall b ensures Balance(l - {a}, b) <= Balance(m - {a}, b) {
        BalanceWithout(l, a, b);
        BalanceWithout(m, a, b);
      }
      TotalMonotone(l - {a}, m - {a});
    }
  }

  // At most `less` gone from one account and `more` come to another.
  lemma TotalMoved(l: Ledger, m: Ledger, from: Account, less: nat, to: Account, more: nat)
    requires from != to && less <= Balance(l, from)
    requires forall a ::
               Balance(m, a) <= Balance(l, a) - (if a == from then less else 0) + (if a == to then more else 0)
    ensures Total(m) <= Total(l) - less + more
  {
    hide Balance, Total;
    var left := Balance(l, from) - less;
    var taken := l[from := left];
    TotalUpdate(l, from, left);
    BalanceUpdate(l, from, left, to);
    var sum := Balance(l, to) + more;
    TotalUpdate(taken, to, sum);
    forall a ensures Balance(m, a) <= Balance(taken[to := sum], a) {
      BalanceUpdate(l, from, left, a);
      BalanceUpdate(taken, to, sum, a);
    }
    TotalMonotone(m, taken[to := sum]);
  }

  // ----- what can still be voted -----

  // A bond belongs to the proposer, who gets it back.
  function Owner(s: State, a: Account): Pubkey {
    match a
    case Wallet(owner) => owner
    case Held(id) => if id < |s.proposals| then s.proposals[id].proposer else 0
  }

  predicate Voted(s: State, id: nat, a: Account) {
    (id, Owner(s, a)) in s.votes
  }

  // The accounts of those who have not voted on a proposal.
  function Unvoted(s: State, id: nat): Ledger {
    map a | a in s.balances && !Voted(s, id, a) :: s.balances[a]
  }

  function VotesOn(s: State, id: nat): nat {
    if id < |s.proposals| then TotalVotes(s.proposals[id]) else 0
  }

  // What one instruction moves from those who have voted to those who have not.
  function MovedBy(s: State, id: nat, op: Op, now: int): nat {
    if op.Pay? && Apply(s, op, now).Done? && Voted(s, id, Wallet(op.owner)) &&
        !Voted(s, id, Wallet(op.to)) then op.amount
    else 0
  }

  function Moved(s: State, id: nat, steps: seq<Step>): nat {
    if |steps| == 0 then 0
    else
      var before, step := steps[..|steps| - 1], steps[|steps| - 1];
      Moved(s, id, before) + MovedBy(Run(s, before), id, step.op, step.now)
  }

  lemma UnvotedBalance(s: State, id: nat, a: Account)
    ensures Balance(Unvoted(s, id), a) == if Voted(s, id, a) then 0 else Balance(s.balances, a)
  {
  }

  // Nobody with a balance changes sides.
  ghost predicate SameSides(s: State, s': State, id: nat) {
    forall a :: Balance(s.balances, a) > 0 ==> Voted(s', id, a) == Voted(s, id, a)
  }

  lemma UnvotedAfterTransfer(s: State, s': State, id: nat, from: Account, to: Account, amount: nat)
    requires Total(s.balances) <= U64_MAX && SameSides(s, s', id)
    requires Transfer(s.balances, from, to, amount) == Done(s'.balances)
    ensures Total(Unvoted(s', id)) <= Total(Unvoted(s, id)) +
            if Voted(s', id, from) && !Voted(s', id, to) then amount else 0
  {
    TransferFacts(s.balances, from, to, amount);
    var less := if Voted(s', id, from) then 0 else amount;
    var more := if Voted(s', id, to) then 0 else amount;
    var u, u' := Unvoted(s, id), Unvoted(s', id);
    forall a ensures Balance(u', a) <= Balance(u, a) - (if a == from then less else 0) + (if a == to then more else 0) {
      UnvotedBalance(s, id, a);
      UnvotedBalance(s', id, a);
    }
    if from == to {
      TotalMonotone(u', u);
    } else {
      UnvotedBalance(s, id, from);
      TotalMoved(u, u', from, less, to, more);
    }
  }

  // ----- the bound -----

  ghost predicate Bounded(s: State, id: nat, supply: nat) {
    VotesOn(s, id) + Total(Unvoted(s, id)) <= supply
  }

  lemma CastBounded(s: State, id: nat, i: nat, voter: Pubkey, choice: Choice, now: int, supply: nat)
    requires Invariant(s) && Cast(s, i, voter, choice, now).Done? && Bounded(s, id, supply)
    ensures Bounded(Cast(s, i, voter, choice, now).value, id, supply)
  {
    var s' := Cast(s, i, voter, choice, now).value;
    var power := Balance(s.balances, Wallet(voter));
    var u, u' := Unvoted(s, id), Unvoted(s', id);
    UnvotedBalance(s, id, Wallet(voter));
    forall a ensures Balance(u', a) <= Balance(u, a) - if i == id && a == Wallet(voter) then power else 0 {
      UnvotedBalance(s, id, a);
      UnvotedBalance(s', id, a);
      assert Owner(s', a) == Owner(s, a);
    }
    TotalMoved(u, u', Wallet(voter), if i == id then power else 0, Held(0), 0);
  }

  lemma CreateBounded(s: State, id: nat, op: Op, now: int, supply: nat)
    requires Invariant(s) && op.CreateProposal? && Apply(s, op, now).Done? && Bounded(s, id, supply)
    ensures Bounded(Apply(s, op, now).value, id, supply)
  {
    var s', n := Apply(s, op, now).value, |s.proposals|;
    assert Bond(s, n) == BondDue(s, n);
    UnvotedAfterTransfer(s, s', id, Wallet(op.proposer), Held(n), PROPOSAL_BOND);
  }

  lemma FinalizeBounded(s: State, id: nat, i: nat, now: int, supply: nat)
    requires Finalize(s, i, now).Done? && Bounded(s, id, supply)
    ensures Bounded(Finalize(s, i, now).value, id, supply)
  {
    var s' := Finalize(s, i, now).value;
    assert Unvoted(s', id) == Unvoted(s, id);
  }

  lemma ExecuteBounded(s: State, id: nat, i: nat, now: int, supply: nat)
    requires Invariant(s) && Execute(s, i, now).Done? && Bounded(s, id, supply)
    ensures Bounded(Execute(s, i, now).value, id, supply)
  {
    var s' := Execute(s, i, now).value;
    UnvotedAfterTransfer(s, s', id, Held(i), Wallet(s.proposals[i].proposer), PROPOSAL_BOND);
  }

  // No instruction adds more to the votes and the unvoted tokens than it moves across.
  lemma StepBounded(s: State, id: nat, op: Op, now: int, supply: nat)
    requires Invariant(s) && Apply(s, op, now).Done? && Bounded(s, id, supply)
    ensures Bounded(Apply(s, op, now).value, id, supply + MovedBy(s, id, op, now))
  {
    hide Bounded, Invariant;
    match op
    case CreateProposal(_, _, _, _, _) => CreateBounded(s, id, op, now, supply);
    case CastVote(i, voter, choice) => CastBounded(s, id, i, voter, choice, now, supply);
    case FinalizeProposal(i) => FinalizeBounded(s, id, i, now, supply);
    case ExecuteProposal(i) => ExecuteBounded(s, id, i, now, supply);
    case Pay(owner, to, amount) => PayBounded(s, id, op, now, supply);
  }

  lemma PayBounded(s: State, id: nat, op: Op, now: int, supply: nat)
    requires Invariant(s) && op.Pay? && Apply(s, op, now).Done? && Bounded(s, id, supply)
    ensures Bounded(Apply(s, op, now).value, id, supply + MovedBy(s, id, op, now))
  {
    UnvotedAfterTransfer(s, Apply(s, op, now).value, id, Wallet(op.owner), Wallet(op.to), op.amount);
  }

  lemma {:induction false} RunBounded(s: State, steps: seq<Step>, id: nat)
    requires FreshStart(s)
    ensures Bounded(Run(s, steps), id, Total(s.balances) + Moved(s, id, steps))
  {
    if |steps| == 0 {
      forall a ensures Balance(Unvoted(s, id), a) <= Balance(s.balances, a) {
        UnvotedBalance(s, id, a);
      }
      TotalMonotone(Unvoted(s, id), s.balances);
    } else {
      var before, step := steps[..|steps| - 1], steps[|steps| - 1];
      RunBounded(s, before, id);
      RunKeeps(s, before);
      if Apply(Run(s, before), step.op, step.now).Done? {
        StepBounded(Run(s, before), id, step.op, step.now, Total(s.balances) + Moved(s, id, before));
      }
    }
  }

  // Over every run, the votes on a proposal exceed the tokens there are by no more than was paid from
  // wallets that had voted on it to wallets that had not.
  lemma TallyBound(s: State, steps: seq<Step>, id: nat)
    requires FreshStart(s)
    ensures VotesOn(Run(s, steps), id) <= Total(s.balances) + Moved(s, id, steps)
  {
    RunBounded(s, steps, id);
  }

  // Wallets pay one another only while nobody has voted on the proposal.
  ghost predicate PaysBeforeVotes(s: State, steps: seq<Step>, id: nat) {
    forall i, v :: 0 <= i < |steps| && steps[i].op.Pay? ==> (id, v) !in Run(s, steps[..i]).votes
  }

  lemma {:induction false} NothingMoved(s: State, steps: seq<Step>, id: nat)
    requires PaysBeforeVotes(s, steps, id)
    ensures Moved(s, id, steps) == 0
  {
    if |steps| == 0 {
    } else {
      var before := steps[..|steps| - 1];
      assert forall i :: 0 <= i < |before| ==> before[..i] == steps[..i];
      hide Run;
      NothingMoved(s, before, id);
    }
  }

  // Then no token is counted twice.
  lemma TallyWithinSupply(s: State, steps: seq<Step>, id: nat)
    requires FreshStart(s) && PaysBeforeVotes(s, steps, id)
    ensures VotesOn(Run(s, steps), id) <= Total(s.balances)
  {
    NothingMoved(s, steps, id);
    TallyBound(s, steps, id);
  }

  // ----- tokens counted twice -----

  // The proposer holds just the bond, and one voter all the other tokens.
  function TwoHolders(tokens: nat): State {
    State(PROPOSAL_BOND + tokens, [], map[], map[Wallet(0) := PROPOSAL_BOND, Wallet(1) := tokens])
  }

  function VoteTwice(tokens: nat): seq<Step> {
    [Step(CreateProposal(0, 0, 0, 0, 0), 0), Step(CastVote(0, 1, For), 0),
     Step(Pay(1, 2, tokens), 0), Step(CastVote(0, 2, For), 0)]
  }

  lemma Extend(s: State, steps: seq<Step>, step: Step, b: State, after: State)
    requires Run(s, steps) == b && Apply(b, step.op, step.now) == Done(after)
    ensures Run(s, steps + [step]) == after
  {
    assert (steps + [step])[..|steps|] == steps;
  }

  lemma TwoHoldersTotal(tokens: nat)
    ensures Total(TwoHolders(tokens).balances) == PROPOSAL_BOND + tokens
  {
    var l: Ledger := map[Wallet(0) := PROPOSAL_BOND];
    TotalUpdate(map[], Wallet(0), PROPOSAL_BOND);
    TotalUpdate(l, Wallet(1), tokens);
    assert TwoHolders(tokens).balances == l[Wallet(1) := tokens];
  }

  function Proposed(votes: nat): Proposal {
    Proposal(0, votes, 0, 0, 0, VOTING_PERIOD_SECONDS, 0, Active)
  }

  function Locked(tokens: nat): State {
    State(PROPOSAL_BOND + tokens, [Proposed(0)], map[],
        map[Wallet(0) := 0, Wallet(1) := tokens, Held(0) := PROPOSAL_BOND])
  }

  function VotedOnce(tokens: nat): State {
    Locked(tokens).(proposals := [Proposed(tokens)], votes := map[(0, 1) := Vote(For, tokens)])
  }

  function PaidOn(tokens: nat): State {
    VotedOnce(tokens).(balances := map[Wallet(0) := 0, Wallet(1) := 0, Held(0) := PROPOSAL_BOND, Wallet(2) := tokens])
  }

  function VotedTwice(tokens: nat): State {
    PaidOn(tokens).(proposals := [Proposed(2 * tokens)],
                    votes := map[(0, 1) := Vote(For, tokens), (0, 2) := Vote(For, tokens)])
  }

  lemma Locks(tokens: nat)
    ensures Apply(TwoHolders(tokens), CreateProposal(0, 0, 0, 0, 0), 0) == Done(Locked(tokens))
  {
    var s := TwoHolders(tokens);
    assert Transfer(s.balances, Wallet(0), Held(0), PROPOSAL_BOND).Done?;
    assert Transfer(s.balances, Wallet(0), Held(0), PROPOSAL_BOND).value == Locked(tokens).balances;
    assert s.proposals + [Proposed(0)] == [Proposed(0)];
  }

  lemma CastsOnce(tokens: nat)
    requires 0 < tokens <= U64_MAX
    ensures Apply(Locked(tokens), CastVote(0, 1, For), 0) == Done(VotedOnce(tokens))
  {
    var s := Locked(tokens);
    assert Balance(s.balances, Wallet(1)) == tokens;
    assert AddVotes(Proposed(0), For, tokens) == Proposed(tokens);
    assert [Proposed(0)][0 := Proposed(tokens)] == [Proposed(tokens)];
    assert s.votes[(0, 1) := Vote(For, tokens)] == VotedOnce(tokens).votes;
  }

  lemma PaysOn(tokens: nat)
    requires 0 < tokens <= U64_MAX
    ensures Apply(VotedOnce(tokens), Pay(1, 2, tokens), 0) == Done(PaidOn(tokens))
  {
    var s := VotedOnce(tokens);
    assert Transfer(s.balances, Wallet(1), Wallet(2), tokens).Done?;
    assert Transfer(s.balances, Wallet(1), Wallet(2), tokens).value == PaidOn(tokens).balances;
  }

  lemma CastsTwice(tokens: nat)
    requires 0 < tokens && 2 * tokens <= U64_MAX
    ensures Apply(PaidOn(tokens), CastVote(0, 2, For), 0) == Done(VotedTwice(tokens))
  {
    var s := PaidOn(tokens);
    assert Balance(s.balances, Wallet(2)) == tokens;
    assert AddVotes(Proposed(tokens), For, tokens) == Proposed(2 * tokens);
    assert [Proposed(tokens)][0 := Proposed(2 * tokens)] == [Proposed(2 * tokens)];
    assert s.votes[(0, 2) := Vote(For, tokens)] == VotedTwice(tokens).votes;
  }

  // One holder's tokens, voted, paid on and voted again, count twice; with more of them than the bond,
  // there are more votes than tokens.
  lemma TokensCountTwice(tokens: nat)
    requires tokens > 0 && PROPOSAL_BOND + 2 * tokens <= U64_MAX
    ensures FreshStart(TwoHolders(tokens))
    ensures Total(TwoHolders(tokens).balances) == TwoHolders(tokens).totalSupply == PROPOSAL_BOND + tokens
    ensures VotesOn(Run(TwoHolders(tokens), VoteTwice(tokens)), 0) == 2 * tokens
  {
    var s, steps := TwoHolders(tokens), VoteTwice(tokens);
    TwoHoldersTotal(tokens);
    Locks(tokens);
    CastsOnce(tokens);
    PaysOn(tokens);
    CastsTwice(tokens);
    assert Run(s, []) == s;
    hide Apply, Run, Total, Locked, VotedOnce, PaidOn;
    Extend(s, [], steps[0], s, Locked(tokens));
    Extend(s, [] + [steps[0]], steps[1], Locked(tokens), VotedOnce(tokens));
    Extend(s, [] + [steps[0]] + [steps[1]], steps[2], VotedOnce(tokens), PaidOn(tokens));
    Extend(s, [] + [steps[0]] + [steps[1]] + [steps[2]], steps[3], PaidOn(tokens), VotedTwice(tokens));
    assert steps == [] + [steps[0]] + [steps[1]] + [steps[2]] + [steps[3]];
  }
}
