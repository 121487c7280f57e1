// What the votes on a proposal come to: the tokens of the wallets at the start, and what has moved in
// and out of the wallets that have not voted, less what these still hold.
module GovernanceWallets {
  import opened Governance
  import opened GovernanceTally
  import opened TokenLedger

  lemma TotalByBalance(l: Ledger, m: Ledger)
    requires forall a :: Balance(l, a) == Balance(m, a)
    ensures Total(l) == Total(m)
  {
    TotalMonotone(l, m);
    TotalMonotone(m, l);
  }

  lemma TotalShift(l: Ledger, m: Ledger, a: Account, less: nat, more: nat)
    requires less <= Balance(l, a)
    requires forall b :: Balance(m, b) == Balance(l, b) + if b == a then more - less else 0
    ensures Total(m) == Total(l) - less + more
  {
    hide Balance, Total;
    var n := Balance(l, a) - less + more;
    TotalUpdate(l, a, n);
    forall b ensures Balance(m, b) == Balance(l[a := n], b) {
      BalanceUpdate(l, a, n, b);
    }
    TotalByBalance(m, l[a := n]);
  }

  predicate Waits(s: State, id: nat, a: Account) {
    a.Wallet? && (id, a.owner) !in s.votes
  }

  // The wallets that have not voted on a proposal.
  function Waiting(s: State, id: nat): Ledger {
    map a | a in s.balances && Waits(s, id, a) :: s.balances[a]
  }

  lemma WaitingBalance(s: State, id: nat, a: Account)
    ensures Balance(Waiting(s, id), a) == if Waits(s, id, a) then Balance(s.balances, a) else 0
  {
  }

  // What one instruction brings into these wallets from elsewhere: voted wallets, or a returned bond.
  function InBy(s: State, id: nat, op: Op, now: int): nat {
    if Apply(s, op, now).Abort? then 0
    else match op
      case Pay(owner, to, amount) => if Waits(s, id, Wallet(to)) && !Waits(s, id, Wallet(owner)) then amount else 0
      case ExecuteProposal(i) => if Waits(s, id, Wallet(s.proposals[i].proposer)) then PROPOSAL_BOND else 0
      case _ => 0
  }

  // And what it takes from them to elsewhere, other than by a vote: voted wallets, or a bond.
  function OutBy(s: State, id: nat, op: Op, now: int): nat {
    if Apply(s, op, now).Abort? then 0
    else match op
      case Pay(owner, to, amount) => if Waits(s, id, Wallet(owner)) && !Waits(s, id, Wallet(to)) then amount else 0
      case CreateProposal(proposer, _, _, _, _) => if Waits(s, id, Wallet(proposer)) then PROPOSAL_BOND else 0
      case _ => 0
  }

  function In(s: State, id: nat, steps: seq<Step>): nat {
    if |steps| == 0 then 0
    else
      var before, step := steps[..|steps| - 1], steps[|steps| - 1];
      In(s, id, before) + InBy(Run(s, before), id, step.op, step.now)
  }

  function Out(s: State, id: nat, steps: seq<Step>): nat {
    if |steps| == 0 then 0
    else
      var before, step := steps[..|steps| - 1], steps[|steps| - 1];
      Out(s, id, before) + OutBy(Run(s, before), id, step.op, step.now)
  }

  // A transfer, with the same votes before and after.
  lemma WaitingAfterTransfer(s: State, s': State, id: nat, from: Account, to: Account, amount: nat)
    requires Total(s.balances) <= U64_MAX && s'.votes == s.votes
    requires Transfer(s.balances, from, to, amount) == Done(s'.balances)
    ensures Total(Waiting(s', id)) ==
            Total(Waiting(s, id)) + (if Waits(s, id, to) && !Waits(s, id, from) then amount else 0)
                                  - (if Waits(s, id, from) && !Waits(s, id, to) then amount else 0)
  {
    TransferFacts(s.balances, from, to, amount);
    var mid := s.(balances := s.balances[from := Balance(s.balances, from) - amount]);
    var w, w1, w' := Waiting(s, id), Waiting(mid, id), Waiting(s', id);
    WaitingBalance(s, id, from);
    forall a
      ensures Balance(w1, a) == Balance(w, a) - (if a == from && Waits(s, id, from) then amount else 0)
      ensures Balance(w', a) == Balance(w1, a) + (if a == to && Waits(s, id, to) then amount else 0)
    {
      WaitingBalance(s, id, a);
      WaitingBalance(mid, id, a);
      WaitingBalance(s', id, a);
      BalanceUpdate(s.balances, from, Balance(s.balances, from) - amount, a);
    }
    hide Waiting, Balance, Total, Transfer;
    TotalShift(w, w1, from, if Waits(s, id, from) then amount else 0, 0);
    TotalShift(w1, w', to, 0, if Waits(s, id, to) then amount else 0);
  }

  ghost predicate Settled(s: State, id: nat, supply: int) {
    VotesOn(s, id) + Total(Waiting(s, id)) == supply
  }

  lemma CastSettled(s: State, id: nat, i: nat, voter: Pubkey, choice: Choice, now: int, supply: int)
    requires Invariant(s) && Cast(s, i, voter, choice, now).Done? && Settled(s, id, supply)
    ensures Settled(Cast(s, i, voter, choice, now).value, id, supply)
  {
    var s' := Cast(s, i, voter, choice, now).value;
    var power := Balance(s.balances, Wallet(voter));
    var w, w' := Waiting(s, id), Waiting(s', id);
    var gone := if i == id then power else 0;
    WaitingBalance(s, id, Wallet(voter));
    forall a ensures Balance(w', a) == Balance(w, a) - if a == Wallet(voter) then gone else 0 {
      WaitingBalance(s, id, a);
      WaitingBalance(s', id, a);
    }
    TotalShift(w, w', Wallet(voter), gone, 0);
  }

  lemma CreateSettled(s: State, id: nat, op: Op, now: int, supply: int)
    requires Invariant(s) && op.CreateProposal? && Apply(s, op, now).Done? && Settled(s, id, supply)
    ensures Settled(Apply(s, op, now).value, id, supply - OutBy(s, id, op, now))
  {
    WaitingAfterTransfer(s, Apply(s, op, now).value, id, Wallet(op.proposer), Held(|s.proposals|), PROPOSAL_BOND);
  }

  lemma FinalizeSettled(s: State, id: nat, i: nat, now: int, supply: int)
    requires Finalize(s, i, now).Done? && Settled(s, id, supply)
    ensures Settled(Finalize(s, i, now).value, id, supply)
  {
    assert Waiting(Finalize(s, i, now).value, id) == Waiting(s, id);
  }

  lemma ExecuteSettled(s: State, id: nat, i: nat, now: int, supply: int)
    requires Invariant(s) && Execute(s, i, now).Done? && Settled(s, id, supply)
    ensures Settled(Execute(s, i, now).value, id, supply + InBy(s, id, ExecuteProposal(i), now))
  {
    WaitingAfterTransfer(s, Execute(s, i, now).value, id, Held(i), Wallet(s.proposals[i].proposer), PROPOSAL_BOND);
  }

  lemma PaySettled(s: State, id: nat, op: Op, now: int, supply: int)
    requires Invariant(s) && op.Pay? && Apply(s, op, now).Done? && Settled(s, id, supply)
    ensures Settled(Apply(s, op, now).value, id, supply + InBy(s, id, op, now) - OutBy(s, id, op, now))
  {
    WaitingAfterTransfer(s, Apply(s, op, now).value, id, Wallet(op.owner), Wallet(op.to), op.amount);
  }

  lemma StepSettled(s: State, id: nat, op: Op, now: int, supply: int)
    requires Invariant(s) && Apply(s, op, now).Done? && Settled(s, id, supply)
    ensures Settled(Apply(s, op, now).value, id, supply + InBy(s, id, op, now) - OutBy(s, id, op, now))
  {
    hide Settled, Invariant;
    match op
    case CreateProposal(_, _, _, _, _) => CreateSettled(s, id, op, now, supply);
    case CastVote(i, voter, choice) => CastSettled(s, id, i, voter, choice, now, supply);
    case FinalizeProposal(i) => FinalizeSettled(s, id, i, now, supply);
    case ExecuteProposal(i) => ExecuteSettled(s, id, i, now, supply);
    case Pay(_, _, _) => PaySettled(s, id, op, now, supply);
  }

  // At the start all tokens are in wallets that have not voted.
  lemma StartSettled(s: State, id: nat)
    requires FreshStart(s)
    ensures Settled(s, id, Total(s.balances))
  {
    forall a ensures Balance(Waiting(s, id), a) == Balance(s.balances, a) {
      WaitingBalance(s, id, a);
      if a.Held? {
        assert Bond(s, a.id) == 0;
      }
    }
    TotalByBalance(Waiting(s, id), s.balances);
  }

  // Over every run, the votes on a proposal and the tokens of the wallets that have not voted on it add
  // up to the supply, plus what came into such wallets, less what left them.
  lemma {:induction false} VotesAreSettled(s: State, steps: seq<Step>, id: nat)
    requires FreshStart(s)
    ensures var now := Run(s, steps);
            VotesOn(now, id) + Total(Waiting(now, id)) == Total(s.balances) + In(s, id, steps) - Out(s, id, steps)
  {
    if |steps| == 0 {
      StartSettled(s, id);
    } else {
      var before, step := steps[..|steps| - 1], steps[|steps| - 1];
      VotesAreSettled(s, before, id);
      RunKeeps(s, before);
      if Apply(Run(s, before), step.op, step.now).Done? {
        StepSettled(Run(s, before), id, step.op, step.now, Total(s.balances) + In(s, id, before) - Out(s, id, before));
      }
    }
  }

  // So there are more votes than tokens exactly if more came into wallets that had not voted than left
  // them and is there still.
  lemma MoreVotesThanTokensIff(s: State, steps: seq<Step>, id: nat)
    requires FreshStart(s)
    ensures VotesOn(Run(s, steps), id) > Total(s.balances) <==>
            In(s, id, steps) > Out(s, id, steps) + Total(Waiting(Run(s, steps), id))
  {
    VotesAreSettled(s, steps, id);
  }
}
