// The governance program: proposals with a bond, token-weighted votes, finalisation after the voting
// period and execution after a time lock.
module Governance {
  import opened TokenLedger

  const QUORUM_BPS: nat := 400
  const PASS_THRESHOLD_BPS: nat := 6_000
  const VOTING_PERIOD_SECONDS: nat := 7 * 24 * 3600
  const EXECUTION_DELAY_SECONDS: nat := 48 * 3600
  const PROPOSAL_BOND: nat := 1_000 * 1_000_000
  const NINE_DAYS: nat := 9 * 24 * 3600

  datatype Status = Active | Passed | Failed | Executed

  datatype Choice = For | Against | Abstain

  datatype Proposal = Proposal(proposer: Pubkey, votesFor: nat, votesAgainst: nat, votesAbstain: nat,
                               createdAt: int, votingEndsAt: int, executableAt: int, status: Status)

  datatype Vote = Vote(choice: Choice, power: nat)

  // The vote record of a voter on a proposal is an account of its own.
  type Votes = map<(nat, Pubkey), Vote>

  datatype State = State(totalSupply: nat, proposals: seq<Proposal>, votes: Votes, balances: Ledger)

  datatype Op =
    | CreateProposal(proposer: Pubkey, titleLength: nat, cidLength: nat, proposalType: nat, calldataLength: nat)
    | CastVote(id: nat, voter: Pubkey, choice: Choice)
    | FinalizeProposal(id: nat)
    | ExecuteProposal(id: nat)
    | Pay(owner: Pubkey, to: Pubkey, amount: nat)  // outside the program: tokens between wallets

  function Create(s: State, proposer: Pubkey, titleLength: nat, cidLength: nat, proposalType: nat, calldataLength: nat,
                  now: int): Outcome<State> {
    if titleLength > 128 then Abort(Rejected("TitleTooLong"))
    else if cidLength > 128 then Abort(Rejected("CidTooLong"))
    else if proposalType > 6 then Abort(Rejected("InvalidProposalType"))
    else if calldataLength > 512 then Abort(Rejected("CalldataTooLong"))
    else
      match Transfer(s.balances, Wallet(proposer), Held(|s.proposals|), PROPOSAL_BOND)
      case Abort(e) => Abort(e)
      case Done(balances) =>
        if now + VOTING_PERIOD_SECONDS > I64_MAX || |s.proposals| >= U64_MAX then Abort(Overflow)
        else Done(s.(balances := balances,
                     proposals := s.proposals +
                       [Proposal(proposer, 0, 0, 0, now, now + VOTING_PERIOD_SECONDS, 0, Active)]))
  }

  function VotesOf(p: Proposal, c: Choice): nat {
    match c
    case For => p.votesFor
    case Against => p.votesAgainst
    case Abstain => p.votesAbstain
  }

  function AddVotes(p: Proposal, c: Choice, power: nat): Proposal {
    match c
    case For => p.(votesFor := p.votesFor + power)
    case Against => p.(votesAgainst := p.votesAgainst + power)
    case Abstain => p.(votesAbstain := p.votesAbstain + power)
  }

  function Cast(s: State, id: nat, voter: Pubkey, choice: Choice, now: int): Outcome<State> {
    if id >= |s.proposals| then Abort(NoAccount)
    else
      var p := s.proposals[id];
      var power := Balance(s.balances, Wallet(voter));
      if p.status != Active then Abort(Rejected("ProposalNotActive"))
      else if now > p.votingEndsAt then Abort(Rejected("VotingEnded"))
      else if power == 0 then Abort(Rejected("NoVotingPower"))
      else if (id, voter) in s.votes then Abort(Rejected("AlreadyVoted"))
      else if VotesOf(p, choice) + power > U64_MAX then Abort(Overflow)
      else Done(s.(votes := s.votes[(id, voter) := Vote(choice, power)],
                   proposals := s.proposals[id := AddVotes(p, choice, power)]))
  }

  function TotalVotes(p: Proposal): nat {
    p.votesFor + p.votesAgainst + p.votesAbstain
  }

  function Quorum(totalSupply: nat): nat {
    totalSupply * QUORUM_BPS / 10_000
  }

  function PassThreshold(totalVotes: nat): nat {
    totalVotes * PASS_THRESHOLD_BPS / 10_000
  }

  function Finalize(s: State, id: nat, now: int): Outcome<State> {
    if id >= |s.proposals| then Abort(NoAccount)
    else
      var p := s.proposals[id];
      if p.status != Active then Abort(Rejected("ProposalNotActive"))
      else if now <= p.votingEndsAt then Abort(Rejected("VotingNotEnded"))
      else if TotalVotes(p) > U64_MAX then Abort(Overflow)
      else if s.totalSupply * QUORUM_BPS > U64_MAX then Abort(Overflow)
      else if TotalVotes(p) < Quorum(s.totalSupply) then Done(s.(proposals := s.proposals[id := p.(status := Failed)]))
      else if TotalVotes(p) * PASS_THRESHOLD_BPS > U64_MAX then Abort(Overflow)
      else if p.votesFor < PassThreshold(TotalVotes(p)) then
        Done(s.(proposals := s.proposals[id := p.(status := Failed)]))
      else if now + EXECUTION_DELAY_SECONDS > I64_MAX then Abort(Overflow)
      else Done(s.(proposals := s.proposals[id := p.(status := Passed, executableAt := now + EXECUTION_DELAY_SECONDS)]))
  }

  function Execute(s: State, id: nat, now: int): Outcome<State> {
    if id >= |s.proposals| then Abort(NoAccount)
    else
      var p := s.proposals[id];
      if p.status != Passed then Abort(Rejected("ProposalNotPassed"))
      else if now < p.executableAt then Abort(Rejected("TimelockNotMet"))
      else
        match Transfer(s.balances, Held(id), Wallet(p.proposer), PROPOSAL_BOND)
        case Abort(e) => Abort(e)
        case Done(balances) => Done(s.(balances := balances, proposals := s.proposals[id := p.(status := Executed)]))
  }

  function Apply(s: State, op: Op, now: int): Outcome<State> {
    match op
    case CreateProposal(proposer, titleLength, cidLength, proposalType, calldataLength) =>
      Create(s, proposer, titleLength, cidLength, proposalType, calldataLength, now)
    case CastVote(id, voter, choice) => Cast(s, id, voter, choice, now)
    case FinalizeProposal(id) => Finalize(s, id, now)
    case ExecuteProposal(id) => Execute(s, id, now)
    case Pay(owner, to, amount) =>
      match Transfer(s.balances, Wallet(owner), Wallet(to), amount)
      case Abort(e) => Abort(e)
      case Done(balances) => Done(s.(balances := balances))
  }

  // ----- tallies -----

  function Weight(k: (nat, Pubkey), v: Vote, id: nat, c: Choice): nat {
    if k.0 == id && v.choice == c then v.power else 0
  }

  // The recorded voting power on a proposal for one choice.
  ghost function Tally(votes: Votes, id: nat, c: Choice): nat {
    if votes == map[] then 0
    else
      var k :| k in votes;
      Weight(k, votes[k], id, c) + Tally(votes - {k}, id, c)
  }

  lemma {:induction false} TallyWithout(votes: Votes, k: (nat, Pubkey), id: nat, c: Choice)
    requires k in votes
    ensures Tally(votes, id, c) == Weight(k, votes[k], id, c) + Tally(votes - {k}, id, c)
    decreases |votes|
  {
    var first :| first in votes &&
                 Tally(votes, id, c) == Weight(first, votes[first], id, c) + Tally(votes - {first}, id, c);
    if first == k {
    } else {
      TallyWithout(votes - {first}, k, id, c);
      TallyWithout(votes - {k}, first, id, c);
      assert votes - {first} - {k} == votes - {k} - {first};
    }
  }

  lemma TallyOneMore(votes: Votes, k: (nat, Pubkey), v: Vote, id: nat, c: Choice)
    requires k !in votes
    ensures Tally(votes[k := v], id, c) == Tally(votes, id, c) + Weight(k, v, id, c)
  {
    TallyWithout(votes[k := v], k, id, c);
    assert votes[k := v] - {k} == votes;
  }

  lemma {:induction false} TallyOfNobody(votes: Votes, id: nat, c: Choice)
    requires forall k :: k in votes ==> k.0 != id
    ensures Tally(votes, id, c) == 0
    decreases |votes|
  {
    if votes == map[] {
    } else {
      var k :| k in votes;
      TallyWithout(votes, k, id, c);
      TallyOfNobody(votes - {k}, id, c);
    }
  }

  // ----- what every instruction keeps -----

  // Quorum and super-majority, as the integer divisions round them.
  predicate Approved(totalSupply: nat, p: Proposal) {
    && 10_000 * (TotalVotes(p) + 1) > QUORUM_BPS * totalSupply
    && 10_000 * (p.votesFor + 1) > PASS_THRESHOLD_BPS * TotalVotes(p)
  }

  ghost predicate ProposalInvariant(s: State, id: nat)
    requires id < |s.proposals|
  {
    var p := s.proposals[id];
    && (forall c :: VotesOf(p, c) == Tally(s.votes, id, c))
    && p.votingEndsAt == p.createdAt + VOTING_PERIOD_SECONDS
    && (p.status == Passed || p.status == Executed ==>
          Approved(s.totalSupply, p) && p.executableAt > p.createdAt + NINE_DAYS)
  }

  function Bond(s: State, id: nat): nat {
    Balance(s.balances, Held(id))
  }

  function BondDue(s: State, id: nat): nat {
    if id < |s.proposals| && s.proposals[id].status != Executed then PROPOSAL_BOND else 0
  }

  // The bond is held from creation until execution.
  ghost predicate Bonded(s: State) {
    forall id: nat :: Bond(s, id) == BondDue(s, id)
  }

  ghost predicate Invariant(s: State) {
    && Total(s.balances) <= U64_MAX && Bonded(s)
    && (forall id :: 0 <= id < |s.proposals| ==> ProposalInvariant(s, id))
    && (forall k :: k in s.votes ==> k.0 < |s.proposals|)
  }

  // Instruction by instruction: what happens to one proposal at time now.
  ghost predicate ProposalStep(before: Proposal, after: Proposal, now: int) {
    && after.createdAt == before.createdAt && after.proposer == before.proposer
    && (before.status != Active || after.status != Active ==> forall c :: VotesOf(after, c) == VotesOf(before, c))
    && (after.status != before.status ==>
          match before.status
          case Active => (after.status == Passed || after.status == Failed) && now > before.votingEndsAt
          case Passed => after.status == Executed && now >= before.executableAt
          case _ => false)
  }

  // Who has voted stays recorded, once.
  ghost predicate VotesKept(before: State, after: State) {
    forall k :: k in before.votes ==> k in after.votes && after.votes[k] == before.votes[k]
  }

  ghost predicate GoodStep(s: State, s': State, now: int) {
    && Invariant(s') && Total(s'.balances) == Total(s.balances) && s'.totalSupply == s.totalSupply
    && VotesKept(s, s')
    && |s.proposals| <= |s'.proposals|
    && forall id :: 0 <= id < |s.proposals| ==> ProposalStep(s.proposals[id], s'.proposals[id], now)
  }

  // Finalisation passes a proposal exactly if quorum and super-majority are met, and goes through
  // exactly if none of its products overflows.
  lemma FinalizeFacts(s: State, id: nat, now: int)
    requires id < |s.proposals| && s.proposals[id].status == Active && now > s.proposals[id].votingEndsAt
    ensures var p := s.proposals[id];
            Finalize(s, id, now).Done? <==>
              && TotalVotes(p) <= U64_MAX && s.totalSupply * QUORUM_BPS <= U64_MAX
              && (TotalVotes(p) >= Quorum(s.totalSupply) ==> TotalVotes(p) * PASS_THRESHOLD_BPS <= U64_MAX)
              && (Approved(s.totalSupply, p) ==> now + EXECUTION_DELAY_SECONDS <= I64_MAX)
    ensures Finalize(s, id, now).Done? ==>
              var p, p' := s.proposals[id], Finalize(s, id, now).value.proposals[id];
              && (p'.status == Passed <==> Approved(s.totalSupply, p))
              && (p'.status == Failed <==> !Approved(s.totalSupply, p))
  {
    var p := s.proposals[id];
    assert TotalVotes(p) >= Quorum(s.totalSupply) <==> 10_000 * (TotalVotes(p) + 1) > QUORUM_BPS * s.totalSupply;
    assert p.votesFor >= PassThreshold(TotalVotes(p)) <==>
           10_000 * (p.votesFor + 1) > PASS_THRESHOLD_BPS * TotalVotes(p);
  }

  lemma CreateKeeps(s: State, proposer: Pubkey, titleLength: nat, cidLength: nat, proposalType: nat,
                    calldataLength: nat,
                    now: int)
    requires Invariant(s) && Create(s, proposer, titleLength, cidLength, proposalType, calldataLength, now).Done?
    ensures GoodStep(s, Create(s, proposer, titleLength, cidLength, proposalType, calldataLength, now).value, now)
  {
    var n := |s.proposals|;
    TransferFacts(s.balances, Wallet(proposer), Held(n), PROPOSAL_BOND);
    var s' := Create(s, proposer, titleLength, cidLength, proposalType, calldataLength, now).value;
    forall id: nat ensures Bond(s', id) == BondDue(s', id) {
      BondIs(s, id);
    }
    forall id | 0 <= id < |s'.proposals| ensures ProposalInvariant(s', id) {
      if id == n {
        forall c ensures VotesOf(s'.proposals[id], c) == Tally(s'.votes, id, c) {
          TallyOfNobody(s.votes, id, c);
        }
      } else {
        assert ProposalInvariant(s, id) && s'.proposals[id] == s.proposals[id];
      }
    }
  }

  lemma BondIs(s: State, id: nat)
    requires Bonded(s)
    ensures Bond(s, id) == BondDue(s, id)
  {
  }

  lemma CastKeeps(s: State, id: nat, voter: Pubkey, choice: Choice, now: int)
    requires Invariant(s) && Cast(s, id, voter, choice, now).Done?
    ensures GoodStep(s, Cast(s, id, voter, choice, now).value, now)
  {
    var s' := Cast(s, id, voter, choice, now).value;
    var v := Vote(choice, Balance(s.balances, Wallet(voter)));
    forall i: nat ensures Bond(s', i) == BondDue(s', i) {
      BondIs(s, i);
    }
    forall i | 0 <= i < |s'.proposals| ensures ProposalInvariant(s', i) {
      assert ProposalInvariant(s, i);
      forall c ensures VotesOf(s'.proposals[i], c) == Tally(s'.votes, i, c) {
        TallyOneMore(s.votes, (id, voter), v, i, c);
      }
    }
  }

  lemma FinalizeKeeps(s: State, id: nat, now: int)
    requires Invariant(s) && Finalize(s, id, now).Done?
    ensures GoodStep(s, Finalize(s, id, now).value, now)
  {
    FinalizeFacts(s, id, now);
    var s' := Finalize(s, id, now).value;
    forall i: nat ensures Bond(s', i) == BondDue(s', i) {
      BondIs(s, i);
    }
    assert ProposalInvariant(s, id);
    forall i | 0 <= i < |s'.proposals| ensures ProposalInvariant(s', i) {
      assert ProposalInvariant(s, i);
    }
  }

  // The bond never fails to be there: a passed proposal can be executed from its time on.
  lemma ExecuteKeeps(s: State, id: nat, now: int)
    requires Invariant(s) && id < |s.proposals|
    ensures Execute(s, id, now).Done? <==> s.proposals[id].status == Passed && now >= s.proposals[id].executableAt
    ensures Execute(s, id, now).Done? ==>
              && GoodStep(s, Execute(s, id, now).value, now)
              && forall q :: Balance(Execute(s, id, now).value.balances, Wallet(q)) ==
                   Balance(s.balances, Wallet(q)) + (if q == s.proposals[id].proposer then PROPOSAL_BOND else 0)
  {
    var p := s.proposals[id];
    BondIs(s, id);
    TransferFacts(s.balances, Held(id), Wallet(p.proposer), PROPOSAL_BOND);
    if Execute(s, id, now).Done? {
      var s' := Execute(s, id, now).value;
      forall i: nat ensures Bond(s', i) == BondDue(s', i) {
        BondIs(s, i);
      }
      assert ProposalInvariant(s, id);
      forall i | 0 <= i < |s'.proposals| ensures ProposalInvariant(s', i) {
        assert ProposalInvariant(s, i);
      }
    }
  }

  lemma PayKeeps(s: State, owner: Pubkey, to: Pubkey, amount: nat, now: int)
    requires Invariant(s) && Apply(s, Pay(owner, to, amount), now).Done?
    ensures GoodStep(s, Apply(s, Pay(owner, to, amount), now).value, now)
  {
    TransferFacts(s.balances, Wallet(owner), Wallet(to), amount);
    var s' := Apply(s, Pay(owner, to, amount), now).value;
    forall i: nat ensures Bond(s', i) == BondDue(s', i) {
      BondIs(s, i);
    }
    forall i | 0 <= i < |s'.proposals| ensures ProposalInvariant(s', i) {
      assert ProposalInvariant(s, i);
    }
  }

  lemma ApplyKeeps(s: State, op: Op, now: int)
    requires Invariant(s) && Apply(s, op, now).Done?
    ensures GoodStep(s, Apply(s, op, now).value, now)
  {
    hide GoodStep, Invariant;
    match op
    case CreateProposal(proposer, titleLength, cidLength, proposalType, calldataLength) =>
      CreateKeeps(s, proposer, titleLength, cidLength, proposalType, calldataLength, now);
    case CastVote(id, voter, choice) => CastKeeps(s, id, voter, choice, now);
    case FinalizeProposal(id) => FinalizeKeeps(s, id, now);
    case ExecuteProposal(id) => ExecuteKeeps(s, id, now);
    case Pay(owner, to, amount) => PayKeeps(s, owner, to, amount, now);
  }

  // ----- whole runs -----

  datatype Step = Step(op: Op, now: int)

  function Run(s: State, steps: seq<Step>): State {
    if |steps| == 0 then s
    else
      var before, step := Run(s, steps[..|steps| - 1]), steps[|steps| - 1];
      Commit(before, Apply(before, step.op, step.now))
  }

  ghost predicate FreshStart(s: State) {
    s.proposals == [] && s.votes == map[] && Total(s.balances) <= U64_MAX && forall id: nat :: Bond(s, id) == 0
  }

  // Over every run: tallies are the sums of the recorded votes, a proposal that passed was approved
  // by them, bonds are held until execution, and no token appears or disappears.
  lemma {:induction false} RunKeeps(s: State, steps: seq<Step>)
    requires FreshStart(s)
    ensures var now := Run(s, steps);
            Invariant(now) && Total(now.balances) == Total(s.balances) && now.totalSupply == s.totalSupply
  {
    if |steps| == 0 {
    } else {
      var before, step := steps[..|steps| - 1], steps[|steps| - 1];
      RunKeeps(s, before);
      if Apply(Run(s, before), step.op, step.now).Done? {
        ApplyKeeps(Run(s, before), step.op, step.now);
      }
    }
  }

  lemma {:induction false} RunFrom(s: State, steps: seq<Step>)
    requires Invariant(s)
    ensures Invariant(Run(s, steps)) && VotesKept(s, Run(s, steps)) && |s.proposals| <= |Run(s, steps).proposals|
    ensures Run(s, steps).totalSupply == s.totalSupply
  {
    if |steps| == 0 {
    } else {
      var before, step := steps[..|steps| - 1], steps[|steps| - 1];
      RunFrom(s, before);
      var b := Run(s, before);
      if Apply(b, step.op, step.now).Done? {
        ApplyKeeps(b, step.op, step.now);
        forall k | k in s.votes ensures k in Run(s, steps).votes && Run(s, steps).votes[k] == s.votes[k] {
          assert k in b.votes && b.votes[k] == s.votes[k];
        }
      }
    }
  }

  ghost predicate Clocked(steps: seq<Step>) {
    forall i, j :: 0 <= i < j < |steps| ==> steps[i].now <= steps[j].now
  }

  // A proposal that has been executed was so more than nine days after its creation.
  lemma {:induction false} ExecutedAfterNineDays(s: State, steps: seq<Step>, id: nat)
    requires FreshStart(s) && Clocked(steps)
    requires id < |Run(s, steps).proposals| && Run(s, steps).proposals[id].status == Executed
    ensures |steps| > 0 && steps[|steps| - 1].now > Run(s, steps).proposals[id].createdAt + NINE_DAYS
  {
    if |steps| == 0 {
    } else {
      var before, step := steps[..|steps| - 1], steps[|steps| - 1];
      var b := Run(s, before);
      RunKeeps(s, before);
      if Apply(b, step.op, step.now).Done? {
        ApplyKeeps(b, step.op, step.now);
        NewProposalsAreActive(b, step.op, step.now);
        assert id < |b.proposals|;
        assert ProposalStep(b.proposals[id], Run(s, steps).proposals[id], step.now);
        assert ProposalInvariant(b, id);
        if b.proposals[id].status == Executed {
          ExecutedAfterNineDays(s, before, id);
        }
      } else {
        ExecutedAfterNineDays(s, before, id);
      }
    }
  }

  lemma NewProposalsAreActive(s: State, op: Op, now: int)
    requires Apply(s, op, now).Done?
    ensures var s' := Apply(s, op, now).value;
            forall id :: |s.proposals| <= id < |s'.proposals| ==> s'.proposals[id].status == Active
  {
  }

  // Once finalised, a proposal keeps its tallies; once failed or executed, its status.
  lemma {:induction false} FinalForever(s: State, id: nat, steps: seq<Step>)
    requires Invariant(s) && id < |s.proposals| && s.proposals[id].status != Active
    ensures id < |Run(s, steps).proposals|
    ensures var p, p' := s.proposals[id], Run(s, steps).proposals[id];
            && (forall c :: VotesOf(p', c) == VotesOf(p, c) == Tally(Run(s, steps).votes, id, c))
            && p'.status != Active
            && (p.status == Failed || p.status == Executed ==> p'.status == p.status)
            && (p.status == Passed ==> p'.status == Passed || p'.status == Executed)
  {
    RunFrom(s, steps);
    assert ProposalInvariant(Run(s, steps), id);
    if |steps| == 0 {
    } else {
      var before, step := steps[..|steps| - 1], steps[|steps| - 1];
      FinalForever(s, id, before);
      RunFrom(s, before);
      var b := Run(s, before);
      if Apply(b, step.op, step.now).Done? {
        ApplyKeeps(b, step.op, step.now);
        assert ProposalStep(b.proposals[id], Run(s, steps).proposals[id], step.now);
      }
    }
  }

  // The bond of a failed proposal is neither returned nor burned: it stays where it is.
  lemma FailedKeepsBond(s: State, id: nat, steps: seq<Step>)
    requires Invariant(s) && id < |s.proposals| && s.proposals[id].status == Failed
    ensures Bond(Run(s, steps), id) == PROPOSAL_BOND
  {
    FinalForever(s, id, steps);
    RunFrom(s, steps);
    BondIs(Run(s, steps), id);
  }

  // With a supply of more than U64_MAX / 400 no proposal is ever finalised.
  lemma {:induction false} LargeSupplyNeverFinalises(s: State, steps: seq<Step>)
    requires Invariant(s) && s.totalSupply * QUORUM_BPS > U64_MAX
    requires forall id :: 0 <= id < |s.proposals| ==> s.proposals[id].status == Active
    ensures forall id :: 0 <= id < |Run(s, steps).proposals| ==> Run(s, steps).proposals[id].status == Active
  {
    if |steps| == 0 {
    } else {
      var before, step := steps[..|steps| - 1], steps[|steps| - 1];
      LargeSupplyNeverFinalises(s, before);
      RunFrom(s, before);
      if Apply(Run(s, before), step.op, step.now).Done? {
        NobodyFinalises(Run(s, before), step.op, step.now);
      }
    }
  }

  lemma NobodyFinalises(s: State, op: Op, now: int)
    requires s.totalSupply * QUORUM_BPS > U64_MAX && Apply(s, op, now).Done?
    requires forall id :: 0 <= id < |s.proposals| ==> s.proposals[id].status == Active
    ensures var s' := Apply(s, op, now).value;
            forall id :: 0 <= id < |s'.proposals| ==> s'.proposals[id].status == Active
  {
  }

  // ----- the program itself, on accounts updated in place -----

  class Program {
    const totalSupply: nat
    var proposals: seq<Proposal>
    var votes: Votes
    var balances: Ledger

    function Abs(): State
      reads this
    {
      State(totalSupply, proposals, votes, balances)
    }

    constructor (totalSupply: nat, balances: Ledger)
      ensures Abs() == State(totalSupply, [], map[], balances)
    {
      this.totalSupply, proposals, votes, this.balances := totalSupply, [], map[], balances;
    }

    method CreateProposal(proposer: Pubkey, titleLength: nat, cidLength: nat, proposalType: nat, calldataLength: nat,
                          now: int)
      returns (r: Outcome<()>)
      modifies this
      ensures var o := Apply(old(Abs()),
              Op.CreateProposal(proposer, titleLength, cidLength, proposalType, calldataLength), now);
              Abs() == Commit(old(Abs()), o) && r == Code(o)
      ensures r.Done? ==>
                && proposals == old(proposals) + [Proposal(proposer, 0, 0, 0, now, now + 604_800, 0, Active)]
                && votes == old(votes) && Balance(old(balances), Wallet(proposer)) >= 1_000_000_000
    {
      if titleLength > 128 {
        return Abort(Rejected("TitleTooLong"));
      }
      if cidLength > 128 {
        return Abort(Rejected("CidTooLong"));
      }
      if proposalType > 6 {
        return Abort(Rejected("InvalidProposalType"));
      }
      if calldataLength > 512 {
        return Abort(Rejected("CalldataTooLong"));
      }
      var locked := Transfer(balances, Wallet(proposer), Held(|proposals|), PROPOSAL_BOND);
      if locked.Abort? {
        return Abort(locked.error);
      }
      if now + VOTING_PERIOD_SECONDS > I64_MAX || |proposals| >= U64_MAX {
        return Abort(Overflow);
      }
      balances := locked.value;
      proposals := proposals + [Proposal(proposer, 0, 0, 0, now, now + VOTING_PERIOD_SECONDS, 0, Active)];
      return Done(());
    }

    method CastVote(id: nat, voter: Pubkey, choice: Choice, now: int) returns (r: Outcome<()>)
      modifies this
      ensures var o := Apply(old(Abs()), Op.CastVote(id, voter, choice), now);
              Abs() == Commit(old(Abs()), o) && r == Code(o)
      ensures r.Done? ==>
                var power := Balance(old(balances), Wallet(voter));
                && id < |old(proposals)| && votes == old(votes)[(id, voter) := Vote(choice, power)]
                && balances == old(balances)
                && var p := old(proposals)[id];
                   proposals == old(proposals)[id := p.(
                     votesFor := p.votesFor + (if choice == For then power else 0),
                     votesAgainst := p.votesAgainst + (if choice == Against then power else 0),
                     votesAbstain := p.votesAbstain + (if choice == Abstain then power else 0))]
    {
      if id >= |proposals| {
        return Abort(NoAccount);
      }
      var p := proposals[id];
      if p.status != Active {
        return Abort(Rejected("ProposalNotActive"));
      }
      if now > p.votingEndsAt {
        return Abort(Rejected("VotingEnded"));
      }
      var votingPower := Balance(balances, Wallet(voter));
      if votingPower == 0 {
        return Abort(Rejected("NoVotingPower"));
      }
      if (id, voter) in votes {
        return Abort(Rejected("AlreadyVoted"));
      }
      match choice {
        case For => p := p.(votesFor := p.votesFor + votingPower);
        case Against => p := p.(votesAgainst := p.votesAgainst + votingPower);
        case Abstain => p := p.(votesAbstain := p.votesAbstain + votingPower);
      }
      if VotesOf(p, choice) > U64_MAX {
        return Abort(Overflow);
      }
      votes := votes[(id, voter) := Vote(choice, votingPower)];
      proposals := proposals[id := p];
      return Done(());
    }

    method FinalizeProposal(id: nat, now: int) returns (r: Outcome<()>)
      modifies this
      ensures var o := Apply(old(Abs()), Op.FinalizeProposal(id), now);
              Abs() == Commit(old(Abs()), o) && r == Code(o)
      ensures r.Done? ==>
                && id < |old(proposals)| && votes == old(votes) && balances == old(balances)
                && var p := old(proposals)[id];
                   var total := p.votesFor + p.votesAgainst + p.votesAbstain;
                   proposals == old(proposals)[id :=
                     if 10_000 * (total + 1) > 400 * totalSupply && 10_000 * (p.votesFor + 1) > 6_000 * total then
                       p.(status := Passed, executableAt := now + 172_800)
                     else p.(status := Failed)]
    {
      if id >= |proposals| {
        return Abort(NoAccount);
      }
      var p := proposals[id];
      if p.status != Active {
        return Abort(Rejected("ProposalNotActive"));
      }
      if now <= p.votingEndsAt {
        return Abort(Rejected("VotingNotEnded"));
      }
      var totalVotes := p.votesFor + p.votesAgainst + p.votesAbstain;
      if totalVotes > U64_MAX || totalSupply * QUORUM_BPS > U64_MAX {
        return Abort(Overflow);
      }
      var quorum := totalSupply * QUORUM_BPS / 10_000;
      if totalVotes < quorum {
        p := p.(status := Failed);
      } else {
        if totalVotes * PASS_THRESHOLD_BPS > U64_MAX {
          return Abort(Overflow);
        }
        var passThreshold := totalVotes * PASS_THRESHOLD_BPS / 10_000;
        if p.votesFor >= passThreshold {
          if now + EXECUTION_DELAY_SECONDS > I64_MAX {
            return Abort(Overflow);
          }
          p := p.(status := Passed, executableAt := now + EXECUTION_DELAY_SECONDS);
        } else {
          p := p.(status := Failed);
        }
      }
      proposals := proposals[id := p];
      return Done(());
    }

    method ExecuteProposal(id: nat, now: int) returns (r: Outcome<()>)
      modifies this
      ensures var o := Apply(old(Abs()), Op.ExecuteProposal(id), now);
              Abs() == Commit(old(Abs()), o) && r == Code(o)
      ensures r.Done? ==>
                && id < |old(proposals)| && old(proposals)[id].status == Passed
                && now >= old(proposals)[id].executableAt && votes == old(votes)
                && proposals == old(proposals)[id := old(proposals)[id].(status := Executed)]
    {
      if id >= |proposals| {
        return Abort(NoAccount);
      }
      var p := proposals[id];
      if p.status != Passed {
        return Abort(Rejected("ProposalNotPassed"));
      }
      if now < p.executableAt {
        return Abort(Rejected("TimelockNotMet"));
      }
      var returned := Transfer(balances, Held(id), Wallet(p.proposer), PROPOSAL_BOND);
      if returned.Abort? {
        return Abort(returned.error);
      }
      balances := returned.value;
      proposals := proposals[id := p.(status := Executed)];
      return Done(());
    }
  }
}
