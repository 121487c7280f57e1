// What the tallies and the times of a proposal are in terms of the steps of a run that went through:
// who voted what with which balance, who proposed it and when.
module GovernanceVotes {
  import opened Governance
  import opened TokenLedger

  predicate GoesThrough(s: State, steps: seq<Step>, i: nat)
    requires i < |steps|
  {
    Apply(Run(s, steps[..i]), steps[i].op, steps[i].now).Done?
  }

  // Step i creates proposal id: the one that is numbered with the proposals there are so far.
  predicate Creates(s: State, steps: seq<Step>, i: nat, id: nat) {
    && i < |steps| && steps[i].op.CreateProposal? && GoesThrough(s, steps, i)
    && |Run(s, steps[..i]).proposals| == id
  }

  // Step i finalises proposal id.
  predicate Finalizes(s: State, steps: seq<Step>, i: nat, id: nat) {
    i < |steps| && steps[i].op.FinalizeProposal? && steps[i].op.id == id && GoesThrough(s, steps, i)
  }

  // ----- one instruction -----

  // create_proposal goes through exactly under its guards; the proposer's wallet pays the bond of
  // 1000 tokens of six decimals and is recorded, and the vote lasts a week.
  lemma CreateRecords(s: State, proposer: Pubkey, titleLength: nat, cidLength: nat, proposalType: nat,
                      calldataLength: nat, now: int)
    requires Invariant(s)
    ensures var o := Apply(s, CreateProposal(proposer, titleLength, cidLength, proposalType, calldataLength), now);
            && (o.Done? <==>
                  && titleLength <= 128 && cidLength <= 128 && proposalType <= 6 && calldataLength <= 512
                  && Balance(s.balances, Wallet(proposer)) >= 1_000_000_000
                  && now + 604_800 <= I64_MAX && |s.proposals| < U64_MAX)
            && (o.Done? ==>
                  && o.value.votes == s.votes
                  && |o.value.proposals| == |s.proposals| + 1 && o.value.proposals[..|s.proposals|] == s.proposals
                  && var p := o.value.proposals[|s.proposals|];
                     && p.proposer == proposer && p.createdAt == now && p.votingEndsAt == now + 604_800
                     && p.votesFor == 0 && p.votesAgainst == 0 && p.votesAbstain == 0 && p.status == Active
                     && forall q :: Balance(o.value.balances, Wallet(q)) ==
                          Balance(s.balances, Wallet(q)) - (if q == proposer then 1_000_000_000 else 0))
  {
    TransferFacts(s.balances, Wallet(proposer), Held(|s.proposals|), PROPOSAL_BOND);
  }

  // cast_vote goes through exactly under its guards; it adds the voter's balance to the tally of the
  // choice and to no other, and records both.
  lemma CastRecords(s: State, id: nat, voter: Pubkey, choice: Choice, now: int)
    requires id < |s.proposals|
    ensures var o, p, power := Apply(s, CastVote(id, voter, choice), now), s.proposals[id],
              Balance(s.balances, Wallet(voter));
            && (o.Done? <==>
                  && p.status == Active && now <= p.votingEndsAt && power > 0 && (id, voter) !in s.votes
                  && (choice == For ==> p.votesFor + power <= U64_MAX)
                  && (choice == Against ==> p.votesAgainst + power <= U64_MAX)
                  && (choice == Abstain ==> p.votesAbstain + power <= U64_MAX))
            && (o.Done? ==>
                  && o.value.votes == s.votes[(id, voter) := Vote(choice, power)] && o.value.balances == s.balances
                  && |o.value.proposals| == |s.proposals|
                  && (forall i :: 0 <= i < |s.proposals| && i != id ==> o.value.proposals[i] == s.proposals[i])
                  && var p' := o.value.proposals[id];
                     && p'.votesFor == p.votesFor + (if choice == For then power else 0)
                     && p'.votesAgainst == p.votesAgainst + (if choice == Against then power else 0)
                     && p'.votesAbstain == p.votesAbstain + (if choice == Abstain then power else 0)
                     && p' == p.(votesFor := p'.votesFor, votesAgainst := p'.votesAgainst,
                          votesAbstain := p'.votesAbstain))
  {
  }

  // Finalisation with quorum 4% and majority 60%, as the divisions round them, and a delay of two days.
  lemma FinalizeRecords(s: State, id: nat, now: int)
    requires Apply(s, FinalizeProposal(id), now).Done?
    ensures id < |s.proposals| && s.proposals[id].status == Active && now > s.proposals[id].votingEndsAt
    ensures var p, s' := s.proposals[id], Apply(s, FinalizeProposal(id), now).value;
            var total := p.votesFor + p.votesAgainst + p.votesAbstain;
            && s'.votes == s.votes && s'.balances == s.balances
            && if 10_000 * (total + 1) > 400 * s.totalSupply && 10_000 * (p.votesFor + 1) > 6_000 * total then
                 s'.proposals == s.proposals[id := p.(status := Passed, executableAt := now + 172_800)]
               else
                 s'.proposals == s.proposals[id := p.(status := Failed)]
  {
    FinalizeFacts(s, id, now);
  }

  // What any other instruction leaves of a proposal.
  lemma ProposalAfter(s: State, op: Op, now: int, id: nat)
    requires Apply(s, op, now).Done? && id < |s.proposals|
    requires !(op.CastVote? && op.id == id) && !(op.FinalizeProposal? && op.id == id)
    ensures id < |Apply(s, op, now).value.proposals|
    ensures var p, p' := s.proposals[id], Apply(s, op, now).value.proposals[id];
            p' == p.(status := p'.status) && (p'.status != p.status ==> p.status == Passed && p'.status == Executed)
  {
  }

  lemma ProposalsAfter(s: State, op: Op, now: int)
    requires Apply(s, op, now).Done?
    ensures |Apply(s, op, now).value.proposals| == |s.proposals| + if op.CreateProposal? then 1 else 0
    ensures op.CastVote? || op.FinalizeProposal? || op.ExecuteProposal? ==> op.id < |s.proposals|
  {
  }

  // ----- the tallies, from the steps alone -----

  // What one step gives to one choice on one proposal: the voter's balance, if it is a vote for it
  // that goes through.
  function Given(s: State, step: Step, id: nat, c: Choice): nat {
    match step.op
    case CastVote(on, voter, choice) =>
      if on == id && choice == c && Apply(s, step.op, step.now).Done? then Balance(s.balances, Wallet(voter)) else 0
    case _ => 0
  }

  function VotesGiven(s: State, steps: seq<Step>, id: nat, c: Choice): nat {
    if |steps| == 0 then 0
    else
      var before := steps[..|steps| - 1];
      VotesGiven(s, before, id, c) + Given(Run(s, before), steps[|steps| - 1], id, c)
  }

  // In every run, each of the three tallies is what the votes for it have given.
  lemma {:induction false} TalliesAreVotesGiven(s: State, steps: seq<Step>, id: nat)
    requires FreshStart(s)
    ensures id >= |Run(s, steps).proposals| ==> forall c :: VotesGiven(s, steps, id, c) == 0
    ensures id < |Run(s, steps).proposals| ==>
              var p := Run(s, steps).proposals[id];
              && p.votesFor == VotesGiven(s, steps, id, For)
              && p.votesAgainst == VotesGiven(s, steps, id, Against)
              && p.votesAbstain == VotesGiven(s, steps, id, Abstain)
  {
    if |steps| == 0 {
    } else {
      var before, step := steps[..|steps| - 1], steps[|steps| - 1];
      var b := Run(s, before);
      TalliesAreVotesGiven(s, before, id);
      RunKeeps(s, before);
      if Apply(b, step.op, step.now).Done? {
        TalliesNext(b, step, id);
      }
    }
  }

  lemma TalliesNext(s: State, step: Step, id: nat)
    requires Invariant(s) && Apply(s, step.op, step.now).Done?
    ensures var s' := Apply(s, step.op, step.now).value;
            && |s.proposals| <= |s'.proposals|
            && (id >= |s.proposals| ==> forall c :: Given(s, step, id, c) == 0)
            && (id < |s'.proposals| ==>
                  var p' := s'.proposals[id];
                  if id < |s.proposals| then
                    && p'.votesFor == s.proposals[id].votesFor + Given(s, step, id, For)
                    && p'.votesAgainst == s.proposals[id].votesAgainst + Given(s, step, id, Against)
                    && p'.votesAbstain == s.proposals[id].votesAbstain + Given(s, step, id, Abstain)
                  else p'.votesFor == 0 && p'.votesAgainst == 0 && p'.votesAbstain == 0)
  {
    hide Apply, Invariant;
    ProposalsAfter(s, step.op, step.now);
    match step.op
    case CreateProposal(proposer, titleLength, cidLength, proposalType, calldataLength) =>
      CreateRecords(s, proposer, titleLength, cidLength, proposalType, calldataLength, step.now);
      if id < |s.proposals| {
        ProposalAfter(s, step.op, step.now, id);
      }
    case CastVote(on, voter, choice) => CastRecords(s, on, voter, choice, step.now);
    case FinalizeProposal(on) => FinalizeRecords(s, on, step.now);
    case _ =>
      if id < |s.proposals| {
        ProposalAfter(s, step.op, step.now, id);
      }
  }

  // Step i votes on proposal id for a voter.
  predicate Casts(s: State, steps: seq<Step>, i: nat, id: nat, voter: Pubkey) {
    && i < |steps| && steps[i].op.CastVote? && steps[i].op.id == id && steps[i].op.voter == voter
    && GoesThrough(s, steps, i)
  }

  // In every run, who has a vote record is who voted, with the choice and the balance of that step.
  lemma {:induction false} VotesRecorded(s: State, steps: seq<Step>, id: nat, voter: Pubkey)
    requires FreshStart(s)
    ensures (id, voter) in Run(s, steps).votes <==> exists i: nat :: Casts(s, steps, i, id, voter)
    ensures forall i: nat :: Casts(s, steps, i, id, voter) ==> CastAs(s, steps, i, id, voter, Run(s, steps).votes)
  {
    if |steps| == 0 {
    } else {
      var k := |steps| - 1;
      var b := Run(s, steps[..k]);
      VotesRecorded(s, steps[..k], id, voter);
      forall i: nat | i < k
        ensures Casts(s, steps[..k], i, id, voter) == Casts(s, steps, i, id, voter)
        ensures Casts(s, steps, i, id, voter) ==>
                  CastAs(s, steps[..k], i, id, voter, b.votes) == CastAs(s, steps, i, id, voter, b.votes)
      {
        assert steps[..k][..i] == steps[..i];
      }
      if Apply(b, steps[k].op, steps[k].now).Done? {
        VotesAfter(b, steps[k].op, steps[k].now, id, voter);
      }
      VotesRecordedNext(s, steps, id, voter);
    }
  }

  ghost predicate CastAs(s: State, steps: seq<Step>, i: nat, id: nat, voter: Pubkey, votes: Governance.Votes)
    requires i < |steps| && steps[i].op.CastVote?
  {
    (id, voter) in votes &&
    votes[(id, voter)] == Vote(steps[i].op.choice, Balance(Run(s, steps[..i]).balances, Wallet(voter)))
  }

  lemma VotesRecordedNext(s: State, steps: seq<Step>, id: nat, voter: Pubkey)
    requires |steps| > 0
    requires var k := |steps| - 1;
             && ((id, voter) in Run(s, steps[..k]).votes <==> exists i: nat :: Casts(s, steps[..k], i, id, voter))
             && (forall i: nat :: i < k ==> Casts(s, steps[..k], i, id, voter) == Casts(s, steps, i, id, voter))
             && (forall i: nat :: i < k && Casts(s, steps, i, id, voter) ==>
                   CastAs(s, steps, i, id, voter, Run(s, steps[..k]).votes))
    requires var k := |steps| - 1;
             if Casts(s, steps, k, id, voter) then
               (id, voter) !in Run(s, steps[..k]).votes && CastAs(s, steps, k, id, voter, Run(s, steps).votes)
             else
               && ((id, voter) in Run(s, steps).votes <==> (id, voter) in Run(s, steps[..k]).votes)
               && ((id, voter) in Run(s, steps).votes ==>
                     Run(s, steps).votes[(id, voter)] == Run(s, steps[..k]).votes[(id, voter)])
    ensures (id, voter) in Run(s, steps).votes <==> exists i: nat :: Casts(s, steps, i, id, voter)
    ensures forall i: nat :: Casts(s, steps, i, id, voter) ==> CastAs(s, steps, i, id, voter, Run(s, steps).votes)
  {
    hide Run, Casts;
    var k := |steps| - 1;
    if (id, voter) in Run(s, steps).votes && !Casts(s, steps, k, id, voter) {
      var i: nat :| Casts(s, steps[..k], i, id, voter);
      CastsWithin(s, steps[..k], i, id, voter);
      assert Casts(s, steps, i, id, voter);
    }
    forall i: nat | Casts(s, steps, i, id, voter)
      ensures i < |steps| && steps[i].op.CastVote? && CastAs(s, steps, i, id, voter, Run(s, steps).votes)
    {
      CastsWithin(s, steps, i, id, voter);
      if i < k {
        assert Casts(s, steps[..k], i, id, voter);
        assert CastAs(s, steps, i, id, voter, Run(s, steps[..k]).votes);
      }
    }
  }

  lemma CastsWithin(s: State, steps: seq<Step>, i: nat, id: nat, voter: Pubkey)
    ensures Casts(s, steps, i, id, voter) ==> i < |steps| && steps[i].op.CastVote?
  {
  }

  lemma VotesAfter(s: State, op: Op, now: int, id: nat, voter: Pubkey)
    requires Apply(s, op, now).Done?
    ensures var votes := Apply(s, op, now).value.votes;
            if op.CastVote? && op.id == id && op.voter == voter then
              && (id, voter) !in s.votes && (id, voter) in votes
              && votes[(id, voter)] == Vote(op.choice, Balance(s.balances, Wallet(voter)))
            else
              && ((id, voter) in votes <==> (id, voter) in s.votes)
              && ((id, voter) in votes ==> votes[(id, voter)] == s.votes[(id, voter)])
  {
  }

  // ----- who proposed, and what the times are -----

  ghost predicate CreateRecorded(s: State, steps: seq<Step>, id: nat, p: Proposal) {
    && (exists i: nat :: Creates(s, steps, i, id))
    && (forall i: nat :: Creates(s, steps, i, id) ==>
          && p.proposer == steps[i].op.proposer && p.createdAt == steps[i].now
          && p.votingEndsAt == steps[i].now + 604_800)
  }

  // Unless it has passed or failed, nothing has finalised it; if it has passed, it can be executed
  // two days after that.
  ghost predicate FinalizeRecorded(s: State, steps: seq<Step>, id: nat, p: Proposal) {
    && ((exists i: nat :: Finalizes(s, steps, i, id)) <==> p.status != Active)
    && (forall i: nat :: Finalizes(s, steps, i, id) && p.status != Failed ==>
          p.executableAt == steps[i].now + 172_800)
  }

  ghost predicate Recorded(s: State, steps: seq<Step>, id: nat) {
    if id < |Run(s, steps).proposals| then
      && CreateRecorded(s, steps, id, Run(s, steps).proposals[id])
      && FinalizeRecorded(s, steps, id, Run(s, steps).proposals[id])
    else
      forall i: nat :: !Creates(s, steps, i, id) && !Finalizes(s, steps, i, id)
  }

  lemma SameSteps(s: State, steps: seq<Step>, k: nat, i: nat, id: nat)
    requires i < k <= |steps|
    ensures Creates(s, steps[..k], i, id) == Creates(s, steps, i, id)
    ensures Finalizes(s, steps[..k], i, id) == Finalizes(s, steps, i, id)
  {
    assert steps[..k][..i] == steps[..i];
  }

  // The steps before the last one create and finalise as they did.
  ghost predicate SameSoFar(s: State, steps: seq<Step>, id: nat)
    requires |steps| > 0
  {
    var k := |steps| - 1;
    forall i: nat :: i < k ==> Creates(s, steps[..k], i, id) == Creates(s, steps, i, id) &&
                               Finalizes(s, steps[..k], i, id) == Finalizes(s, steps, i, id)
  }

  lemma SoFar(s: State, steps: seq<Step>, id: nat)
    requires |steps| > 0
    ensures SameSoFar(s, steps, id)
  {
    var k := |steps| - 1;
    forall i: nat | i < k
      ensures Creates(s, steps[..k], i, id) == Creates(s, steps, i, id)
      ensures Finalizes(s, steps[..k], i, id) == Finalizes(s, steps, i, id)
    {
      SameSteps(s, steps, k, i, id);
    }
  }

  lemma StepsWithin(s: State, steps: seq<Step>, i: nat, id: nat)
    ensures Creates(s, steps, i, id) || Finalizes(s, steps, i, id) ==> i < |steps|
    ensures Creates(s, steps, i, id) ==> steps[i].op.CreateProposal?
    ensures Finalizes(s, steps, i, id) ==> steps[i].op.FinalizeProposal?
  {
  }

  lemma {:induction false} RecordedAlways(s: State, steps: seq<Step>, id: nat)
    requires FreshStart(s)
    ensures Recorded(s, steps, id)
  {
    if |steps| == 0 {
    } else {
      var k := |steps| - 1;
      RecordedAlways(s, steps[..k], id);
      RunKeeps(s, steps[..k]);
      SoFar(s, steps, id);
      RecordedNext(s, steps, id);
    }
  }

  lemma RecordedNext(s: State, steps: seq<Step>, id: nat)
    requires |steps| > 0 && Recorded(s, steps[..|steps| - 1], id) && SameSoFar(s, steps, id)
    requires Invariant(Run(s, steps[..|steps| - 1]))
    ensures Recorded(s, steps, id)
  {
    var k := |steps| - 1;
    var b, step := Run(s, steps[..k]), steps[k];
    assert Run(s, steps) == Commit(b, Apply(b, step.op, step.now));
    assert id < |b.proposals| ==> !Creates(s, steps, k, id);
    assert Finalizes(s, steps, k, id) <==>
           step.op.FinalizeProposal? && step.op.id == id && Apply(b, step.op, step.now).Done?;
    hide Run, Apply, Invariant, Recorded, Creates, Finalizes;
    if Apply(b, step.op, step.now).Done? {
      ProposalsAfter(b, step.op, step.now);
      if id < |b.proposals| {
        DatesNext(b, step, id);
        KnownNext(s, steps, id);
      } else if id < |Run(s, steps).proposals| {
        FirstRecorded(s, steps);
      } else {
        UnknownNext(s, steps, id);
      }
    } else if id < |b.proposals| {
      KnownNext(s, steps, id);
    } else {
      UnknownNext(s, steps, id);
    }
  }

  // What a step does to the people and times of a proposal.
  ghost predicate DatesKept(p: Proposal, p': Proposal, finalized: bool, step: Step) {
    && p'.proposer == p.proposer && p'.createdAt == p.createdAt && p'.votingEndsAt == p.votingEndsAt
    && if finalized then
         && p.status == Active && (p'.status == Passed || p'.status == Failed)
         && (p'.status == Passed ==> p'.executableAt == step.now + 172_800)
       else
         && p'.executableAt == p.executableAt && (p'.status == Active <==> p.status == Active)
         && (p'.status == Failed <==> p.status == Failed)
  }

  lemma DatesNext(s: State, step: Step, id: nat)
    requires Apply(s, step.op, step.now).Done? && id < |s.proposals|
    requires id < |Apply(s, step.op, step.now).value.proposals|
    ensures DatesKept(s.proposals[id], Apply(s, step.op, step.now).value.proposals[id],
                step.op.FinalizeProposal? && step.op.id == id, step)
  {
    if step.op.FinalizeProposal? && step.op.id == id {
      hide Apply;
      FinalizeRecords(s, id, step.now);
    } else if step.op.CastVote? && step.op.id == id {
      hide Apply;
      CastRecords(s, id, step.op.voter, step.op.choice, step.now);
    } else {
      ProposalAfter(s, step.op, step.now, id);
    }
  }

  lemma KnownNext(s: State, steps: seq<Step>, id: nat)
    requires |steps| > 0 && Recorded(s, steps[..|steps| - 1], id) && SameSoFar(s, steps, id)
    requires id < |Run(s, steps[..|steps| - 1]).proposals| && id < |Run(s, steps).proposals|
    requires !Creates(s, steps, |steps| - 1, id)
    requires DatesKept(Run(s, steps[..|steps| - 1]).proposals[id], Run(s, steps).proposals[id],
                 Finalizes(s, steps, |steps| - 1, id), steps[|steps| - 1])
    ensures Recorded(s, steps, id)
  {
    hide Run, Creates, Finalizes, CreateRecorded, FinalizeRecorded;
    var p, p' := Run(s, steps[..|steps| - 1]).proposals[id], Run(s, steps).proposals[id];
    KnownCreate(s, steps, id, p, p');
    KnownFinalize(s, steps, id, p, p');
  }

  lemma KnownCreate(s: State, steps: seq<Step>, id: nat, p: Proposal, p': Proposal)
    requires |steps| > 0 && CreateRecorded(s, steps[..|steps| - 1], id, p) && SameSoFar(s, steps, id)
    requires !Creates(s, steps, |steps| - 1, id)
    requires p'.proposer == p.proposer && p'.createdAt == p.createdAt && p'.votingEndsAt == p.votingEndsAt
    ensures CreateRecorded(s, steps, id, p')
  {
    hide Creates, Finalizes;
    var k := |steps| - 1;
    var first: nat :| Creates(s, steps[..k], first, id);
    StepsWithin(s, steps[..k], first, id);
    assert Creates(s, steps, first, id);
    forall i: nat | Creates(s, steps, i, id)
      ensures i < |steps| && steps[i].op.CreateProposal? && p'.proposer == steps[i].op.proposer
      ensures p'.createdAt == steps[i].now && p'.votingEndsAt == steps[i].now + 604_800
    {
      StepsWithin(s, steps, i, id);
      assert Creates(s, steps[..k], i, id);
    }
  }

  lemma KnownFinalize(s: State, steps: seq<Step>, id: nat, p: Proposal, p': Proposal)
    requires |steps| > 0 && FinalizeRecorded(s, steps[..|steps| - 1], id, p) && SameSoFar(s, steps, id)
    requires DatesKept(p, p', Finalizes(s, steps, |steps| - 1, id), steps[|steps| - 1])
    ensures FinalizeRecorded(s, steps, id, p')
  {
    hide Creates, Finalizes;
    var k := |steps| - 1;
    forall i: nat | Finalizes(s, steps, i, id)
      ensures i < |steps| && p'.status != Active
      ensures p'.status != Failed ==> p'.executableAt == steps[i].now + 172_800
    {
      StepsWithin(s, steps, i, id);
      if i < k {
        assert Finalizes(s, steps[..k], i, id);
      }
    }
    if !Finalizes(s, steps, k, id) && p.status != Active {
      var f: nat :| Finalizes(s, steps[..k], f, id);
      StepsWithin(s, steps[..k], f, id);
      assert Finalizes(s, steps, f, id);
    }
  }

  lemma UnknownNext(s: State, steps: seq<Step>, id: nat)
    requires |steps| > 0 && Recorded(s, steps[..|steps| - 1], id) && SameSoFar(s, steps, id)
    requires id >= |Run(s, steps[..|steps| - 1]).proposals| && id >= |Run(s, steps).proposals|
    ensures Recorded(s, steps, id)
  {
    var k := |steps| - 1;
    assert !Creates(s, steps, k, id) && !Finalizes(s, steps, k, id) by {
      if GoesThrough(s, steps, k) {
        ProposalsAfter(Run(s, steps[..k]), steps[k].op, steps[k].now);
      }
    }
    hide Run, Creates, Finalizes;
    forall i: nat ensures !Creates(s, steps, i, id) && !Finalizes(s, steps, i, id) {
      StepsWithin(s, steps, i, id);
    }
  }

  lemma FirstRecorded(s: State, steps: seq<Step>)
    requires |steps| > 0 && steps[|steps| - 1].op.CreateProposal? && GoesThrough(s, steps, |steps| - 1)
    requires var id := |Run(s, steps[..|steps| - 1]).proposals|;
             Recorded(s, steps[..|steps| - 1], id) && SameSoFar(s, steps, id)
    requires Invariant(Run(s, steps[..|steps| - 1]))
    ensures |Run(s, steps).proposals| == |Run(s, steps[..|steps| - 1]).proposals| + 1
    ensures Recorded(s, steps, |Run(s, steps[..|steps| - 1]).proposals|)
  {
    var k := |steps| - 1;
    var b := Run(s, steps[..k]);
    var id := |b.proposals|;
    var CreateProposal(proposer, titleLength, cidLength, proposalType, calldataLength) := steps[k].op;
    assert Run(s, steps) == Commit(b, Apply(b, steps[k].op, steps[k].now));
    hide Run, Apply, Invariant;
    CreateRecords(b, proposer, titleLength, cidLength, proposalType, calldataLength, steps[k].now);
    assert Creates(s, steps, k, id) && !Finalizes(s, steps, k, id);
    forall i: nat | i != k ensures !Creates(s, steps, i, id) && !Finalizes(s, steps, i, id) {
      StepsWithin(s, steps, i, id);
    }
  }

  // The step that created a proposal.
  lemma FindCreate(s: State, steps: seq<Step>, k: nat, id: nat) returns (c: nat)
    requires FreshStart(s) && k <= |steps| && id < |Run(s, steps[..k]).proposals|
    ensures c < k && Creates(s, steps, c, id)
    ensures var p := Run(s, steps[..k]).proposals[id];
            && p.proposer == steps[c].op.proposer && p.createdAt == steps[c].now
            && p.votingEndsAt == steps[c].now + 604_800
  {
    RecordedAlways(s, steps[..k], id);
    c :| Creates(s, steps[..k], c, id);
    SameSteps(s, steps, k, c, id);
  }

  // In every run: votes on a proposal are cast within a week of its creation, it is finalised later,
  // and executed no earlier than two days after that, which gives 1000 tokens of six decimals to the
  // one who proposed it.
  lemma WhenThingsHappen(s: State, steps: seq<Step>, k: nat)
    requires FreshStart(s) && k < |steps| && GoesThrough(s, steps, k)
    ensures match steps[k].op
            case CastVote(id, _, _) =>
              exists c: nat :: c < k && Creates(s, steps, c, id) && steps[k].now <= steps[c].now + 604_800
            case FinalizeProposal(id) =>
              exists c: nat :: c < k && Creates(s, steps, c, id) && steps[k].now > steps[c].now + 604_800
            case ExecuteProposal(id) =>
              && (exists f: nat :: f < k && Finalizes(s, steps, f, id) && steps[k].now >= steps[f].now + 172_800)
              && (exists c: nat :: c < k && Creates(s, steps, c, id) &&
                    Returned(Run(s, steps[..k]), Run(s, steps[..k + 1]), steps[c].op.proposer))
            case _ => true
  {
    match steps[k].op
    case CastVote(id, _, _) =>
      var c := FindCreate(s, steps, k, id);
    case FinalizeProposal(id) =>
      var c := FindCreate(s, steps, k, id);
    case ExecuteProposal(id) =>
      var c := FindCreate(s, steps, k, id);
      WhenExecuted(s, steps, k, id);
    case _ =>
  }

  ghost predicate Returned(s: State, s': State, proposer: Pubkey) {
    forall q :: Balance(s'.balances, Wallet(q)) ==
      Balance(s.balances, Wallet(q)) + (if q == proposer then 1_000_000_000 else 0)
  }

  lemma WhenExecuted(s: State, steps: seq<Step>, k: nat, id: nat)
    requires FreshStart(s) && k < |steps| && GoesThrough(s, steps, k) && steps[k].op == ExecuteProposal(id)
    ensures id < |Run(s, steps[..k]).proposals|
    ensures Returned(Run(s, steps[..k]), Run(s, steps[..k + 1]), Run(s, steps[..k]).proposals[id].proposer)
    ensures exists f: nat :: f < k && Finalizes(s, steps, f, id) && steps[k].now >= steps[f].now + 172_800
  {
    var b := Run(s, steps[..k]);
    RunKeeps(s, steps[..k]);
    assert steps[..k + 1][..k] == steps[..k];
    ExecuteKeeps(b, id, steps[k].now);
    RecordedAlways(s, steps[..k], id);
    var f: nat :| Finalizes(s, steps[..k], f, id);
    SameSteps(s, steps, k, f, id);
  }

  // A proposal is created once and finalised once.
  lemma OnceEach(s: State, steps: seq<Step>, i: nat, j: nat, id: nat)
    requires FreshStart(s) && i <= j
    requires (Creates(s, steps, i, id) && Creates(s, steps, j, id)) ||
             (Finalizes(s, steps, i, id) && Finalizes(s, steps, j, id))
    ensures i == j
  {
    RecordedAlways(s, steps[..j], id);
    if i < j {
      SameSteps(s, steps, j, i, id);
      assert false;
    }
  }
}
