// Whose job it is: what a run's steps that went through say about the client and the node of a job,
// about who may act on it and when, and about who is paid.
module MarketParties {
  import opened Market
  import opened TokenLedger

  predicate GoesThrough(s: State, steps: seq<Step>, i: nat)
    requires i < |steps|
  {
    Apply(Run(s, steps[..i]), steps[i].op, steps[i].now).Done?
  }

  // Step i posts job id: the one that is numbered with the jobs there are so far.
  predicate Posts(s: State, steps: seq<Step>, i: nat, id: nat) {
    i < |steps| && steps[i].op.PostJob? && GoesThrough(s, steps, i) && |Run(s, steps[..i]).jobs| == id
  }

  // Step i claims job id.
  predicate Claims(s: State, steps: seq<Step>, i: nat, id: nat) {
    i < |steps| && steps[i].op.ClaimJob? && steps[i].op.id == id && GoesThrough(s, steps, i)
  }

  // ----- one instruction -----

  // post_job goes through exactly under its guards; the wallet of the client pays, and the new job
  // has the terms it was posted with.
  lemma PostRecords(s: State, client: Pubkey, maxTokens: int, cidLength: nat, payment: nat, deadline: int, now: int)
    requires Invariant(s)
    ensures var o := Apply(s, PostJob(client, maxTokens, cidLength, payment, deadline), now);
            && (o.Done? <==>
                  && payment > 0 && 1 <= maxTokens <= 8192 && cidLength <= 128 && now < deadline
                  && Balance(s.balances, Wallet(client)) >= payment && |s.jobs| < U64_MAX)
            && (o.Done? ==>
                  && |o.value.jobs| == |s.jobs| + 1 && o.value.jobs[..|s.jobs|] == s.jobs
                  && var job := o.value.jobs[|s.jobs|];
                     && job.client == client && job.maxTokens == maxTokens
                     && job.payment == payment && job.deadline == deadline && job.status == Open
                     && forall p :: Balance(o.value.balances, Wallet(p)) ==
                          Balance(s.balances, Wallet(p)) - (if p == client then payment else 0))
  {
    TransferFacts(s.balances, Wallet(client), Held(|s.jobs|), payment);
  }

  // What an instruction that goes through does to a job: only a claim sets its node and its time.
  lemma JobAfter(s: State, op: Op, now: int, id: nat)
    requires Apply(s, op, now).Done? && id < |s.jobs|
    ensures |s.jobs| <= |Apply(s, op, now).value.jobs|
    ensures var job, job' := s.jobs[id], Apply(s, op, now).value.jobs[id];
            if op.ClaimJob? && op.id == id then
              && job.status == Open && now < job.deadline
              && job' == job.(status := InProgress, node := op.node, claimedAt := now)
            else
              && job' == job.(status := job'.status)
              && (job'.status == Open || job'.status == Refunded <==> job.status == Open || job.status == Refunded)
  {
  }

  lemma JobsAfter(s: State, op: Op, now: int)
    requires Apply(s, op, now).Done?
    ensures |Apply(s, op, now).value.jobs| == |s.jobs| + if op.PostJob? then 1 else 0
    ensures op.ClaimJob? ==> op.id < |s.jobs|
  {
  }

  // ----- over a run -----

  // The job's terms are those of the step that posted it.
  ghost predicate PostRecorded(s: State, steps: seq<Step>, id: nat, job: Job) {
    && (exists i: nat :: Posts(s, steps, i, id))
    && (forall i: nat :: Posts(s, steps, i, id) ==> PostedAs(job, steps[i].op))
  }

  // It has been claimed exactly if it is neither open nor refunded, and then it has the node and the
  // time of the claim.
  ghost predicate ClaimRecorded(s: State, steps: seq<Step>, id: nat, job: Job) {
    && ((exists i: nat :: Claims(s, steps, i, id)) <==> job.status != Open && job.status != Refunded)
    && (forall i: nat :: Claims(s, steps, i, id) ==> job.node == steps[i].op.node && job.claimedAt == steps[i].now)
  }

  ghost predicate Recorded(s: State, steps: seq<Step>, id: nat) {
    if id < |Run(s, steps).jobs| then
      && PostRecorded(s, steps, id, Run(s, steps).jobs[id])
      && ClaimRecorded(s, steps, id, Run(s, steps).jobs[id])
    else
      forall i: nat :: !Posts(s, steps, i, id) && !Claims(s, steps, i, id)
  }

  predicate PostedAs(job: Job, op: Op)
    requires op.PostJob?
  {
    && job.client == op.client && job.maxTokens == op.maxTokens
    && job.payment == op.payment && job.deadline == op.deadline
  }

  lemma SameSteps(s: State, steps: seq<Step>, k: nat, i: nat, id: nat)
    requires i < k <= |steps|
    ensures Posts(s, steps[..k], i, id) == Posts(s, steps, i, id)
    ensures Claims(s, steps[..k], i, id) == Claims(s, steps, i, id)
  {
    assert steps[..k][..i] == steps[..i];
  }

  lemma SoFar(s: State, steps: seq<Step>, id: nat)
    requires |steps| > 0
    ensures SameSoFar(s, steps, id)
  {
    var k := |steps| - 1;
    forall i: nat | i < k
      ensures Posts(s, steps[..k], i, id) == Posts(s, steps, i, id)
      ensures Claims(s, steps[..k], i, id) == Claims(s, steps, i, id)
    {
      SameSteps(s, steps, k, i, id);
    }
  }

  lemma {:induction false} RecordedAlways(s: State, steps: seq<Step>, id: nat)
    requires FreshStart(s)
    ensures Recorded(s, steps, id)
  {
    if |steps| == 0 {
    } else {
      var k := |steps| - 1;
      RecordedAlways(s, steps[..k], id);
      RunKeeps(s, steps[..k]);
      SoFar(s, steps, id);
      RecordedNext(s, steps, id);
    }
  }

  // The steps before the last one post and claim as they did.
  ghost predicate SameSoFar(s: State, steps: seq<Step>, id: nat)
    requires |steps| > 0
  {
    var k := |steps| - 1;
    forall i: nat :: i < k ==> Posts(s, steps[..k], i, id) == Posts(s, steps, i, id) &&
                               Claims(s, steps[..k], i, id) == Claims(s, steps, i, id)
  }

  lemma RecordedNext(s: State, steps: seq<Step>, id: nat)
    requires |steps| > 0 && Recorded(s, steps[..|steps| - 1], id) && SameSoFar(s, steps, id)
    requires Invariant(Run(s, steps[..|steps| - 1]))
    ensures Recorded(s, steps, id)
  {
    var k := |steps| - 1;
    var b, step := Run(s, steps[..k]), steps[k];
    assert Run(s, steps) == Commit(b, Apply(b, step.op, step.now));
    hide Run, Apply, Invariant, Recorded, PostedAs;
    if Apply(b, step.op, step.now).Done? {
      JobsAfter(b, step.op, step.now);
      if id < |b.jobs| {
        JobAfter(b, step.op, step.now, id);
        KnownNext(s, steps, id);
      } else if id < |Run(s, steps).jobs| {
        FirstRecorded(s, steps);
      } else {
        UnknownNext(s, steps, id);
      }
    } else if id < |b.jobs| {
      KnownNext(s, steps, id);
    } else {
      UnknownNext(s, steps, id);
    }
  }

  // A job there was before the last step, which was or was not its claim.
  ghost predicate ClaimedOrNot(job: Job, job': Job, claimed: bool, step: Step)
    requires claimed ==> step.op.ClaimJob?
  {
    if claimed then
      job.status == Open && job' == job.(status := InProgress, node := step.op.node, claimedAt := step.now)
    else
      && job' == job.(status := job'.status)
      && (job'.status == Open || job'.status == Refunded <==> job.status == Open || job.status == Refunded)
  }

  lemma KnownNext(s: State, steps: seq<Step>, id: nat)
    requires |steps| > 0 && Recorded(s, steps[..|steps| - 1], id) && SameSoFar(s, steps, id)
    requires id < |Run(s, steps[..|steps| - 1]).jobs| && id < |Run(s, steps).jobs|
    requires ClaimedOrNot(Run(s, steps[..|steps| - 1]).jobs[id], Run(s, steps).jobs[id],
                 Claims(s, steps, |steps| - 1, id), steps[|steps| - 1])
    ensures Recorded(s, steps, id)
  {
    var k := |steps| - 1;
    assert !Posts(s, steps, k, id);
    hide Run, Posts, Claims;
    KnownPost(s, steps, id, Run(s, steps[..k]).jobs[id], Run(s, steps).jobs[id]);
    KnownClaim(s, steps, id, Run(s, steps[..k]).jobs[id], Run(s, steps).jobs[id]);
  }

  lemma KnownPost(s: State, steps: seq<Step>, id: nat, job: Job, job': Job)
    requires |steps| > 0 && PostRecorded(s, steps[..|steps| - 1], id, job) && SameSoFar(s, steps, id)
    requires !Posts(s, steps, |steps| - 1, id)
    requires job' == job.(status := job'.status, node := job'.node, claimedAt := job'.claimedAt)
    ensures PostRecorded(s, steps, id, job')
  {
    hide Posts, Claims;
    var k := |steps| - 1;
    var first: nat :| Posts(s, steps[..k], first, id);
    PostsWithin(s, steps[..k], first, id);
    assert Posts(s, steps, first, id);
    forall i: nat | Posts(s, steps, i, id) ensures i < |steps| && steps[i].op.PostJob? && PostedAs(job', steps[i].op) {
      PostsWithin(s, steps, i, id);
      assert Posts(s, steps[..k], i, id);
    }
  }

  lemma KnownClaim(s: State, steps: seq<Step>, id: nat, job: Job, job': Job)
    requires |steps| > 0 && ClaimRecorded(s, steps[..|steps| - 1], id, job) && SameSoFar(s, steps, id)
    requires ClaimedOrNot(job, job', Claims(s, steps, |steps| - 1, id), steps[|steps| - 1])
    ensures ClaimRecorded(s, steps, id, job')
  {
    hide Posts, Claims;
    var k := |steps| - 1;
    forall i: nat | Claims(s, steps, i, id)
      ensures i < |steps| && steps[i].op.ClaimJob? && job'.node == steps[i].op.node && job'.claimedAt == steps[i].now
      ensures job'.status != Open && job'.status != Refunded
    {
      PostsWithin(s, steps, i, id);
      if i < k {
        assert Claims(s, steps[..k], i, id);
      }
    }
    if !Claims(s, steps, k, id) && job.status != Open && job.status != Refunded {
      var c: nat :| Claims(s, steps[..k], c, id);
      PostsWithin(s, steps[..k], c, id);
      assert Claims(s, steps, c, id);
    }
  }

  lemma PostsWithin(s: State, steps: seq<Step>, i: nat, id: nat)
    ensures Posts(s, steps, i, id) || Claims(s, steps, i, id) ==> i < |steps|
    ensures Posts(s, steps, i, id) ==> steps[i].op.PostJob?
    ensures Claims(s, steps, i, id) ==> steps[i].op.ClaimJob?
  {
  }

  lemma UnknownNext(s: State, steps: seq<Step>, id: nat)
    requires |steps| > 0 && Recorded(s, steps[..|steps| - 1], id) && SameSoFar(s, steps, id)
    requires id >= |Run(s, steps[..|steps| - 1]).jobs| && id >= |Run(s, steps).jobs|
    ensures Recorded(s, steps, id)
  {
    var k := |steps| - 1;
    assert !Posts(s, steps, k, id) && !Claims(s, steps, k, id) by {
      if GoesThrough(s, steps, k) {
        JobsAfter(Run(s, steps[..k]), steps[k].op, steps[k].now);
      }
    }
    hide Run, Posts, Claims;
    forall i: nat ensures !Posts(s, steps, i, id) && !Claims(s, steps, i, id) {
      PostsWithin(s, steps, i, id);
    }
  }

  lemma FirstRecorded(s: State, steps: seq<Step>)
    requires |steps| > 0 && steps[|steps| - 1].op.PostJob? && GoesThrough(s, steps, |steps| - 1)
    requires var id := |Run(s, steps[..|steps| - 1]).jobs|;
             Recorded(s, steps[..|steps| - 1], id) && SameSoFar(s, steps, id)
    requires Invariant(Run(s, steps[..|steps| - 1]))
    ensures |Run(s, steps).jobs| == |Run(s, steps[..|steps| - 1]).jobs| + 1
    ensures Recorded(s, steps, |Run(s, steps[..|steps| - 1]).jobs|)
  {
    var k := |steps| - 1;
    var b := Run(s, steps[..k]);
    var id := |b.jobs|;
    var PostJob(client, maxTokens, cidLength, payment, deadline) := steps[k].op;
    assert Run(s, steps) == Commit(b, Apply(b, steps[k].op, steps[k].now));
    hide Run, Apply, Invariant;
    PostRecords(b, client, maxTokens, cidLength, payment, deadline, steps[k].now);
    assert Posts(s, steps, k, id) && !Claims(s, steps, k, id);
    forall i: nat | i != k ensures !Posts(s, steps, i, id) && !Claims(s, steps, i, id) {
      PostsWithin(s, steps, i, id);
    }
  }

  // A job is claimed once.
  lemma OneClaim(s: State, steps: seq<Step>, i: nat, j: nat, id: nat)
    requires FreshStart(s) && i <= j && Claims(s, steps, i, id) && Claims(s, steps, j, id)
    ensures i == j
  {
    RecordedAlways(s, steps[..j], id);
    JobsAfter(Run(s, steps[..j]), steps[j].op, steps[j].now);
    JobAfter(Run(s, steps[..j]), steps[j].op, steps[j].now, id);
    if i < j {
      SameSteps(s, steps, j, i, id);
      assert false;
    }
  }

  // ... and posted once.
  lemma OnePost(s: State, steps: seq<Step>, i: nat, j: nat, id: nat)
    requires FreshStart(s) && i <= j && Posts(s, steps, i, id) && Posts(s, steps, j, id)
    ensures i == j
  {
    RecordedAlways(s, steps[..j], id);
    if i < j {
      SameSteps(s, steps, j, i, id);
      assert false;
    }
  }

  // The claim and the posting of a job that is neither open nor refunded, found in the run.
  lemma FindClaim(s: State, steps: seq<Step>, k: nat, id: nat) returns (c: nat)
    requires FreshStart(s) && k <= |steps| && id < |Run(s, steps[..k]).jobs|
    requires Run(s, steps[..k]).jobs[id].status != Open && Run(s, steps[..k]).jobs[id].status != Refunded
    ensures c < k && Claims(s, steps, c, id)
    ensures Run(s, steps[..k]).jobs[id].node == steps[c].op.node
    ensures Run(s, steps[..k]).jobs[id].claimedAt == steps[c].now
  {
    RecordedAlways(s, steps[..k], id);
    c :| Claims(s, steps[..k], c, id);
    SameSteps(s, steps, k, c, id);
  }

  lemma FindPost(s: State, steps: seq<Step>, k: nat, id: nat) returns (p: nat)
    requires FreshStart(s) && k <= |steps| && id < |Run(s, steps[..k]).jobs|
    ensures p < k && Posts(s, steps, p, id) && PostedAs(Run(s, steps[..k]).jobs[id], steps[p].op)
  {
    RecordedAlways(s, steps[..k], id);
    p :| Posts(s, steps[..k], p, id);
    SameSteps(s, steps, k, p, id);
  }

  // In every run: only the node of a job's one claim submits its result; only the client that posted
  // it accepts or disputes, the latter within 300 seconds of the claim; settlement without the client
  // comes later than that; a claim comes before the posted deadline and a refund does not.
  lemma WhoActs(s: State, steps: seq<Step>, k: nat)
    requires FreshStart(s) && k < |steps| && GoesThrough(s, steps, k)
    ensures match steps[k].op
            case ClaimJob(id, _) =>
              exists p: nat :: p < k && Posts(s, steps, p, id) && steps[k].now < steps[p].op.deadline
            case SubmitResult(id, node, _) =>
              exists c: nat :: c < k && Claims(s, steps, c, id) && steps[c].op.node == node
            case AcceptResult(id, client) =>
              exists p: nat :: p < k && Posts(s, steps, p, id) && steps[p].op.client == client
            case DisputeResult(id, client, _) =>
              && (exists p: nat :: p < k && Posts(s, steps, p, id) && steps[p].op.client == client)
              && (exists c: nat :: c < k && Claims(s, steps, c, id) && steps[k].now <= steps[c].now + 300)
            case AutoSettle(id) =>
              exists c: nat :: c < k && Claims(s, steps, c, id) && steps[k].now > steps[c].now + 300
            case RefundExpired(id) =>
              exists p: nat :: p < k && Posts(s, steps, p, id) && steps[k].now >= steps[p].op.deadline
            case _ => true
  {
    match steps[k].op
    case ClaimJob(id, _) =>
      var p := FindPost(s, steps, k, id);
    case SubmitResult(id, node, _) =>
      var c := FindClaim(s, steps, k, id);
    case AcceptResult(id, client) =>
      var p := FindPost(s, steps, k, id);
    case DisputeResult(id, client, _) =>
      var p := FindPost(s, steps, k, id);
      var c := FindClaim(s, steps, k, id);
    case AutoSettle(id) =>
      var c := FindClaim(s, steps, k, id);
    case RefundExpired(id) =>
      var p := FindPost(s, steps, k, id);
    case _ =>
  }

  // What every wallet gets, and nothing else, from a step.
  ghost predicate Paid(s: State, s': State, first: Pubkey, amount: int, second: Pubkey, rest: int) {
    forall p :: Balance(s'.balances, Wallet(p)) ==
      Balance(s.balances, Wallet(p)) + (if p == first then amount else 0) + (if p == second then rest else 0)
  }

  // In every run: the step that completes a job pays the node of its one claim the posted payment
  // less a twentieth, rounded down, which goes to the treasury.
  lemma WhoIsPaid(s: State, steps: seq<Step>, k: nat, id: nat)
    requires FreshStart(s) && k < |steps| && id < |Run(s, steps[..k]).jobs|
    requires Run(s, steps[..k]).jobs[id].status != Completed && id < |Run(s, steps[..k + 1]).jobs|
    requires Run(s, steps[..k + 1]).jobs[id].status == Completed
    ensures exists p: nat, c: nat :: p < c < k && Posts(s, steps, p, id) && Claims(s, steps, c, id) &&
              Paid(Run(s, steps[..k]), Run(s, steps[..k + 1]), steps[c].op.node,
                   steps[p].op.payment - steps[p].op.payment / 20, s.treasury, steps[p].op.payment / 20)
  {
    var b, a := Run(s, steps[..k]), Run(s, steps[..k + 1]);
    RunKeeps(s, steps[..k]);
    assert steps[..k + 1][..k] == steps[..k];
    ApplyKeeps(b, steps[k].op, steps[k].now);
    assert JobStep(b.jobs[id], a.jobs[id]);
    var c := FindClaim(s, steps, k, id);
    JobsAfter(Run(s, steps[..c]), steps[c].op, steps[c].now);
    var p := FindPost(s, steps, c, id);
    RecordedAlways(s, steps[..k], id);
    SameSteps(s, steps, k, p, id);
    SettleFacts(b, id);
    CompletedBySettling(b, steps[k].op, steps[k].now, id);
  }

  lemma CompletedBySettling(s: State, op: Op, now: int, id: nat)
    requires Apply(s, op, now).Done? && id < |s.jobs| && s.jobs[id].status == PendingAcceptance
    requires Apply(s, op, now).value.jobs[id].status == Completed
    ensures Apply(s, op, now) == Settle(s, id)
  {
  }

  // ... and the step that refunds one gives the posted payment back to the client that posted it.
  lemma WhoIsRefunded(s: State, steps: seq<Step>, k: nat, id: nat)
    requires FreshStart(s) && k < |steps| && id < |Run(s, steps[..k]).jobs|
    requires Run(s, steps[..k]).jobs[id].status != Refunded && id < |Run(s, steps[..k + 1]).jobs|
    requires Run(s, steps[..k + 1]).jobs[id].status == Refunded
    ensures exists p: nat :: p < k && Posts(s, steps, p, id) &&
              Paid(Run(s, steps[..k]), Run(s, steps[..k + 1]), steps[p].op.client, steps[p].op.payment, s.treasury, 0)
  {
    var b, a := Run(s, steps[..k]), Run(s, steps[..k + 1]);
    RunKeeps(s, steps[..k]);
    assert steps[..k + 1][..k] == steps[..k];
    ApplyKeeps(b, steps[k].op, steps[k].now);
    assert JobStep(b.jobs[id], a.jobs[id]);
    RefundedByRefund(b, steps[k].op, steps[k].now, id);
    assert a == Commit(b, Apply(b, steps[k].op, steps[k].now));
    hide Apply, Refund, Run, Recorded, Posts, Claims, Invariant;
    var p := FindPost(s, steps, k, id);
    RefundKeeps(b, id, steps[k].now);
  }

  lemma RefundedByRefund(s: State, op: Op, now: int, id: nat)
    requires Apply(s, op, now).Done? && id < |s.jobs| && s.jobs[id].status != Refunded
    requires id < |Apply(s, op, now).value.jobs| && Apply(s, op, now).value.jobs[id].status == Refunded
    ensures Apply(s, op, now) == Refund(s, id, now)
  {
  }
}
