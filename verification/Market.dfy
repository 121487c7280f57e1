// The inference job market: every instruction as a function from the chain's state to a new one or
// an abort, and what holds over all runs of instructions.
module Market {
  import opened TokenLedger

  const PROTOCOL_FEE_BPS: nat := 500
  const CHALLENGE_WINDOW_SECONDS: nat := 300

  datatype JobStatus = Open | InProgress | PendingAcceptance | Completed | Disputed | Refunded

  datatype Job =
    Job(client: Pubkey, node: Pubkey, maxTokens: int, payment: nat, deadline: int, claimedAt: int, status: JobStatus)

  // Jobs are numbered in the order they are posted.
  datatype State = State(treasury: Pubkey, jobs: seq<Job>, balances: Ledger)

  datatype Op =
    | PostJob(client: Pubkey, maxTokens: int, cidLength: nat, payment: nat, deadline: int)
    | ClaimJob(id: nat, node: Pubkey)
    | SubmitResult(id: nat, node: Pubkey, cidLength: nat)
    | AcceptResult(id: nat, client: Pubkey)
    | DisputeResult(id: nat, client: Pubkey, reasonLength: nat)
    | AutoSettle(id: nat)
    | RefundExpired(id: nat)
    | Pay(owner: Pubkey, to: Pubkey, amount: nat)  // outside the program: tokens between wallets

  function SetStatus(s: State, id: nat, status: JobStatus): State
    requires id < |s.jobs|
  {
    s.(jobs := s.jobs[id := s.jobs[id].(status := status)])
  }

  function Post(s: State, client: Pubkey, maxTokens: int, cidLength: nat, payment: nat, deadline: int,
                now: int): Outcome<State> {
    if payment == 0 then Abort(Rejected("ZeroPayment"))
    else if !(0 < maxTokens <= 8192) then Abort(Rejected("InvalidMaxTokens"))
    else if cidLength > 128 then Abort(Rejected("CidTooLong"))
    else if deadline <= now then Abort(Rejected("DeadlineInPast"))
    else
      match Transfer(s.balances, Wallet(client), Held(|s.jobs|), payment)
      case Abort(e) => Abort(e)
      case Done(balances) =>
        if |s.jobs| >= U64_MAX then Abort(Overflow)
        else Done(s.(balances := balances, jobs := s.jobs + [Job(client, 0, maxTokens, payment, deadline, 0, Open)]))
  }

  function Claim(s: State, id: nat, node: Pubkey, now: int): Outcome<State> {
    if id >= |s.jobs| then Abort(NoAccount)
    else
      var job := s.jobs[id];
      if job.status != Open then Abort(Rejected("JobNotOpen"))
      else if now >= job.deadline then Abort(Rejected("JobExpired"))
      else Done(s.(jobs := s.jobs[id := job.(status := InProgress, node := node, claimedAt := now)]))
  }

  function Submit(s: State, id: nat, node: Pubkey, cidLength: nat): Outcome<State> {
    if id >= |s.jobs| then Abort(NoAccount)
    else if cidLength > 128 then Abort(Rejected("CidTooLong"))
    else if s.jobs[id].status != InProgress then Abort(Rejected("JobNotInProgress"))
    else if s.jobs[id].node != node then Abort(Rejected("NotJobNode"))
    else Done(SetStatus(s, id, PendingAcceptance))
  }

  function Fee(payment: nat): nat {
    payment * PROTOCOL_FEE_BPS / 10_000
  }

  // Payment of the node and the protocol fee out of the escrow.
  function Settle(s: State, id: nat): Outcome<State>
    requires id < |s.jobs|
  {
    var job := s.jobs[id];
    if job.payment * PROTOCOL_FEE_BPS > U64_MAX then Abort(Overflow)
    else if Fee(job.payment) > job.payment then Abort(Overflow)
    else
      match Transfer(s.balances, Held(id), Wallet(job.node), job.payment - Fee(job.payment))
      case Abort(e) => Abort(e)
      case Done(l) =>
        match Transfer(l, Held(id), Wallet(s.treasury), Fee(job.payment))
        case Abort(e) => Abort(e)
        case Done(balances) => Done(SetStatus(s, id, Completed).(balances := balances))
  }

  function Accept(s: State, id: nat, client: Pubkey): Outcome<State> {
    if id >= |s.jobs| then Abort(NoAccount)
    else if s.jobs[id].status != PendingAcceptance then Abort(Rejected("ResultNotPending"))
    else if s.jobs[id].client != client then Abort(Rejected("NotJobClient"))
    else Settle(s, id)
  }

  function Dispute(s: State, id: nat, client: Pubkey, reasonLength: nat, now: int): Outcome<State> {
    if id >= |s.jobs| then Abort(NoAccount)
    else if reasonLength > 256 then Abort(Rejected("ReasonTooLong"))
    else
      var job := s.jobs[id];
      if job.status != PendingAcceptance then Abort(Rejected("ResultNotPending"))
      else if job.client != client then Abort(Rejected("NotJobClient"))
      else if job.claimedAt + CHALLENGE_WINDOW_SECONDS > I64_MAX then Abort(Overflow)
      else if now > job.claimedAt + CHALLENGE_WINDOW_SECONDS then Abort(Rejected("ChallengeWindowClosed"))
      else Done(SetStatus(s, id, Disputed))
  }

  function SettleLate(s: State, id: nat, now: int): Outcome<State> {
    if id >= |s.jobs| then Abort(NoAccount)
    else
      var job := s.jobs[id];
      if job.status != PendingAcceptance then Abort(Rejected("ResultNotPending"))
      else if job.claimedAt + CHALLENGE_WINDOW_SECONDS > I64_MAX then Abort(Overflow)
      else if now <= job.claimedAt + CHALLENGE_WINDOW_SECONDS then Abort(Rejected("ChallengeWindowOpen"))
      else Settle(s, id)
  }

  function Refund(s: State, id: nat, now: int): Outcome<State> {
    if id >= |s.jobs| then Abort(NoAccount)
    else
      var job := s.jobs[id];
      if job.status != Open then Abort(Rejected("JobNotOpen"))
      else if now < job.deadline then Abort(Rejected("JobNotExpired"))
      else
        match Transfer(s.balances, Held(id), Wallet(job.client), job.payment)
        case Abort(e) => Abort(e)
        case Done(balances) => Done(SetStatus(s, id, Refunded).(balances := balances))
  }

  function Apply(s: State, op: Op, now: int): Outcome<State> {
    match op
    case PostJob(client, maxTokens, cidLength, payment, deadline) =>
      Post(s, client, maxTokens, cidLength, payment, deadline, now)
    case ClaimJob(id, node) => Claim(s, id, node, now)
    case SubmitResult(id, node, cidLength) => Submit(s, id, node, cidLength)
    case AcceptResult(id, client) => Accept(s, id, client)
    case DisputeResult(id, client, reasonLength) => Dispute(s, id, client, reasonLength, now)
    case AutoSettle(id) => SettleLate(s, id, now)
    case RefundExpired(id) => Refund(s, id, now)
    case Pay(owner, to, amount) =>
      match Transfer(s.balances, Wallet(owner), Wallet(to), amount)
      case Abort(e) => Abort(e)
      case Done(balances) => Done(s.(balances := balances))
  }

  // ----- what every instruction keeps -----

  predicate Live(status: JobStatus) {
    status == Open || status == InProgress || status == PendingAcceptance || status == Disputed
  }

  function Escrow(s: State, id: nat): nat {
    Balance(s.balances, Held(id))
  }

  function EscrowDue(s: State, id: nat): nat {
    if id < |s.jobs| && Live(s.jobs[id].status) then s.jobs[id].payment else 0
  }

  // A job's escrow holds its payment while the job is live, and nothing before or after.
  ghost predicate Escrowed(s: State) {
    forall id: nat :: Escrow(s, id) == EscrowDue(s, id)
  }

  ghost predicate Invariant(s: State) {
    Total(s.balances) <= U64_MAX && Escrowed(s)
  }

  // A job that ends with its escrow emptied keeps the invariant.
  lemma EndKeeps(s: State, s': State, id: nat)
    requires Invariant(s) && id < |s.jobs| && Total(s'.balances) == Total(s.balances)
    requires |s'.jobs| == |s.jobs| && !Live(s'.jobs[id].status)
    requires forall i :: 0 <= i < |s.jobs| && i != id ==> s'.jobs[i] == s.jobs[i]
    requires forall i: nat :: Escrow(s', i) == if i == id then 0 else Escrow(s, i)
    ensures Invariant(s')
  {
    forall i: nat ensures Escrow(s', i) == EscrowDue(s', i) {
      assert Escrow(s, i) == EscrowDue(s, i);
    }
  }

  // A settlement goes through exactly if the fee computation does not overflow; the node gets 95%,
  // rounded up, the treasury the rest, and together they get the payment.
  lemma SettleFacts(s: State, id: nat)
    requires Invariant(s) && id < |s.jobs| && Live(s.jobs[id].status)
    ensures Settle(s, id).Done? <==> s.jobs[id].payment * PROTOCOL_FEE_BPS <= U64_MAX
    ensures Settle(s, id).Abort? ==> Settle(s, id).error == Overflow
    ensures Settle(s, id).Done? ==>
              var s', job := Settle(s, id).value, s.jobs[id];
              && Invariant(s') && Total(s'.balances) == Total(s.balances)
              && s'.treasury == s.treasury && s'.jobs == s.jobs[id := job.(status := Completed)]
              && forall p :: Balance(s'.balances, Wallet(p)) == Balance(s.balances, Wallet(p))
                   + (if p == job.node then job.payment - job.payment / 20 else 0)
                   + (if p == s.treasury then job.payment / 20 else 0)
  {
    var job := s.jobs[id];
    FeeIs(job.payment);
    EscrowIs(s, id);
    hide Fee, Total, Balance, Invariant;
    assert Total(s.balances) <= U64_MAX by {
      TotalBound(s);
    }
    if job.payment * PROTOCOL_FEE_BPS <= U64_MAX {
      SettlePays(s, id);
      hide Settle;
      EndKeeps(s, Settle(s, id).value, id);
    }
  }

  lemma SettlePays(s: State, id: nat)
    requires id < |s.jobs| && Total(s.balances) <= U64_MAX && Escrow(s, id) == s.jobs[id].payment
    requires s.jobs[id].payment * PROTOCOL_FEE_BPS <= U64_MAX
    ensures Settle(s, id).Done?
    ensures var s', job := Settle(s, id).value, s.jobs[id];
            && s' == SetStatus(s, id, Completed).(balances := s'.balances) && Total(s'.balances) == Total(s.balances)
            && forall c :: Balance(s'.balances, c) ==
                 if c == Held(id) then 0
                 else Balance(s.balances, c) + (if c == Wallet(job.node) then job.payment - Fee(job.payment) else 0)
                      + (if c == Wallet(s.treasury) then Fee(job.payment) else 0)
  {
    var job := s.jobs[id];
    FeeIs(job.payment);
    hide Fee, Total, Transfer;
    TwoTransfers(s.balances, Held(id), Wallet(job.node), job.payment - Fee(job.payment), Wallet(s.treasury),
        Fee(job.payment));
    hide Balance;
  }

  lemma FeeIs(payment: nat)
    ensures Fee(payment) == payment / 20 <= payment
  {
  }

  lemma TotalBound(s: State)
    requires Invariant(s)
    ensures Total(s.balances) <= U64_MAX
  {
  }

  // Instruction by instruction: what happens to one job.
  ghost predicate JobStep(before: Job, after: Job) {
    && after.payment == before.payment && after.client == before.client && after.deadline == before.deadline
    && (after.status != before.status ==>
          match before.status
          case Open => after.status == InProgress || after.status == Refunded
          case InProgress => after.status == PendingAcceptance
          case PendingAcceptance =>
            after.status == Disputed || (after.status == Completed && before.payment * PROTOCOL_FEE_BPS <= U64_MAX)
          case _ => false)
    && (after.status == before.status || before.status != Open ==>
          after.node == before.node && after.claimedAt == before.claimedAt)
  }

  lemma PostKeeps(s: State, client: Pubkey, maxTokens: int, cidLength: nat, payment: nat, deadline: int, now: int)
    requires Invariant(s) && Post(s, client, maxTokens, cidLength, payment, deadline, now).Done?
    ensures var s' := Post(s, client, maxTokens, cidLength, payment, deadline, now).value;
            && Invariant(s') && Total(s'.balances) == Total(s.balances) && s'.treasury == s.treasury
            && |s'.jobs| == |s.jobs| + 1 && s'.jobs[..|s.jobs|] == s.jobs
  {
    TransferFacts(s.balances, Wallet(client), Held(|s.jobs|), payment);
    var s' := Post(s, client, maxTokens, cidLength, payment, deadline, now).value;
    forall id: nat ensures Escrow(s', id) == EscrowDue(s', id) {
      assert Escrow(s, id) == EscrowDue(s, id);
    }
  }

  lemma RefundKeeps(s: State, id: nat, now: int)
    requires Invariant(s) && id < |s.jobs|
    ensures Refund(s, id, now).Done? <==> s.jobs[id].status == Open && now >= s.jobs[id].deadline
    ensures Refund(s, id, now).Done? ==>
            var s', job := Refund(s, id, now).value, s.jobs[id];
            && Invariant(s') && Total(s'.balances) == Total(s.balances)
            && s'.treasury == s.treasury && s'.jobs == s.jobs[id := job.(status := Refunded)]
            && forall p :: Balance(s'.balances, Wallet(p)) ==
                 Balance(s.balances, Wallet(p)) + (if p == job.client then job.payment else 0)
  {
    var job := s.jobs[id];
    assert Escrow(s, id) == if Live(job.status) then job.payment else 0;
    TransferFacts(s.balances, Held(id), Wallet(job.client), job.payment);
    if Refund(s, id, now).Done? {
      EndKeeps(s, Refund(s, id, now).value, id);
    }
  }

  // Instructions that move no tokens keep the status live.
  lemma StatusKeeps(s: State, id: nat, job: Job)
    requires Invariant(s) && id < |s.jobs| && Live(s.jobs[id].status)
    requires Live(job.status) && job.payment == s.jobs[id].payment
    ensures Invariant(s.(jobs := s.jobs[id := job]))
  {
    var s' := s.(jobs := s.jobs[id := job]);
    forall other: nat ensures Escrow(s', other) == EscrowDue(s', other) {
      assert Escrow(s, other) == EscrowDue(s, other);
    }
  }

  lemma PayKeeps(s: State, owner: Pubkey, to: Pubkey, amount: nat, now: int)
    requires Invariant(s) && Apply(s, Pay(owner, to, amount), now).Done?
    ensures var s' := Apply(s, Pay(owner, to, amount), now).value;
            Invariant(s') && Total(s'.balances) == Total(s.balances)
  {
    TransferFacts(s.balances, Wallet(owner), Wallet(to), amount);
    var s' := Apply(s, Pay(owner, to, amount), now).value;
    forall id: nat ensures Escrow(s', id) == Escrow(s, id) {
    }
  }

  // Any instruction: the invariant, all tokens, the treasury and the finished jobs stay.
  lemma ApplyKeeps(s: State, op: Op, now: int)
    requires Invariant(s) && Apply(s, op, now).Done?
    ensures var s' := Apply(s, op, now).value;
            && Invariant(s') && Total(s'.balances) == Total(s.balances) && s'.treasury == s.treasury
            && |s.jobs| <= |s'.jobs| && forall id :: 0 <= id < |s.jobs| ==> JobStep(s.jobs[id], s'.jobs[id])
  {
    match op
    case PostJob(client, maxTokens, cidLength, payment, deadline) =>
      PostKeeps(s, client, maxTokens, cidLength, payment, deadline, now);
      var s' := Apply(s, op, now).value;
      forall id | 0 <= id < |s.jobs| ensures s'.jobs[id] == s.jobs[id] {
        assert s'.jobs[..|s.jobs|][id] == s.jobs[id];
      }
    case ClaimJob(id, node) =>
      StatusKeeps(s, id, s.jobs[id].(status := InProgress, node := node, claimedAt := now));
    case SubmitResult(id, node, cidLength) =>
      StatusKeeps(s, id, s.jobs[id].(status := PendingAcceptance));
    case AcceptResult(id, client) => SettleFacts(s, id);
    case DisputeResult(id, client, reasonLength) =>
      StatusKeeps(s, id, s.jobs[id].(status := Disputed));
    case AutoSettle(id) => SettleFacts(s, id);
    case RefundExpired(id) => RefundKeeps(s, id, now);
    case Pay(owner, to, amount) => PayKeeps(s, owner, to, amount, now);
  }

  // ----- which instruction the clock allows -----

  // While a result is pending, the client can dispute it or anybody can settle it, never both; which
  // one depends on the clock alone. Settling also needs the fee to be computable.
  lemma DisputeOrSettle(s: State, id: nat, now: int)
    requires Invariant(s) && id < |s.jobs| && s.jobs[id].status == PendingAcceptance
    requires s.jobs[id].claimedAt + CHALLENGE_WINDOW_SECONDS <= I64_MAX
    ensures Dispute(s, id, s.jobs[id].client, 0, now).Done? <==> now <= s.jobs[id].claimedAt + CHALLENGE_WINDOW_SECONDS
    ensures SettleLate(s, id, now).Done? <==>
              now > s.jobs[id].claimedAt + CHALLENGE_WINDOW_SECONDS && s.jobs[id].payment * PROTOCOL_FEE_BPS <= U64_MAX
  {
    SettleFacts(s, id);
  }

  // An open job can be claimed or refunded, at any time exactly one of the two.
  lemma ClaimOrRefund(s: State, id: nat, node: Pubkey, now: int)
    requires Invariant(s) && id < |s.jobs| && s.jobs[id].status == Open
    ensures Claim(s, id, node, now).Done? <==> Refund(s, id, now).Abort?
  {
    RefundKeeps(s, id, now);
  }

  // ----- whole runs -----

  datatype Step = Step(op: Op, now: int)

  // Aborted instructions leave no trace.
  function Run(s: State, steps: seq<Step>): State {
    if |steps| == 0 then s
    else
      var before := Run(s, steps[..|steps| - 1]);
      var step := steps[|steps| - 1];
      Commit(before, Apply(before, step.op, step.now))
  }

  function Start(treasury: Pubkey, balances: Ledger): State {
    State(treasury, [], balances)
  }

  // What has left a job's escrow in the course of a run.
  function Outflow(s: State, steps: seq<Step>, id: nat): nat {
    if |steps| == 0 then 0
    else
      var before, after := Escrow(Run(s, steps[..|steps| - 1]), id), Escrow(Run(s, steps), id);
      Outflow(s, steps[..|steps| - 1], id) + (if before > after then before - after else 0)
  }

  lemma {:induction false} RunKeeps(s: State, steps: seq<Step>)
    requires Invariant(s)
    ensures Invariant(Run(s, steps)) && Total(Run(s, steps).balances) == Total(s.balances)
    ensures |s.jobs| <= |Run(s, steps).jobs| && Run(s, steps).treasury == s.treasury
  {
    if |steps| == 0 {
    } else {
      var before, step := steps[..|steps| - 1], steps[|steps| - 1];
      RunKeeps(s, before);
      if Apply(Run(s, before), step.op, step.now).Done? {
        ApplyKeeps(Run(s, before), step.op, step.now);
      }
    }
  }

  ghost predicate FreshStart(s: State) {
    s.jobs == [] && Total(s.balances) <= U64_MAX && forall id: nat :: Escrow(s, id) == 0
  }

  // From the start, over every run: escrows match the jobs, no token appears or disappears, and what
  // has ever left a job's escrow is its payment once, if it was completed or refunded, else nothing.
  lemma {:induction false} PaidOnce(s: State, steps: seq<Step>, id: nat)
    requires FreshStart(s)
    ensures var now := Run(s, steps);
            && Invariant(now) && Total(now.balances) == Total(s.balances)
            && Outflow(s, steps, id) == if id < |now.jobs| && !Live(now.jobs[id].status) then now.jobs[id].payment
                 else 0
  {
    RunKeeps(s, steps);
    if |steps| == 0 {
    } else {
      var before, step := steps[..|steps| - 1], steps[|steps| - 1];
      PaidOnce(s, before, id);
      var b, a := Run(s, before), Run(s, steps);
      assert Escrow(b, id) == EscrowDue(b, id);
      assert Escrow(a, id) == EscrowDue(a, id);
      if Apply(b, step.op, step.now).Done? {
        ApplyKeeps(b, step.op, step.now);
        NewJobsAreLive(b, step.op, step.now);
        if id < |b.jobs| {
          assert JobStep(b.jobs[id], a.jobs[id]);
        }
      }
    }
  }

  lemma NewJobsAreLive(s: State, op: Op, now: int)
    requires Apply(s, op, now).Done?
    ensures forall id :: |s.jobs| <= id < |Apply(s, op, now).value.jobs| ==>
            Live(Apply(s, op, now).value.jobs[id].status)
  {
  }

  // ----- payments that never leave their escrow -----

  // Disputed jobs have no way out; nor have claimed ones whose fee overflows a u64.
  predicate Stuck(job: Job) {
    || job.status == Disputed
    || ((job.status == InProgress || job.status == PendingAcceptance) && job.payment * PROTOCOL_FEE_BPS > U64_MAX)
  }

  // Once stuck, a job keeps its payment in escrow whatever instructions follow.
  lemma {:induction false} StuckForever(s: State, id: nat, steps: seq<Step>)
    requires Invariant(s) && id < |s.jobs| && Stuck(s.jobs[id])
    ensures var now := Run(s, steps);
            && id < |now.jobs| && Stuck(now.jobs[id]) && now.jobs[id].payment == s.jobs[id].payment
            && Escrow(now, id) == s.jobs[id].payment
  {
    RunKeeps(s, steps);
    if |steps| == 0 {
    } else {
      var before, step := steps[..|steps| - 1], steps[|steps| - 1];
      StuckForever(s, id, before);
      RunKeeps(s, before);
      var b, a := Run(s, before), Run(s, steps);
      if Apply(b, step.op, step.now).Done? {
        ApplyKeeps(b, step.op, step.now);
        assert JobStep(b.jobs[id], a.jobs[id]);
      }
    }
    assert Escrow(Run(s, steps), id) == Run(s, steps).jobs[id].payment;
  }

  // The instructions that pay out a live job, given the cooperation of those it needs.
  function PayingSteps(job: Job, id: nat, now: int): seq<Step> {
    if job.status == Open then [Step(RefundExpired(id), if now < job.deadline then job.deadline else now)]
    else if job.status == InProgress then [Step(SubmitResult(id, job.node, 0), now),
        Step(AcceptResult(id, job.client), now)]
    else [Step(AcceptResult(id, job.client), now)]
  }

  // A live job that is not stuck can be paid out, whatever has happened so far.
  lemma PaidUnlessStuck(s: State, id: nat, now: int)
    requires Invariant(s) && id < |s.jobs| && Live(s.jobs[id].status) && !Stuck(s.jobs[id])
    ensures var s' := Run(s, PayingSteps(s.jobs[id], id, now));
            id < |s'.jobs| && !Live(s'.jobs[id].status) && Escrow(s', id) == 0
  {
    var job := s.jobs[id];
    var steps := PayingSteps(job, id, now);
    RunKeeps(s, steps);
    if job.status == InProgress {
      var s1 := Submit(s, id, job.node, 0).value;
      RunTwo(s, steps[0], steps[1]);
      StatusKeeps(s, id, job.(status := PendingAcceptance));
      SettleFacts(s1, id);
    } else {
      RunOne(s, steps[0]);
      if job.status == Open {
        RefundKeeps(s, id, steps[0].now);
      } else {
        SettleFacts(s, id);
      }
    }
    EscrowIs(Run(s, steps), id);
  }

  lemma EscrowIs(s: State, id: nat)
    requires Invariant(s) && id < |s.jobs|
    ensures Escrow(s, id) == if Live(s.jobs[id].status) then s.jobs[id].payment else 0
  {
    assert Escrow(s, id) == EscrowDue(s, id);
  }

  lemma RunOne(s: State, a: Step)
    ensures Run(s, [a]) == Commit(s, Apply(s, a.op, a.now))
  {
    assert [a][..0] == [];
  }

  lemma RunTwo(s: State, a: Step, b: Step)
    ensures Run(s, [a, b]) == Run(Run(s, [a]), [b])
  {
    assert [a, b][..1] == [a];
    RunOne(Run(s, [a]), b);
  }

  // ----- the program itself, on accounts updated in place -----

  class Program {
    var treasury: Pubkey
    var jobs: seq<Job>
    var balances: Ledger

    function Abs(): State
      reads this
    {
      State(treasury, jobs, balances)
    }

    constructor (treasury: Pubkey, balances: Ledger)
      ensures Abs() == Start(treasury, balances)
    {
      this.treasury, jobs, this.balances := treasury, [], balances;
    }

    method PostJob(client: Pubkey, maxTokens: int, cidLength: nat, payment: nat, deadline: int, now: int)
      returns (r: Outcome<()>)
      modifies this
      ensures var o := Apply(old(Abs()), Op.PostJob(client, maxTokens, cidLength, payment, deadline), now);
              Abs() == Commit(old(Abs()), o) && r == Code(o)
      ensures r.Done? ==>
                && jobs == old(jobs) + [Job(client, 0, maxTokens, payment, deadline, 0, Open)]
                && Balance(old(balances), Wallet(client)) >= payment
    {
      if payment == 0 {
        return Abort(Rejected("ZeroPayment"));
      }
      if !(maxTokens > 0 && maxTokens <= 8192) {
        return Abort(Rejected("InvalidMaxTokens"));
      }
      if cidLength > 128 {
        return Abort(Rejected("CidTooLong"));
      }
      if deadline <= now {
        return Abort(Rejected("DeadlineInPast"));
      }
      var moved := Transfer(balances, Wallet(client), Held(|jobs|), payment);
      if moved.Abort? {
        return Abort(moved.error);
      }
      if |jobs| >= U64_MAX {
        return Abort(Overflow);
      }
      balances := moved.value;
      jobs := jobs + [Job(client, 0, maxTokens, payment, deadline, 0, Open)];
      return Done(());
    }

    method ClaimJob(id: nat, node: Pubkey, now: int) returns (r: Outcome<()>)
      modifies this
      ensures var o := Apply(old(Abs()), Op.ClaimJob(id, node), now);
              Abs() == Commit(old(Abs()), o) && r == Code(o)
      ensures r.Done? ==>
                && id < |old(jobs)| && old(jobs)[id].status == Open && now < old(jobs)[id].deadline
                && jobs == old(jobs)[id := old(jobs)[id].(status := InProgress, node := node, claimedAt := now)]
                && balances == old(balances)
    {
      if id >= |jobs| {
        return Abort(NoAccount);
      }
      if jobs[id].status != Open {
        return Abort(Rejected("JobNotOpen"));
      }
      if now >= jobs[id].deadline {
        return Abort(Rejected("JobExpired"));
      }
      jobs := jobs[id := jobs[id].(status := InProgress)];
      jobs := jobs[id := jobs[id].(node := node)];
      jobs := jobs[id := jobs[id].(claimedAt := now)];
      return Done(());
    }

    method SubmitResult(id: nat, node: Pubkey, cidLength: nat, now: int) returns (r: Outcome<()>)
      modifies this
      ensures var o := Apply(old(Abs()), Op.SubmitResult(id, node, cidLength), now);
              Abs() == Commit(old(Abs()), o) && r == Code(o)
      ensures r.Done? ==>
                && id < |old(jobs)| && old(jobs)[id].status == InProgress && node == old(jobs)[id].node
                && jobs == old(jobs)[id := old(jobs)[id].(status := PendingAcceptance)] && balances == old(balances)
    {
      if id >= |jobs| {
        return Abort(NoAccount);
      }
      if cidLength > 128 {
        return Abort(Rejected("CidTooLong"));
      }
      if jobs[id].status != InProgress {
        return Abort(Rejected("JobNotInProgress"));
      }
      if jobs[id].node != node {
        return Abort(Rejected("NotJobNode"));
      }
      jobs := jobs[id := jobs[id].(status := PendingAcceptance)];
      return Done(());
    }

    // What accept_result and auto_settle do once their guards hold.
    method PayOut(id: nat) returns (r: Outcome<()>)
      requires id < |jobs|
      modifies this
      ensures Abs() == Commit(old(Abs()), Settle(old(Abs()), id)) && r == Code(Settle(old(Abs()), id))
      ensures r.Done? ==> jobs == old(jobs)[id := old(jobs)[id].(status := Completed)]
    {
      var job := jobs[id];
      if job.payment * PROTOCOL_FEE_BPS > U64_MAX {
        return Abort(Overflow);
      }
      var protocolFee := job.payment * PROTOCOL_FEE_BPS / 10_000;
      if protocolFee > job.payment {
        return Abort(Overflow);
      }
      var nodePayment := job.payment - protocolFee;
      var paid := Transfer(balances, Held(id), Wallet(job.node), nodePayment);
      if paid.Abort? {
        return Abort(paid.error);
      }
      var collected := Transfer(paid.value, Held(id), Wallet(treasury), protocolFee);
      if collected.Abort? {
        return Abort(collected.error);
      }
      balances := collected.value;
      jobs := jobs[id := job.(status := Completed)];
      return Done(());
    }

    method AcceptResult(id: nat, client: Pubkey, now: int) returns (r: Outcome<()>)
      modifies this
      ensures var o := Apply(old(Abs()), Op.AcceptResult(id, client), now);
              Abs() == Commit(old(Abs()), o) && r == Code(o)
      ensures r.Done? ==>
                && id < |old(jobs)| && old(jobs)[id].status == PendingAcceptance && client == old(jobs)[id].client
                && jobs == old(jobs)[id := old(jobs)[id].(status := Completed)]
    {
      if id >= |jobs| {
        return Abort(NoAccount);
      }
      if jobs[id].status != PendingAcceptance {
        return Abort(Rejected("ResultNotPending"));
      }
      if jobs[id].client != client {
        return Abort(Rejected("NotJobClient"));
      }
      r := PayOut(id);
    }

    method DisputeResult(id: nat, client: Pubkey, reasonLength: nat, now: int) returns (r: Outcome<()>)
      modifies this
      ensures var o := Apply(old(Abs()), Op.DisputeResult(id, client, reasonLength), now);
              Abs() == Commit(old(Abs()), o) && r == Code(o)
      ensures r.Done? ==>
                && id < |old(jobs)| && old(jobs)[id].status == PendingAcceptance && client == old(jobs)[id].client
                && now <= old(jobs)[id].claimedAt + 300
                && jobs == old(jobs)[id := old(jobs)[id].(status := Disputed)] && balances == old(balances)
    {
      if id >= |jobs| {
        return Abort(NoAccount);
      }
      if reasonLength > 256 {
        return Abort(Rejected("ReasonTooLong"));
      }
      if jobs[id].status != PendingAcceptance {
        return Abort(Rejected("ResultNotPending"));
      }
      if jobs[id].client != client {
        return Abort(Rejected("NotJobClient"));
      }
      var closes := jobs[id].claimedAt + CHALLENGE_WINDOW_SECONDS;
      if closes > I64_MAX {
        return Abort(Overflow);
      }
      if now > closes {
        return Abort(Rejected("ChallengeWindowClosed"));
      }
      jobs := jobs[id := jobs[id].(status := Disputed)];
      return Done(());
    }

    method AutoSettle(id: nat, now: int) returns (r: Outcome<()>)
      modifies this
      ensures var o := Apply(old(Abs()), Op.AutoSettle(id), now);
              Abs() == Commit(old(Abs()), o) && r == Code(o)
      ensures r.Done? ==>
                && id < |old(jobs)| && old(jobs)[id].status == PendingAcceptance
                && now > old(jobs)[id].claimedAt + 300
                && jobs == old(jobs)[id := old(jobs)[id].(status := Completed)]
    {
      if id >= |jobs| {
        return Abort(NoAccount);
      }
      if jobs[id].status != PendingAcceptance {
        return Abort(Rejected("ResultNotPending"));
      }
      var closes := jobs[id].claimedAt + CHALLENGE_WINDOW_SECONDS;
      if closes > I64_MAX {
        return Abort(Overflow);
      }
      if now <= closes {
        return Abort(Rejected("ChallengeWindowOpen"));
      }
      r := PayOut(id);
    }

    method RefundExpired(id: nat, now: int) returns (r: Outcome<()>)
      modifies this
      ensures var o := Apply(old(Abs()), Op.RefundExpired(id), now);
              Abs() == Commit(old(Abs()), o) && r == Code(o)
      ensures r.Done? ==>
                && id < |old(jobs)| && old(jobs)[id].status == Open && now >= old(jobs)[id].deadline
                && jobs == old(jobs)[id := old(jobs)[id].(status := Refunded)]
    {
      if id >= |jobs| {
        return Abort(NoAccount);
      }
      var job := jobs[id];
      if job.status != Open {
        return Abort(Rejected("JobNotOpen"));
      }
      if now < job.deadline {
        return Abort(Rejected("JobNotExpired"));
      }
      var moved := Transfer(balances, Held(id), Wallet(job.client), job.payment);
      if moved.Abort? {
        return Abort(moved.error);
      }
      balances := moved.value;
      jobs := jobs[id := job.(status := Refunded)];
      return Done(());
    }
  }
}
