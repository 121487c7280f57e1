// What the requests have generated: a step gives each running request of the batch its token and
// finishes those that have all of theirs; over every run the tokens of a request are the ones handed
// to it, in order, and a finished one has exactly as many as it asked for.
module SchedulingTokens {
  import opened Outcomes
  import opened Scheduling
  import opened SchedulingProofs
  import opened SchedulingConditions

  // ----- one step -----

  // The entries of a list with one id.
  function WithId(xs: seq<Request>, id: int): seq<Request> {
    if |xs| == 0 then [] else (if xs[0].id == id then [xs[0]] else []) + WithId(xs[1..], id)
  }

  lemma {:induction false} WithIdAppend(xs: seq<Request>, r: Request, id: int)
    ensures WithId(xs + [r], id) == WithId(xs, id) + if r.id == id then [r] else []
  {
    if |xs| == 0 {
      assert xs + [r] == [r];
    } else {
      assert (xs + [r])[1..] == xs[1..] + [r];
      WithIdAppend(xs[1..], r, id);
    }
  }

  lemma {:induction false} WithIdMembers(xs: seq<Request>, r: Request)
    ensures r in WithId(xs, r.id) <==> r in xs
  {
    if |xs| == 0 {
    } else {
      assert xs == [xs[0]] + xs[1..];
      WithIdMembers(xs[1..], r);
    }
  }

  lemma {:induction false} FindPut(xs: seq<Request>, r: Request, id: int)
    ensures Find(Put(xs, r), id) == if id == r.id then Some(r) else Find(xs, id)
  {
    if |xs| == 0 {
    } else {
      assert xs[0].id != r.id ==> Put(xs, r)[1..] == Put(xs[1..], r);
      assert xs[0].id == r.id ==> Put(xs, r)[1..] == xs[1..];
      FindPut(xs[1..], r, id);
    }
  }

  lemma {:induction false} FindRemove(xs: seq<Request>, gone: int, id: int)
    ensures Find(Remove(xs, gone), id) == if id == gone then None else Find(xs, id)
  {
    if |xs| == 0 {
    } else {
      assert xs[0].id != gone ==> Remove(xs, gone)[1..] == Remove(xs[1..], gone);
      FindRemove(xs[1..], gone, id);
    }
  }

  lemma NotAmong(xs: seq<Request>, r: Request)
    requires Count(xs, r.id) == 0
    ensures r !in xs
  {
    CountMember(xs, r.id);
  }

  lemma {:induction false} FindMember(xs: seq<Request>, r: Request)
    requires Count(xs, r.id) <= 1
    ensures r in xs <==> Find(xs, r.id) == Some(r)
  {
    if |xs| == 0 {
    } else {
      assert xs == [xs[0]] + xs[1..];
      if xs[0].id == r.id {
        NotAmong(xs[1..], r);
      } else {
        FindMember(xs[1..], r);
      }
    }
  }

  // What a token does to the request that runs under an id: one token more, and if that was the last
  // one it asked for, it is finished, does not run and owns nothing.
  ghost predicate Advanced(s: Sched, finished: seq<Request>, s': Sched, finished': seq<Request>, id: int, token: int)
    requires Find(s.running, id).Some?
  {
    var r := Find(s.running, id).value;
    var r' := r.(generated := r.generated + [token]);
    if |r.generated| + 1 >= r.maxTokens then
      && Find(s'.running, id) == None && WithId(finished', id) == WithId(finished, id) + [r']
      && id !in s'.owned
    else
      Find(s'.running, id) == Some(r') && WithId(finished', id) == WithId(finished, id)
  }

  ghost predicate LeftAlone(s: Sched, finished: seq<Request>, s': Sched, finished': seq<Request>, id: int) {
    && Find(s'.running, id) == Find(s.running, id) && WithId(finished', id) == WithId(finished, id)
    && (id in s'.owned <==> id in s.owned)
  }

  lemma StepOneAt(cfg: Config, p: Progress, id: int, token: int, x: int)
    requires cfg.blockSize > 0
    ensures var p' := StepOne(cfg, p, id, token);
            if x == id && Find(p.s.running, id).Some? then Advanced(p.s, p.finished, p'.s, p'.finished, id, token)
            else LeftAlone(p.s, p.finished, p'.s, p'.finished, x)
    ensures StepOne(cfg, p, id, token).s.waiting == p.s.waiting || HasId(p.s.waiting, id)
  {
    match Find(p.s.running, id)
    case None =>
    case Some(r) =>
      FindFacts(p.s.running, id);
      var r' := r.(generated := r.generated + [token]);
      FindPut(p.s.running, r', x);
      FindRemove(Put(p.s.running, r'), id, x);
      WithIdAppend(p.finished, r', x);
      RefreshFacts(p.s.waiting, r', id);
      CountMember(p.s.waiting, id);
  }

  // The token a batch has for an id.
  function TokenFor(batch: seq<Request>, tokens: seq<int>, id: int): Option<int>
    requires |batch| == |tokens|
  {
    if |batch| == 0 then None
    else if batch[0].id == id then Some(tokens[0])
    else TokenFor(batch[1..], tokens[1..], id)
  }

  lemma {:induction false} TokenForAt(batch: seq<Request>, tokens: seq<int>, i: nat)
    requires |batch| == |tokens| && i < |batch|
    requires forall j :: 0 <= j < i ==> batch[j].id != batch[i].id
    ensures TokenFor(batch, tokens, batch[i].id) == Some(tokens[i])
  {
    if i > 0 {
      assert batch[1..][i - 1] == batch[i] && tokens[1..][i - 1] == tokens[i];
      forall j | 0 <= j < i - 1 ensures batch[1..][j].id != batch[1..][i - 1].id {
        assert batch[1..][j] == batch[j + 1];
      }
      TokenForAt(batch[1..], tokens[1..], i - 1);
    }
  }

  lemma {:induction false} NoTokenFor(batch: seq<Request>, tokens: seq<int>, id: int)
    requires |batch| == |tokens|
    ensures TokenFor(batch, tokens, id).None? <==> Count(batch, id) == 0
  {
    if |batch| == 0 {
    } else {
      NoTokenFor(batch[1..], tokens[1..], id);
    }
  }

  // A whole step, id by id.
  ghost predicate SteppedAt(s: Sched, finished: seq<Request>, s': Sched, finished': seq<Request>,
                            token: Option<int>, id: int) {
    if token.Some? && Find(s.running, id).Some? then Advanced(s, finished, s', finished', id, token.value)
    else LeftAlone(s, finished, s', finished', id)
  }

  lemma {:induction false} StepLoopAt(cfg: Config, p: Progress, batch: seq<Request>, tokens: seq<int>, id: int)
    requires cfg.blockSize > 0 && |batch| == |tokens| && Count(batch, id) <= 1
    ensures var p' := StepLoop(cfg, p, batch, tokens);
            SteppedAt(p.s, p.finished, p'.s, p'.finished, TokenFor(batch, tokens, id), id)
    decreases |batch|
  {
    if |batch| == 0 {
    } else {
      var q := StepOne(cfg, p, batch[0].id, tokens[0]);
      StepOneAt(cfg, p, batch[0].id, tokens[0], id);
      NoTokenFor(batch[1..], tokens[1..], id);
      StepLoopAt(cfg, q, batch[1..], tokens[1..], id);
      hide StepOne, Count, Find, WithId;
    }
  }

  lemma {:induction false} StepLoopWaiting(cfg: Config, p: Progress, batch: seq<Request>, tokens: seq<int>)
    requires cfg.blockSize > 0 && |batch| == |tokens| && OwnersRun(p.s)
    requires forall i :: Count(p.s.waiting, i) + Count(p.s.running, i) <= 1
    ensures StepLoop(cfg, p, batch, tokens).s.waiting == p.s.waiting
    decreases |batch|
  {
    if |batch| == 0 {
    } else {
      var id := batch[0].id;
      var q := StepOne(cfg, p, id, tokens[0]);
      assert q.s.waiting == p.s.waiting by {
        FindFacts(p.s.running, id);
        StepOneAt(cfg, p, id, tokens[0], id);
        CountMember(p.s.waiting, id);
        assert Count(p.s.waiting, id) + Count(p.s.running, id) <= 1;
      }
      CountsFall(cfg, p, id, tokens[0]);
      hide StepOne, Count, OwnersRun;
      StepLoopWaiting(cfg, q, batch[1..], tokens[1..]);
    }
  }

  lemma CountsFall(cfg: Config, p: Progress, id: int, token: int)
    requires cfg.blockSize > 0 && OwnersRun(p.s)
    requires forall i :: Count(p.s.waiting, i) + Count(p.s.running, i) <= 1
    ensures OwnersRun(StepOne(cfg, p, id, token).s)
    ensures var q := StepOne(cfg, p, id, token);
            forall i :: Count(q.s.waiting, i) + Count(q.s.running, i) <= 1
  {
    forall i ensures Count(p.s.running, i) <= 1 {
      assert Count(p.s.waiting, i) + Count(p.s.running, i) <= 1;
    }
    StepOneKeeps(cfg, p, id, token);
    var q := StepOne(cfg, p, id, token);
    forall i ensures Count(q.s.waiting, i) + Count(q.s.running, i) <= 1 {
      assert Count(p.s.waiting, i) + Count(p.s.running, i) <= 1;
      assert Count(q.s.running, i) <= 1 && Count(q.s.waiting, i) == Count(p.s.waiting, i);
      StepOneAt(cfg, p, id, token, i);
      hide StepOne, OwnersRun, Count, Find;
      FindFacts(p.s.running, i);
      FindFacts(q.s.running, i);
    }
  }

  // ----- the same, on members -----

  // A running request of the batch has its token appended; if it has reached its maxTokens with it, it
  // is finished, does not run any more and owns nothing, else it runs on.
  lemma StepAdvances(cfg: Config, p: Progress, batch: seq<Request>, tokens: seq<int>, i: nat, r: Request)
    requires cfg.blockSize > 0 && |batch| == |tokens| && forall id :: Count(batch, id) <= 1
    requires i < |batch| && r in p.s.running && r.id == batch[i].id && Count(p.s.running, r.id) <= 1
    ensures var p', r' := StepLoop(cfg, p, batch, tokens), r.(generated := r.generated + [tokens[i]]);
            if |r.generated| + 1 >= r.maxTokens then
              r' in p'.finished && !HasId(p'.s.running, r.id) && r.id !in p'.s.owned
            else r' in p'.s.running
  {
    var p', r' := StepLoop(cfg, p, batch, tokens), r.(generated := r.generated + [tokens[i]]);
    assert Count(batch, r.id) <= 1;
    StepLoopAt(cfg, p, batch, tokens, r.id);
    DistinctBefore(batch, i);
    TokenForAt(batch, tokens, i);
    hide StepLoop, HasId, Count, Find, WithId, TokenFor;
    FindMember(p.s.running, r);
    WithIdMembers(p'.finished, r');
    FindFacts(p'.s.running, r.id);
    CountMember(p'.s.running, r.id);
  }

  // One that is not in the batch stays as it is.
  lemma StepLeaves(cfg: Config, p: Progress, batch: seq<Request>, tokens: seq<int>, r: Request)
    requires cfg.blockSize > 0 && |batch| == |tokens| && Count(batch, r.id) == 0
    requires r in p.s.running && Count(p.s.running, r.id) <= 1
    ensures r in StepLoop(cfg, p, batch, tokens).s.running
  {
    StepLoopAt(cfg, p, batch, tokens, r.id);
    NoTokenFor(batch, tokens, r.id);
    hide StepLoop, Count, WithId, TokenFor;
    FindMember(p.s.running, r);
    FindFacts(StepLoop(cfg, p, batch, tokens).s.running, r.id);
  }

  // What runs or has been finished after a step: as before, or with its token.
  lemma StepOrigin(cfg: Config, p: Progress, batch: seq<Request>, tokens: seq<int>, r': Request)
    requires cfg.blockSize > 0 && |batch| == |tokens| && Count(batch, r'.id) <= 1
    ensures var p', token := StepLoop(cfg, p, batch, tokens), TokenFor(batch, tokens, r'.id);
            && (r' in p'.s.running && Count(p'.s.running, r'.id) <= 1 ==>
                  exists r :: r in p.s.running && r.id == r'.id && OneMore(r, token, r') &&
                    (token.Some? ==> |r'.generated| < r'.maxTokens))
            && (r' in p'.finished ==>
                  || r' in p.finished
                  || exists r :: r in p.s.running && r.id == r'.id && token.Some? && OneMore(r, token, r') &&
                       |r'.generated| >= r'.maxTokens)
            && (r' in p.finished ==> r' in p'.finished)
  {
    var p', found := StepLoop(cfg, p, batch, tokens), Find(p.s.running, r'.id);
    StepLoopAt(cfg, p, batch, tokens, r'.id);
    hide StepLoop, Count, Find, WithId, TokenFor;
    FindFacts(p.s.running, r'.id);
    WithIdMembers(p'.finished, r');
    WithIdMembers(p.finished, r');
    if r' in p'.s.running && Count(p'.s.running, r'.id) <= 1 {
      FindMember(p'.s.running, r');
      assert found.Some? && found.value in p.s.running;
    }
    if r' in p'.finished && r' !in p.finished {
      assert found.Some? && found.value in p.s.running;
    }
  }

  ghost predicate OneMore(r: Request, token: Option<int>, r': Request) {
    r' == r.(generated := r.generated + if token.Some? then [token.value] else [])
  }

  lemma DistinctBefore(batch: seq<Request>, i: nat)
    requires i < |batch| && forall id :: Count(batch, id) <= 1
    ensures forall j :: 0 <= j < i ==> batch[j].id != batch[i].id
  {
    var id := batch[i].id;
    assert batch == batch[..i] + batch[i..] && Count(batch, id) <= 1;
    CountAppend(batch[..i], batch[i..], id);
    CountMember(batch[..i], id);
    forall j | 0 <= j < i ensures batch[j].id != batch[i].id {
      assert batch[..i][j] == batch[j] && batch[j] in batch[..i];
    }
  }

  // ----- scheduling changes nobody's tokens -----

  ghost predicate AllIn(xs: seq<Request>, known: set<Request>) {
    forall r :: r in xs ==> r in known
  }

  ghost predicate Known(s: Sched, known: set<Request>) {
    AllIn(s.waiting, known) && AllIn(s.running, known)
  }

  lemma PreemptKnown(s: Sched, r: Request, known: set<Request>)
    requires Known(s, known) && r in known
    ensures Known(Preempt(s, r), known)
  {
    RemoveFacts(s.running, r.id, 0);
  }

  lemma {:induction false} PreemptLoopKnown(s: Sched, candidates: seq<Request>, target: int, freed: nat,
                                            known: set<Request>)
    requires Known(s, known) && AllIn(candidates, known)
    ensures Known(PreemptLoop(s, candidates, target, freed).0, known)
    decreases |candidates|
  {
    if |candidates| == 0 {
    } else if freed < target {
      PreemptKnown(s, candidates[0], known);
      PreemptLoopKnown(Preempt(s, candidates[0]), candidates[1..], target, freed + Owned(s, candidates[0].id), known);
    }
  }

  lemma PreemptToFreeKnown(s: Sched, target: int, exclude: Option<int>, known: set<Request>)
    requires Known(s, known)
    ensures Known(PreemptToFree(s, target, exclude).0, known)
  {
    var others := if exclude.Some? then Remove(s.running, exclude.value) else s.running;
    if exclude.Some? {
      RemoveFacts(s.running, exclude.value, 0);
    }
    SortedFacts(Weaker, others, 0);
    PreemptLoopKnown(s, Sorted(Weaker, others), target, 0, known);
  }

  ghost predicate AdmissionKnown(a: Admission, known: set<Request>) {
    Known(a.s, known) && AllIn(a.admitted, known) && AllIn(a.still, known)
  }

  lemma AdmitOneKnown(cfg: Config, a: Admission, r: Request, known: set<Request>)
    requires cfg.blockSize > 0 && AdmissionKnown(a, known) && r in known
    ensures AdmissionKnown(AdmitOne(cfg, a, r), known)
  {
    var missing := Need(cfg, r) - Owned(a.s, r.id);
    PreemptToFreeKnown(a.s, if missing < 0 then 0 else missing, None, known);
    hide PreemptToFree, Need;
  }

  lemma {:induction false} AdmitLoopKnown(cfg: Config, a: Admission, queue: seq<Request>, known: set<Request>)
    requires cfg.blockSize > 0 && AdmissionKnown(a, known) && AllIn(queue, known)
    ensures AdmissionKnown(AdmitLoop(cfg, a, queue), known)
    decreases |queue|
  {
    if |queue| == 0 {
    } else {
      AdmitOneKnown(cfg, a, queue[0], known);
      AdmitLoopKnown(cfg, AdmitOne(cfg, a, queue[0]), queue[1..], known);
    }
  }

  lemma GrowOneKnown(cfg: Config, s: Sched, r: Request, intended: bool, known: set<Request>)
    requires cfg.blockSize > 0 && Known(s, known) && r in known
    ensures Known(GrowOne(cfg, s, r, intended), known)
  {
    var missing := Need(cfg, r) - Owned(s, r.id);
    PreemptToFreeKnown(s, missing, Some(r.id), known);
    var t := if missing > s.free then PreemptToFree(s, missing, Some(r.id)).0 else s;
    PreemptKnown(t, r, known);
    hide PreemptToFree, Need, Preempt, HasId;
  }

  lemma {:induction false} GrowLoopKnown(cfg: Config, s: Sched, todo: seq<Request>, intended: bool,
                                         known: set<Request>)
    requires cfg.blockSize > 0 && Known(s, known) && AllIn(todo, known)
    ensures Known(GrowLoop(cfg, s, todo, intended), known)
    decreases |todo|
  {
    if |todo| == 0 {
    } else {
      GrowOneKnown(cfg, s, todo[0], intended, known);
      GrowLoopKnown(cfg, GrowOne(cfg, s, todo[0], intended), todo[1..], intended, known);
    }
  }

  // Whoever waits or runs after a schedule did so before it, with the same tokens.
  lemma ScheduleKnown(cfg: Config, s: Sched, intended: bool, known: set<Request>)
    requires cfg.blockSize > 0 && Known(s, known)
    ensures Known(Schedule(cfg, s, intended), known)
  {
    SortedFacts(Before, s.waiting, 0);
    AdmitLoopKnown(cfg, Admission(s, [], [], false), Sorted(Before, s.waiting), known);
    var a := Admit(cfg, s);
    var s1 := AfterAdmission(cfg, s, intended);
    assert Known(s1, known) by {
      hide Admit;
      PutAllSize(a.s.running, a.admitted);
    }
    hide AfterAdmission, Admit;
    GrowLoopKnown(cfg, s1, s1.running, intended, known);
  }

  // ----- over runs -----

  // The request that was added under an id.
  function Added(trace: seq<Op>, id: int): Option<Request> {
    if |trace| == 0 then None
    else
      var last := trace[|trace| - 1];
      if last.AddRequest? && last.r.id == id then Some(last.r) else Added(trace[..|trace| - 1], id)
  }

  // The tokens handed to the request with an id, while it runs, by the steps of a trace, in order.
  function Handed(cfg: Config, numBlocks: nat, trace: seq<Op>, id: int): seq<int>
    requires cfg.blockSize > 0
  {
    if |trace| == 0 then []
    else
      var before, last := trace[..|trace| - 1], trace[|trace| - 1];
      Handed(cfg, numBlocks, before, id) + HandedBy(Run(cfg, numBlocks, before), last, id)
  }

  function HandedBy(y: System, op: Op, id: int): seq<int> {
    if op.DoStep? && |op.tokens| == |y.batch| && Count(y.s.running, id) > 0 then
      match TokenFor(y.batch, op.tokens, id)
      case Some(token) => [token]
      case None => []
    else []
  }

  // r is the request that was added, with the tokens handed to it.
  ghost predicate AsHanded(cfg: Config, numBlocks: nat, trace: seq<Op>, r: Request)
    requires cfg.blockSize > 0
  {
    var added := Added(trace, r.id);
    added.Some? && r == added.value.(generated := added.value.generated + Handed(cfg, numBlocks, trace, r.id))
  }

  ghost predicate TokensRight(cfg: Config, numBlocks: nat, trace: seq<Op>)
    requires cfg.blockSize > 0
  {
    var y := Run(cfg, numBlocks, trace);
    && (forall r :: r in y.s.waiting || r in y.s.running ==>
          AsHanded(cfg, numBlocks, trace, r) && |r.generated| < r.maxTokens)
    && (forall r :: r in y.finished || r in y.drained ==>
          AsHanded(cfg, numBlocks, trace, r) && |r.generated| == r.maxTokens)
  }

  ghost predicate Unfinished(trace: seq<Op>) {
    forall i :: 0 <= i < |trace| && trace[i].AddRequest? ==> |trace[i].r.generated| < trace[i].r.maxTokens
  }

  lemma {:induction false} NotAdded(trace: seq<Op>, id: int)
    ensures Added(trace, id).None? <==> Adds(trace, id) == 0
  {
    if |trace| == 0 {
    } else {
      NotAdded(trace[..|trace| - 1], id);
    }
  }

  lemma {:induction false} NothingHandedYet(cfg: Config, numBlocks: nat, trace: seq<Op>, id: int)
    requires ValidConfig(cfg) && (forall i :: Adds(trace, i) <= 1) && Adds(trace, id) == 0
    ensures Handed(cfg, numBlocks, trace, id) == []
  {
    if |trace| == 0 {
    } else {
      var before := trace[..|trace| - 1];
      forall i ensures Adds(before, i) <= 1 {
        assert Adds(trace, i) <= 1;
      }
      RunConserves(cfg, numBlocks, before);
      NothingHandedYet(cfg, numBlocks, before, id);
      assert Places(Run(cfg, numBlocks, before), id) == Adds(before, id) == 0;
    }
  }

  lemma InList(xs: seq<Request>, r: Request)
    requires r in xs
    ensures Count(xs, r.id) > 0
  {
    CountMember(xs, r.id);
  }

  // An operation that hands the request nothing and does not add it leaves it as it should be.
  lemma StillAsHanded(cfg: Config, numBlocks: nat, trace: seq<Op>, r: Request)
    requires cfg.blockSize > 0 && |trace| > 0 && Adds(trace, r.id) <= 1
    requires AsHanded(cfg, numBlocks, trace[..|trace| - 1], r)
    requires HandedBy(Run(cfg, numBlocks, trace[..|trace| - 1]), trace[|trace| - 1], r.id) == []
    ensures AsHanded(cfg, numBlocks, trace, r)
  {
    NotAdded(trace[..|trace| - 1], r.id);
  }

  lemma OneMoreAsHanded(cfg: Config, numBlocks: nat, trace: seq<Op>, r: Request, token: Option<int>, r': Request)
    requires cfg.blockSize > 0 && |trace| > 0 && trace[|trace| - 1].DoStep? && OneMore(r, token, r')
    requires AsHanded(cfg, numBlocks, trace[..|trace| - 1], r)
    requires HandedBy(Run(cfg, numBlocks, trace[..|trace| - 1]), trace[|trace| - 1], r.id) ==
             if token.Some? then [token.value] else []
    ensures AsHanded(cfg, numBlocks, trace, r')
  {
  }

  lemma {:induction false} BatchOfRun(cfg: Config, numBlocks: nat, trace: seq<Op>, id: int)
    requires ValidConfig(cfg) && forall i :: Adds(trace, i) <= 1
    ensures Count(Run(cfg, numBlocks, trace).batch, id) <= 1
  {
    if |trace| == 0 {
    } else {
      var before, y := trace[..|trace| - 1], Run(cfg, numBlocks, trace);
      forall i ensures Adds(before, i) <= 1 {
        assert Adds(trace, i) <= 1;
      }
      BatchOfRun(cfg, numBlocks, before, id);
      RunConserves(cfg, numBlocks, trace);
      assert Places(y, id) == Adds(trace, id) <= 1;
      BatchDistinct(cfg, y.s, id);
    }
  }

  // In every run in which no id is added twice and every request still wants a token when it is added:
  // whoever waits or runs is the request that was added with the tokens handed to it, and fewer than
  // its maxTokens; whoever has finished is that with exactly maxTokens.
  lemma TokensAsHanded(cfg: Config, numBlocks: nat, trace: seq<Op>)
    requires ValidConfig(cfg) && (forall id :: Adds(trace, id) <= 1) && Unfinished(trace)
    ensures var y := Run(cfg, numBlocks, trace);
            && (forall r :: r in y.s.waiting || r in y.s.running ==>
                  AsHanded(cfg, numBlocks, trace, r) && |r.generated| < r.maxTokens)
            && (forall r :: r in y.finished || r in y.drained ==>
                  AsHanded(cfg, numBlocks, trace, r) && |r.generated| == r.maxTokens)
  {
    TokensAlwaysRight(cfg, numBlocks, trace);
  }

  lemma {:induction false} TokensAlwaysRight(cfg: Config, numBlocks: nat, trace: seq<Op>)
    requires ValidConfig(cfg) && (forall id :: Adds(trace, id) <= 1) && Unfinished(trace)
    ensures TokensRight(cfg, numBlocks, trace)
  {
    if |trace| == 0 {
    } else {
      var before, op := trace[..|trace| - 1], trace[|trace| - 1];
      forall i ensures Adds(before, i) <= 1 {
        assert Adds(trace, i) <= 1;
      }
      UnfinishedBefore(trace);
      hide Run, Adds, TokensRight;
      TokensAlwaysRight(cfg, numBlocks, before);
      match op
      case AddRequest(_) => AddRight(cfg, numBlocks, trace);
      case DoSchedule => ScheduleRight(cfg, numBlocks, trace);
      case DoStep(_) => StepRight(cfg, numBlocks, trace);
      case GetFinished => DrainRight(cfg, numBlocks, trace);
    }
  }

  lemma UnfinishedBefore(trace: seq<Op>)
    requires Unfinished(trace) && |trace| > 0
    ensures Unfinished(trace[..|trace| - 1])
  {
  }

  ghost predicate AddedOnce(trace: seq<Op>) {
    forall id :: Adds(trace, id) <= 1
  }

  ghost predicate RightSoFar(cfg: Config, numBlocks: nat, trace: seq<Op>) {
    && ValidConfig(cfg) && |trace| > 0 && AddedOnce(trace) && AddedOnce(trace[..|trace| - 1]) && Unfinished(trace)
    && TokensRight(cfg, numBlocks, trace[..|trace| - 1])
  }

  lemma AddRight(cfg: Config, numBlocks: nat, trace: seq<Op>)
    requires RightSoFar(cfg, numBlocks, trace) && trace[|trace| - 1].AddRequest?
    ensures TokensRight(cfg, numBlocks, trace)
  {
    var before, a := trace[..|trace| - 1], trace[|trace| - 1].r;
    var y, y' := Run(cfg, numBlocks, before), Run(cfg, numBlocks, trace);
    NothingHandedYet(cfg, numBlocks, before, a.id) by {
      assert Adds(trace, a.id) <= 1;
    }
    assert AsHanded(cfg, numBlocks, trace, a);
    forall r | AsHanded(cfg, numBlocks, before, r) ensures AsHanded(cfg, numBlocks, trace, r) {
      StillAsHanded(cfg, numBlocks, trace, r);
    }
    assert y'.s.waiting == y.s.waiting + [a];
    hide AsHanded, Run;
  }

  lemma ScheduleRight(cfg: Config, numBlocks: nat, trace: seq<Op>)
    requires RightSoFar(cfg, numBlocks, trace) && trace[|trace| - 1].DoSchedule?
    ensures TokensRight(cfg, numBlocks, trace)
  {
    var before := trace[..|trace| - 1];
    var y, y' := Run(cfg, numBlocks, before), Run(cfg, numBlocks, trace);
    assert y'.s == Schedule(cfg, y.s, true) && y'.finished == y.finished && y'.drained == y.drained;
    forall r | AsHanded(cfg, numBlocks, before, r) ensures AsHanded(cfg, numBlocks, trace, r) {
      StillAsHanded(cfg, numBlocks, trace, r);
    }
    hide AsHanded, Run, Schedule, Added, Handed;
    var known := set r | r in y.s.waiting + y.s.running;
    ScheduleKnown(cfg, y.s, true, known);
    forall r | r in y'.s.waiting || r in y'.s.running
      ensures AsHanded(cfg, numBlocks, trace, r) && |r.generated| < r.maxTokens
    {
      assert r in known;
    }
  }

  lemma DrainRight(cfg: Config, numBlocks: nat, trace: seq<Op>)
    requires RightSoFar(cfg, numBlocks, trace) && trace[|trace| - 1].GetFinished?
    ensures TokensRight(cfg, numBlocks, trace)
  {
    var before := trace[..|trace| - 1];
    forall r | AsHanded(cfg, numBlocks, before, r) ensures AsHanded(cfg, numBlocks, trace, r) {
      StillAsHanded(cfg, numBlocks, trace, r);
    }
    assert Run(cfg, numBlocks, trace) == Apply(cfg, Run(cfg, numBlocks, before), GetFinished);
    hide AsHanded, Run;
  }

  lemma StepRight(cfg: Config, numBlocks: nat, trace: seq<Op>)
    requires RightSoFar(cfg, numBlocks, trace) && trace[|trace| - 1].DoStep?
    ensures TokensRight(cfg, numBlocks, trace)
  {
    var before, op := trace[..|trace| - 1], trace[|trace| - 1];
    var y, y' := Run(cfg, numBlocks, before), Run(cfg, numBlocks, trace);
    assert y' == Apply(cfg, y, op);
    if |op.tokens| != |y.batch| {
      forall r | AsHanded(cfg, numBlocks, before, r) ensures AsHanded(cfg, numBlocks, trace, r) {
        StillAsHanded(cfg, numBlocks, trace, r);
      }
      hide AsHanded, Run;
    } else {
      RunConserves(cfg, numBlocks, before);
      RunConserves(cfg, numBlocks, trace);
      forall id ensures Places(y, id) <= 1 && Places(y', id) <= 1 {
        assert Places(y, id) == Adds(before, id) <= 1 && Places(y', id) == Adds(trace, id) <= 1;
      }
      StepRightRuns(cfg, numBlocks, trace, y, y');
      StepRightRests(cfg, numBlocks, trace, y, y');
      hide AsHanded, Run, Apply, Places, Adds, Added, Handed, StepLoop;
    }
  }

  ghost predicate StepOf(cfg: Config, numBlocks: nat, trace: seq<Op>, y: System, y': System) {
    && RightSoFar(cfg, numBlocks, trace) && trace[|trace| - 1].DoStep? && |trace[|trace| - 1].tokens| == |y.batch|
    && y == Run(cfg, numBlocks, trace[..|trace| - 1]) && y' == Run(cfg, numBlocks, trace)
    && OwnersRun(y.s) && (forall id :: Places(y, id) <= 1) && (forall id :: Places(y', id) <= 1)
  }

  // Who runs or was finished by the step.
  lemma StepRightRuns(cfg: Config, numBlocks: nat, trace: seq<Op>, y: System, y': System)
    requires StepOf(cfg, numBlocks, trace, y, y')
    ensures forall r :: r in y'.s.running ==> AsHanded(cfg, numBlocks, trace, r) && |r.generated| < r.maxTokens
    ensures forall r :: r in y'.finished && Count(y.s.running, r.id) > 0 ==>
              AsHanded(cfg, numBlocks, trace, r) && |r.generated| == r.maxTokens
  {
    var tokens := trace[|trace| - 1].tokens;
    var p := Progress(y.s, y.finished);
    assert y' == y.(s := StepLoop(cfg, p, y.batch, tokens).s, finished := StepLoop(cfg, p, y.batch, tokens).finished);
    forall r' | r' in y'.s.running || (r' in y'.finished && Count(y.s.running, r'.id) > 0)
      ensures AsHanded(cfg, numBlocks, trace, r')
      ensures r' in y'.s.running ==> |r'.generated| < r'.maxTokens
      ensures r' in y'.finished && Count(y.s.running, r'.id) > 0 ==> |r'.generated| == r'.maxTokens
    {
      StepRightOne(cfg, numBlocks, trace, y, y', r');
    }
  }

  lemma StepRightOne(cfg: Config, numBlocks: nat, trace: seq<Op>, y: System, y': System, r': Request)
    requires StepOf(cfg, numBlocks, trace, y, y')
    requires var p, tokens := Progress(y.s, y.finished), trace[|trace| - 1].tokens;
             y' == y.(s := StepLoop(cfg, p, y.batch, tokens).s, finished := StepLoop(cfg, p, y.batch, tokens).finished)
    requires r' in y'.s.running || (r' in y'.finished && Count(y.s.running, r'.id) > 0)
    ensures AsHanded(cfg, numBlocks, trace, r')
    ensures r' in y'.s.running ==> |r'.generated| < r'.maxTokens
    ensures r' in y'.finished && Count(y.s.running, r'.id) > 0 ==> |r'.generated| == r'.maxTokens
  {
    var tokens, before := trace[|trace| - 1].tokens, trace[..|trace| - 1];
    BatchOfRun(cfg, numBlocks, before, r'.id);
    StepOrigin(cfg, Progress(y.s, y.finished), y.batch, tokens, r');
    assert Places(y, r'.id) <= 1 && Places(y', r'.id) <= 1;
    if r' in y.finished {
      InList(y.finished, r');
    }
    hide StepLoop, Run, Handed;
    var token := TokenFor(y.batch, tokens, r'.id);
    var r :| r in y.s.running && r.id == r'.id && OneMore(r, token, r') &&
             (r' in y'.s.running ==> token.Some? ==> |r'.generated| < r'.maxTokens) &&
             (r' in y'.finished && r' !in y'.s.running ==> token.Some? && |r'.generated| >= r'.maxTokens);
    InList(y.s.running, r);
    OneMoreAsHanded(cfg, numBlocks, trace, r, token, r');
  }

  // Everybody else.
  lemma StepRightRests(cfg: Config, numBlocks: nat, trace: seq<Op>, y: System, y': System)
    requires StepOf(cfg, numBlocks, trace, y, y')
    ensures y'.s.waiting == y.s.waiting && y'.drained == y.drained
    ensures forall r :: r in y.s.waiting || r in y.finished || r in y.drained ==> AsHanded(cfg, numBlocks, trace, r)
    ensures forall r :: r in y'.finished && Count(y.s.running, r.id) == 0 ==> r in y.finished
  {
    var tokens, before := trace[|trace| - 1].tokens, trace[..|trace| - 1];
    var p := Progress(y.s, y.finished);
    assert y' == y.(s := StepLoop(cfg, p, y.batch, tokens).s, finished := StepLoop(cfg, p, y.batch, tokens).finished);
    forall i ensures Count(y.s.waiting, i) + Count(y.s.running, i) <= 1 {
      assert Places(y, i) <= 1;
    }
    StepLoopWaiting(cfg, p, y.batch, tokens);
    forall r | r in y.s.waiting || r in y.finished || r in y.drained ensures AsHanded(cfg, numBlocks, trace, r) {
      NotRunning(y, r);
      StillAsHanded(cfg, numBlocks, trace, r);
    }
    hide StepLoop, Run, AsHanded, Places;
    forall r | r in y'.finished && Count(y.s.running, r.id) == 0 ensures r in y.finished {
      BatchOfRun(cfg, numBlocks, before, r.id);
      StepOrigin(cfg, p, y.batch, tokens, r);
      if o: Request :| o in y.s.running && o.id == r.id {
        InList(y.s.running, o);
      }
    }
  }

  lemma NotRunning(y: System, r: Request)
    requires Places(y, r.id) <= 1 && (r in y.s.waiting || r in y.finished || r in y.drained)
    ensures Count(y.s.running, r.id) == 0
  {
    CountMember(y.s.waiting, r.id);
    CountMember(y.finished, r.id);
    CountMember(y.drained, r.id);
  }

  // The same for the code as written, in runs all of whose schedules start with room; without that it can
  // fail (SchedulingRaise.RunFinishesTheWaiting).
  lemma TokensAsWritten(cfg: Config, numBlocks: nat, trace: seq<Op>)
    requires ValidConfig(cfg) && (forall id :: Adds(trace, id) <= 1) && Unfinished(trace)
    requires RoomyRun(cfg, numBlocks, trace)
    ensures var y := RunAsWritten(cfg, numBlocks, trace);
            && (forall r :: r in y.s.waiting || r in y.s.running ==>
                  AsHanded(cfg, numBlocks, trace, r) && |r.generated| < r.maxTokens)
            && (forall r :: r in y.finished || r in y.drained ==>
                  AsHanded(cfg, numBlocks, trace, r) && |r.generated| == r.maxTokens)
  {
    RoomyRunAsIntended(cfg, numBlocks, trace);
    TokensAsHanded(cfg, numBlocks, trace);
    hide Run, RunAsWritten, AsHanded, Adds, RoomyRun;
  }
}
