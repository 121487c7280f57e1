// What scheduling keeps, over single calls and over whole runs.
module SchedulingProofs {
  import opened Outcomes
  import opened Scheduling

  // ----- lists -----

  lemma {:induction false} CountAppend(a: seq<Request>, b: seq<Request>, id: int)
    ensures Count(a + b, id) == Count(a, id) + Count(b, id)
  {
    if |a| == 0 {
      assert a + b == b;
    } else {
      assert (a + b)[1..] == a[1..] + b;
      CountAppend(a[1..], b, id);
    }
  }

  lemma {:induction false} CountMember(xs: seq<Request>, id: int)
    ensures Count(xs, id) > 0 <==> HasId(xs, id)
  {
    if |xs| == 0 {
    } else {
      CountMember(xs[1..], id);
      assert xs == [xs[0]] + xs[1..];
    }
  }

  lemma CountOne(r: Request, id: int)
    ensures Count([r], id) == if r.id == id then 1 else 0
  {
    assert [r][1..] == [];
  }

  lemma {:induction false} InsertFacts(le: (Request, Request) -> bool, r: Request, xs: seq<Request>, id: int)
    ensures Count(Insert(le, r, xs), id) == Count(xs, id) + (if r.id == id then 1 else 0)
    ensures |Insert(le, r, xs)| == |xs| + 1
    ensures forall x :: x in Insert(le, r, xs) <==> x == r || x in xs
  {
    CountOne(r, id);
    if |xs| == 0 {
    } else {
      assert xs == [xs[0]] + xs[1..];
      if le(r, xs[0]) {
        CountAppend([r], xs, id);
      } else {
        InsertFacts(le, r, xs[1..], id);
        assert Insert(le, r, xs)[1..] == Insert(le, r, xs[1..]);
      }
    }
  }

  // Sorting neither loses nor doubles anything.
  lemma {:induction false} SortedFacts(le: (Request, Request) -> bool, xs: seq<Request>, id: int)
    ensures Count(Sorted(le, xs), id) == Count(xs, id)
    ensures |Sorted(le, xs)| == |xs|
    ensures forall x :: x in Sorted(le, xs) <==> x in xs
  {
    if |xs| == 0 {
    } else {
      SortedFacts(le, xs[1..], id);
      InsertFacts(le, xs[0], Sorted(le, xs[1..]), id);
      assert xs == [xs[0]] + xs[1..];
    }
  }

  predicate InOrder(le: (Request, Request) -> bool, xs: seq<Request>) {
    forall i :: 0 <= i < |xs| - 1 ==> le(xs[i], xs[i + 1])
  }

  lemma {:induction false} InsertInOrder(le: (Request, Request) -> bool, r: Request, xs: seq<Request>)
    requires InOrder(le, xs)
    requires forall x, y :: le(x, y) || le(y, x)
    ensures InOrder(le, Insert(le, r, xs))
  {
    if |xs| == 0 || le(r, xs[0]) {
    } else {
      assert InOrder(le, xs[1..]);
      InsertInOrder(le, r, xs[1..]);
      var ys := Insert(le, r, xs[1..]);
      assert ys[0] == r || (|xs| > 1 && ys[0] == xs[1]);
    }
  }

  lemma {:induction false} SortedInOrder(le: (Request, Request) -> bool, xs: seq<Request>)
    requires forall x, y :: le(x, y) || le(y, x)
    ensures InOrder(le, Sorted(le, xs))
  {
    if |xs| == 0 {
    } else {
      SortedInOrder(le, xs[1..]);
      InsertInOrder(le, xs[0], Sorted(le, xs[1..]));
    }
  }

  lemma {:induction false} RemoveFacts(xs: seq<Request>, id: int, x: int)
    ensures Count(Remove(xs, id), x) == if x == id then 0 else Count(xs, x)
    ensures forall r :: r in Remove(xs, id) <==> r in xs && r.id != id
    ensures |Remove(xs, id)| <= |xs|
  {
    if |xs| == 0 {
    } else {
      RemoveFacts(xs[1..], id, x);
      assert xs == [xs[0]] + xs[1..];
      if xs[0].id != id {
        assert Remove(xs, id)[1..] == Remove(xs[1..], id);
      }
    }
  }

  lemma {:induction false} PutCount(xs: seq<Request>, r: Request, id: int)
    ensures |xs| <= |Put(xs, r)| <= |xs| + 1
    ensures Count(Put(xs, r), id) == if r.id == id && Count(xs, id) == 0 then 1 else Count(xs, id)
  {
    if |xs| == 0 {
      CountOne(r, id);
    } else if xs[0].id != r.id {
      PutCount(xs[1..], r, id);
      assert Put(xs, r)[1..] == Put(xs[1..], r);
    } else {
      assert Put(xs, r)[1..] == xs[1..];
    }
  }

  lemma {:induction false} PutNew(xs: seq<Request>, r: Request)
    ensures Count(xs, r.id) == 0 ==> Put(xs, r) == xs + [r]
  {
    if |xs| == 0 {
      assert xs + [r] == [r];
    } else if xs[0].id != r.id {
      PutNew(xs[1..], r);
      assert xs + [r] == [xs[0]] + (xs[1..] + [r]);
    }
  }

  lemma PutFacts(xs: seq<Request>, r: Request, id: int)
    ensures |xs| <= |Put(xs, r)| <= |xs| + 1
    ensures Count(Put(xs, r), id) == if r.id == id && Count(xs, id) == 0 then 1 else Count(xs, id)
    ensures Count(xs, r.id) == 0 ==> Put(xs, r) == xs + [r]
  {
    PutCount(xs, r, id);
    PutNew(xs, r);
  }

  lemma {:induction false} PutMembers(xs: seq<Request>, r: Request)
    ensures forall x :: x in Put(xs, r) ==> x == r || x in xs
    ensures Count(xs, r.id) <= 1 ==> forall x :: x in Put(xs, r) <==> x == r || (x in xs && x.id != r.id)
  {
    if |xs| == 0 {
    } else {
      assert xs == [xs[0]] + xs[1..];
      if xs[0].id != r.id {
        PutMembers(xs[1..], r);
      } else {
        CountMember(xs[1..], r.id);
      }
    }
  }

  lemma {:induction false} RefreshFacts(xs: seq<Request>, r: Request, id: int)
    ensures |Refresh(xs, r)| == |xs| && Count(Refresh(xs, r), id) == Count(xs, id)
    ensures Count(xs, r.id) == 0 ==> Refresh(xs, r) == xs
  {
    if |xs| == 0 {
    } else {
      RefreshFacts(xs[1..], r, id);
      assert Refresh(xs, r)[1..] == Refresh(xs[1..], r) && xs == [xs[0]] + xs[1..];
    }
  }

  lemma MoveOne(xs: seq<Request>, more: seq<Request>, id: int)
    requires |more| > 0
    ensures Count(xs + [more[0]], id) + Count(more[1..], id) == Count(xs, id) + Count(more, id)
  {
    CountAppend(xs, [more[0]], id);
    CountOne(more[0], id);
  }

  lemma PutFirst(xs: seq<Request>, more: seq<Request>)
    requires |more| > 0 && forall id :: Count(xs, id) + Count(more, id) <= 1
    ensures Put(xs, more[0]) == xs + [more[0]]
    ensures forall id :: Count(xs + [more[0]], id) + Count(more[1..], id) <= 1
  {
    var r := more[0];
    assert Count(xs, r.id) + Count(more, r.id) <= 1;
    PutFacts(xs, r, r.id);
    hide Count, Put;
    forall id ensures Count(xs + [r], id) + Count(more[1..], id) <= 1 {
      MoveOne(xs, more, id);
      assert Count(xs, id) + Count(more, id) <= 1;
    }
  }

  lemma {:induction false} PutAllAppends(xs: seq<Request>, more: seq<Request>)
    requires forall id :: Count(xs, id) + Count(more, id) <= 1
    ensures PutAll(xs, more) == xs + more
    decreases |more|
  {
    if |more| == 0 {
      assert xs + more == xs;
    } else {
      PutFirst(xs, more);
      hide Count, Put;
      PutAllAppends(xs + [more[0]], more[1..]);
      assert xs + [more[0]] + more[1..] == xs + more;
    }
  }

  lemma {:induction false} PutAllSize(xs: seq<Request>, more: seq<Request>)
    ensures |PutAll(xs, more)| <= |xs| + |more|
    ensures forall x :: x in PutAll(xs, more) ==> x in xs || x in more
    decreases |more|
  {
    if |more| == 0 {
    } else {
      PutFacts(xs, more[0], 0);
      PutMembers(xs, more[0]);
      PutAllSize(Put(xs, more[0]), more[1..]);
      assert more == [more[0]] + more[1..];
    }
  }

  // ----- preemption: what it frees, and what it does to the queues -----

  lemma PreemptFacts(s: Sched, r: Request, id: int)
    ensures Preempt(s, r).free == s.free + Owned(s, r.id)
    ensures Owned(Preempt(s, r), id) == if id == r.id then 0 else Owned(s, id)
    ensures Count(Preempt(s, r).waiting, id) == Count(s.waiting, id) + (if id == r.id then 1 else 0)
    ensures Count(Preempt(s, r).running, id) == if id == r.id then 0 else Count(s.running, id)
    ensures forall x :: x in Preempt(s, r).running <==> x in s.running && x.id != r.id
    ensures |Preempt(s, r).running| <= |s.running|
  {
    RemoveFacts(s.running, r.id, id);
    assert ([r] + s.waiting)[1..] == s.waiting;
  }

  // Only victims leave the running queue, and only victims lose blocks.
  ghost predicate Shrunk(s: Sched, s': Sched) {
    && |s'.running| <= |s.running|
    && (forall x :: x in s'.running ==> x in s.running)
    && (forall x :: x in s'.running ==> Owned(s', x.id) == Owned(s, x.id))
    && (forall id :: id in s'.owned ==> id in s.owned)
    && s'.free >= s.free
  }

  lemma {:induction false} PreemptLoopFacts(s: Sched, candidates: seq<Request>, target: int, freed: nat)
    ensures var (s', freed') := PreemptLoop(s, candidates, target, freed);
            Shrunk(s, s') && s'.free - s.free == freed' - freed >= 0
    decreases |candidates|
  {
    if |candidates| == 0 || freed >= target {
    } else {
      var r := candidates[0];
      var t := Preempt(s, r);
      forall x | x in t.running ensures Owned(t, x.id) == Owned(s, x.id) {
        PreemptFacts(s, r, x.id);
      }
      PreemptFacts(s, r, r.id);
      PreemptLoopFacts(t, candidates[1..], target, freed + Owned(s, r.id));
    }
  }

  // s' arises from s by putting `victims`, all of them running, in front of the waiting queue.
  ghost predicate Moved(s: Sched, victims: seq<Request>, s': Sched) {
    && s'.waiting == victims + s.waiting
    && (forall id :: Count(victims, id) + Count(s'.running, id) == Count(s.running, id))
    && (forall id :: id in s'.owned ==> id in s.owned && Count(victims, id) == 0)
  }

  lemma {:induction false} PreemptLoopMoves(s: Sched, candidates: seq<Request>, target: int, freed: nat)
    returns (victims: seq<Request>)
    requires forall id :: Count(candidates, id) <= Count(s.running, id) <= 1
    ensures Moved(s, victims, PreemptLoop(s, candidates, target, freed).0)
    ensures forall id :: Count(victims, id) <= Count(candidates, id)
    decreases |candidates|
  {
    if |candidates| == 0 || freed >= target {
      victims := [];
      assert victims + s.waiting == s.waiting;
    } else {
      var r := candidates[0];
      var t := Preempt(s, r);
      forall id ensures Count(candidates[1..], id) <= Count(t.running, id) <= 1 {
        PreemptFacts(s, r, id);
        assert Count(candidates, id) <= Count(s.running, id) <= 1;
      }
      var more := PreemptLoopMoves(t, candidates[1..], target, freed + Owned(s, r.id));
      victims := more + [r];
      assert Count(candidates, r.id) >= 1 && Count(candidates, r.id) <= Count(s.running, r.id) <= 1;
      MovedOneMore(s, r, more, PreemptLoop(s, candidates, target, freed).0);
      forall id ensures Count(victims, id) <= Count(candidates, id) {
        CountAppend(more, [r], id);
        CountOne(r, id);
      }
    }
  }

  lemma MovedOneMore(s: Sched, r: Request, more: seq<Request>, s': Sched)
    requires Count(s.running, r.id) == 1 && Moved(Preempt(s, r), more, s')
    ensures Moved(s, more + [r], s')
  {
    var t := Preempt(s, r);
    assert more + [r] + s.waiting == more + ([r] + s.waiting);
    forall id
      ensures Count(more + [r], id) + Count(s'.running, id) == Count(s.running, id)
      ensures id in s'.owned ==> id in s.owned && Count(more + [r], id) == 0
    {
      CountAppend(more, [r], id);
      CountOne(r, id);
      PreemptFacts(s, r, id);
      assert Count(more, id) + Count(s'.running, id) == Count(t.running, id);
    }
  }

  lemma PreemptToFreeFacts(s: Sched, target: int, exclude: Option<int>)
    ensures var (s', freed) := PreemptToFree(s, target, exclude);
            Shrunk(s, s') && s'.free == s.free + freed
    ensures exclude.Some? ==> Owned(PreemptToFree(s, target, exclude).0, exclude.value) == Owned(s, exclude.value)
  {
    var others := if exclude.Some? then Remove(s.running, exclude.value) else s.running;
    PreemptLoopFacts(s, Sorted(Weaker, others), target, 0);
    if exclude.Some? {
      RemoveFacts(s.running, exclude.value, exclude.value);
      SortedFacts(Weaker, others, exclude.value);
      PreemptLoopSpares(s, Sorted(Weaker, others), target, 0, exclude.value);
    }
  }

  lemma {:induction false} PreemptLoopSpares(s: Sched, candidates: seq<Request>, target: int, freed: nat, id: int)
    requires forall r :: r in candidates ==> r.id != id
    ensures Owned(PreemptLoop(s, candidates, target, freed).0, id) == Owned(s, id)
    decreases |candidates|
  {
    if |candidates| == 0 || freed >= target {
    } else {
      assert candidates == [candidates[0]] + candidates[1..];
      PreemptFacts(s, candidates[0], id);
      PreemptLoopSpares(Preempt(s, candidates[0]), candidates[1..], target, freed + Owned(s, candidates[0].id), id);
    }
  }

  lemma PreemptToFreeMoves(s: Sched, target: int, exclude: Option<int>) returns (victims: seq<Request>)
    requires forall id :: Count(s.running, id) <= 1
    ensures Moved(s, victims, PreemptToFree(s, target, exclude).0)
    ensures exclude.Some? ==> Count(victims, exclude.value) == 0
  {
    var others := if exclude.Some? then Remove(s.running, exclude.value) else s.running;
    forall id ensures Count(Sorted(Weaker, others), id) <= Count(s.running, id) <= 1 {
      SortedFacts(Weaker, others, id);
      if exclude.Some? {
        RemoveFacts(s.running, exclude.value, id);
      }
    }
    victims := PreemptLoopMoves(s, Sorted(Weaker, others), target, 0);
    if exclude.Some? {
      SortedFacts(Weaker, others, exclude.value);
      RemoveFacts(s.running, exclude.value, exclude.value);
    }
  }

  // ----- capacity, on the code as it is -----

  lemma {:induction false} PreemptLoopCount(s: Sched, candidates: seq<Request>, target: int, freed: nat, id: int)
    ensures Count(PreemptLoop(s, candidates, target, freed).0.running, id) <= Count(s.running, id)
    decreases |candidates|
  {
    if |candidates| == 0 || freed >= target {
    } else {
      PreemptFacts(s, candidates[0], id);
      PreemptLoopCount(Preempt(s, candidates[0]), candidates[1..], target, freed + Owned(s, candidates[0].id), id);
    }
  }

  lemma PreemptToFreeSpares(s: Sched, target: int, id: int)
    requires Count(s.running, id) == 0
    ensures Owned(PreemptToFree(s, target, None).0, id) == Owned(s, id)
    ensures Count(PreemptToFree(s, target, None).0.running, id) == 0
  {
    SortedFacts(Weaker, s.running, id);
    CountMember(s.running, id);
    PreemptLoopSpares(s, Sorted(Weaker, s.running), target, 0, id);
    PreemptLoopCount(s, Sorted(Weaker, s.running), target, 0, id);
  }

  // Admission never exceeds the batch size, whatever the state.
  lemma AdmitOneSize(cfg: Config, a: Admission, r: Request)
    requires cfg.blockSize > 0 && |a.s.running| + |a.admitted| <= cfg.maxBatchSize
    ensures |AdmitOne(cfg, a, r).s.running| + |AdmitOne(cfg, a, r).admitted| <= cfg.maxBatchSize
  {
    hide Need, PreemptToFree;
    var missing := Need(cfg, r) - Owned(a.s, r.id);
    PreemptToFreeFacts(a.s, if missing < 0 then 0 else missing, None);
  }

  lemma {:induction false} AdmitLoopSize(cfg: Config, a: Admission, queue: seq<Request>)
    requires cfg.blockSize > 0 && |a.s.running| + |a.admitted| <= cfg.maxBatchSize
    ensures |AdmitLoop(cfg, a, queue).s.running| + |AdmitLoop(cfg, a, queue).admitted| <= cfg.maxBatchSize
    decreases |queue|
  {
    if |queue| == 0 {
    } else {
      hide AdmitOne;
      AdmitOneSize(cfg, a, queue[0]);
      AdmitLoopSize(cfg, AdmitOne(cfg, a, queue[0]), queue[1..]);
    }
  }

  lemma AdmissionSize(cfg: Config, s: Sched, intended: bool)
    requires cfg.blockSize > 0 && |s.running| <= cfg.maxBatchSize
    ensures |Admit(cfg, s).s.running| <= cfg.maxBatchSize
    ensures |AfterAdmission(cfg, s, intended).running| <= cfg.maxBatchSize
  {
    var a := Admit(cfg, s);
    AdmitLoopSize(cfg, Admission(s, [], [], false), Sorted(Before, s.waiting));
    PutAllSize(a.s.running, a.admitted);
  }

  // Nor does it run out of blocks, so schedule never raises, unless some id is both waiting and running.
  lemma AdmitOneFits(cfg: Config, a: Admission, r: Request)
    requires cfg.blockSize > 0 && !a.raised && Count(a.s.running, r.id) == 0
    ensures !AdmitOne(cfg, a, r).raised
  {
    hide Need, PreemptToFree, Count;
    var missing := Need(cfg, r) - Owned(a.s, r.id);
    var extra := if missing < 0 then 0 else missing;
    PreemptToFreeFacts(a.s, extra, None);
    PreemptToFreeSpares(a.s, extra, r.id);
  }

  lemma AdmitOneRuns(cfg: Config, a: Admission, r: Request, id: int)
    requires cfg.blockSize > 0
    ensures Count(AdmitOne(cfg, a, r).s.running, id) <= Count(a.s.running, id)
  {
    var missing := Need(cfg, r) - Owned(a.s, r.id);
    var extra := if missing < 0 then 0 else missing;
    PreemptLoopCount(a.s, Sorted(Weaker, a.s.running), extra, 0, id);
  }

  lemma {:induction false} AdmitLoopFits(cfg: Config, a: Admission, queue: seq<Request>)
    requires cfg.blockSize > 0 && !a.raised
    requires forall r :: r in queue ==> Count(a.s.running, r.id) == 0
    ensures !AdmitLoop(cfg, a, queue).raised
    decreases |queue|
  {
    if |queue| == 0 {
    } else {
      hide AdmitOne, Count;
      var b := AdmitOne(cfg, a, queue[0]);
      AdmitOneFits(cfg, a, queue[0]);
      forall r | r in queue[1..] ensures Count(b.s.running, r.id) == 0 {
        AdmitOneRuns(cfg, a, queue[0], r.id);
      }
      AdmitLoopFits(cfg, b, queue[1..]);
    }
  }

  lemma AdmissionFits(cfg: Config, s: Sched)
    requires cfg.blockSize > 0 && forall r :: r in s.waiting ==> Count(s.running, r.id) == 0
    ensures !Admit(cfg, s).raised
  {
    SortedFacts(Before, s.waiting, 0);
    AdmitLoopFits(cfg, Admission(s, [], [], false), Sorted(Before, s.waiting));
  }

  // Every running request but those still to be visited owns the blocks for its next token.
  ghost predicate Provided(cfg: Config, s: Sched, todo: seq<Request>)
    requires cfg.blockSize > 0
  {
    forall x :: x in s.running ==> x in todo || Owned(s, x.id) >= Need(cfg, x)
  }

  // Growing one request never falls back on the MemoryError branch, leaves it either provided for
  // or preempted, and takes nothing from the others that stay.
  lemma GrowOneProvides(cfg: Config, s: Sched, r: Request, todo: seq<Request>, intended: bool)
    requires cfg.blockSize > 0 && Provided(cfg, s, [r] + todo)
    ensures Provided(cfg, GrowOne(cfg, s, r, intended), todo)
    ensures |GrowOne(cfg, s, r, intended).running| <= |s.running|
    ensures forall x :: x in GrowOne(cfg, s, r, intended).running ==> x in s.running
  {
    var missing := Need(cfg, r) - Owned(s, r.id);
    if missing > 0 && !(intended && !HasId(s.running, r.id)) {
      var (s', freed) := if missing > s.free then PreemptToFree(s, missing, Some(r.id)) else (s, missing);
      PreemptToFreeFacts(s, missing, Some(r.id));
      assert Shrunk(s, s') && Owned(s', r.id) == Owned(s, r.id);
      if freed < missing || missing > s'.free {
        PreemptProvides(cfg, s', r, todo);
      } else {
        TakeProvides(cfg, s', r, todo, missing);
      }
    }
  }

  lemma PreemptProvides(cfg: Config, s: Sched, r: Request, todo: seq<Request>)
    requires cfg.blockSize > 0 && Provided(cfg, s, [r] + todo)
    ensures Provided(cfg, Preempt(s, r), todo)
    ensures |Preempt(s, r).running| <= |s.running| && forall x :: x in Preempt(s, r).running ==> x in s.running
  {
    forall x | x in Preempt(s, r).running ensures x in todo || Owned(Preempt(s, r), x.id) >= Need(cfg, x) {
      PreemptFacts(s, r, x.id);
    }
    PreemptFacts(s, r, r.id);
  }

  lemma TakeProvides(cfg: Config, s: Sched, r: Request, todo: seq<Request>, missing: nat)
    requires cfg.blockSize > 0 && Provided(cfg, s, [r] + todo) && missing <= s.free
    requires Owned(s, r.id) + missing >= Need(cfg, r)
    ensures Provided(cfg, TakeBlocks(s, r.id, missing), todo)
  {
  }

  // The `except MemoryError` of growth is dead code.
  lemma GrowNeverRunsOut(s: Sched, missing: int, id: int)
    requires missing > 0
    ensures var (s', freed) := if missing > s.free then PreemptToFree(s, missing, Some(id)) else (s, missing);
            freed >= missing ==> missing <= s'.free
  {
    PreemptToFreeFacts(s, missing, Some(id));
  }

  lemma {:induction false} GrowLoopProvides(cfg: Config, s: Sched, todo: seq<Request>, intended: bool)
    requires cfg.blockSize > 0 && Provided(cfg, s, todo)
    ensures Provided(cfg, GrowLoop(cfg, s, todo, intended), [])
    ensures |GrowLoop(cfg, s, todo, intended).running| <= |s.running|
    ensures forall x :: x in GrowLoop(cfg, s, todo, intended).running ==> x in s.running
    decreases |todo|
  {
    if |todo| == 0 {
    } else {
      assert todo == [todo[0]] + todo[1..];
      GrowOneProvides(cfg, s, todo[0], todo[1..], intended);
      GrowLoopProvides(cfg, GrowOne(cfg, s, todo[0], intended), todo[1..], intended);
    }
  }

  // No id occurs twice in or across the waiting and running queues.
  ghost predicate DistinctIds(s: Sched) {
    forall id :: Count(s.waiting, id) + Count(s.running, id) <= 1
  }

  // In the middle of admission: what was waiting is admitted, kept waiting or still queued; what was
  // running is still running or has been preempted.
  ghost predicate Admitting(s0: Sched, a: Admission, victims: seq<Request>, queue: seq<Request>) {
    && a.s.waiting == victims + s0.waiting
    && (forall id :: Count(victims, id) + Count(a.s.running, id) == Count(s0.running, id))
    && (forall id :: Count(a.admitted, id) + Count(a.still, id) + Count(queue, id) == Count(s0.waiting, id))
    && (forall id :: id in a.s.owned ==> Count(a.admitted, id) > 0 || (id in s0.owned && Count(victims, id) == 0))
  }

  lemma AdmitOneMoves(cfg: Config, s0: Sched, a: Admission, victims: seq<Request>, r: Request, queue: seq<Request>)
    returns (victims': seq<Request>)
    requires cfg.blockSize > 0 && DistinctIds(s0) && Admitting(s0, a, victims, [r] + queue)
    requires !a.raised && !AdmitOne(cfg, a, r).raised
    ensures Admitting(s0, AdmitOne(cfg, a, r), victims', queue)
  {
    var missing := Need(cfg, r) - Owned(a.s, r.id);
    var extra := if missing < 0 then 0 else missing;
    if |a.s.running| + |a.admitted| >= cfg.maxBatchSize || extra <= a.s.free {
      victims' := victims;
      AdmittingPlaces(s0, a, victims, r, queue, AdmitOne(cfg, a, r));
    } else {
      forall id ensures Count(a.s.running, id) <= 1 {
        assert Count(s0.waiting, id) + Count(s0.running, id) <= 1;
        assert Count(victims, id) + Count(a.s.running, id) == Count(s0.running, id);
      }
      var more := PreemptToFreeMoves(a.s, extra, None);
      victims' := more + victims;
      var mid := a.(s := PreemptToFree(a.s, extra, None).0);
      AdmittingPreempts(s0, a, victims, [r] + queue, more, mid);
      AdmittingPlaces(s0, mid, victims', r, queue, AdmitOne(cfg, a, r));
    }
  }

  lemma AdmittingPreempts(s0: Sched, a: Admission, victims: seq<Request>, queue: seq<Request>, more: seq<Request>,
                          b: Admission)
    requires Admitting(s0, a, victims, queue) && Moved(a.s, more, b.s) && b == a.(s := b.s)
    ensures Admitting(s0, b, more + victims, queue)
  {
    assert more + (victims + s0.waiting) == more + victims + s0.waiting;
    forall id
      ensures Count(more + victims, id) + Count(b.s.running, id) == Count(s0.running, id)
      ensures id in b.s.owned ==> Count(b.admitted, id) > 0 || (id in s0.owned && Count(more + victims, id) == 0)
    {
      CountAppend(more, victims, id);
      assert Count(more, id) + Count(b.s.running, id) == Count(a.s.running, id);
      assert Count(victims, id) + Count(a.s.running, id) == Count(s0.running, id);
    }
  }

  // The next request of the queue is put back, or given blocks and admitted.
  lemma AdmittingPlaces(s0: Sched, a: Admission, victims: seq<Request>, r: Request, queue: seq<Request>, b: Admission)
    requires Admitting(s0, a, victims, [r] + queue)
    requires b.s.waiting == a.s.waiting && b.s.running == a.s.running
    requires || (b.admitted == a.admitted && b.still == a.still + [r] && b.s.owned == a.s.owned)
             || (b.admitted == a.admitted + [r] && b.still == a.still &&
                 forall id :: id in b.s.owned ==> id == r.id || id in a.s.owned)
    ensures Admitting(s0, b, victims, queue)
  {
    assert ([r] + queue)[1..] == queue;
    forall id
      ensures Count(b.admitted, id) + Count(b.still, id) + Count(queue, id) == Count(s0.waiting, id)
      ensures id in b.s.owned ==> Count(b.admitted, id) > 0 || (id in s0.owned && Count(victims, id) == 0)
    {
      CountAppend(a.admitted, [r], id);
      CountAppend(a.still, [r], id);
      CountOne(r, id);
      assert Count(a.admitted, id) + Count(a.still, id) + Count([r] + queue, id) == Count(s0.waiting, id);
    }
  }

  lemma {:induction false} AdmitLoopMoves(cfg: Config, s0: Sched, a: Admission, victims: seq<Request>,
                                          queue: seq<Request>)
    returns (victims': seq<Request>)
    requires cfg.blockSize > 0 && DistinctIds(s0) && Admitting(s0, a, victims, queue)
    requires !a.raised
    ensures Admitting(s0, AdmitLoop(cfg, a, queue), victims', [])
    decreases |queue|
  {
    if |queue| == 0 {
      victims' := victims;
    } else {
      assert queue == [queue[0]] + queue[1..];
      var r := queue[0];
      assert Count(a.s.running, r.id) == 0 by {
        assert Count(queue, r.id) > 0;
        assert Count(a.admitted, r.id) + Count(a.still, r.id) + Count(queue, r.id) == Count(s0.waiting, r.id);
        assert Count(s0.waiting, r.id) + Count(s0.running, r.id) <= 1;
        assert Count(victims, r.id) + Count(a.s.running, r.id) == Count(s0.running, r.id);
      }
      AdmitOneFits(cfg, a, r);
      var mid := AdmitOneMoves(cfg, s0, a, victims, queue[0], queue[1..]);
      victims' := AdmitLoopMoves(cfg, s0, AdmitOne(cfg, a, queue[0]), mid, queue[1..]);
    }
  }

  // Admission as a whole: who ends up where.
  lemma AdmissionMoves(cfg: Config, s: Sched)
    requires cfg.blockSize > 0 && DistinctIds(s) && |s.running| <= cfg.maxBatchSize
    ensures Admitting(s, Admit(cfg, s), Victims(s, Admit(cfg, s)), [])
    ensures PutAll(Admit(cfg, s).s.running, Admit(cfg, s).admitted) == Admit(cfg, s).s.running + Admit(cfg, s).admitted
  {
    var a := Admit(cfg, s);
    var queue := Sorted(Before, s.waiting);
    forall id ensures Count(queue, id) == Count(s.waiting, id) {
      SortedFacts(Before, s.waiting, id);
    }
    assert [] + s.waiting == s.waiting;
    var victims := AdmitLoopMoves(cfg, s, Admission(s, [], [], false), [], queue);
    assert Victims(s, a) == victims;
    forall id ensures Count(a.s.running, id) + Count(a.admitted, id) <= 1 {
      assert Count(s.waiting, id) + Count(s.running, id) <= 1;
      assert Count(victims, id) + Count(a.s.running, id) == Count(s.running, id);
      assert Count(a.admitted, id) + Count(a.still, id) + Count([], id) == Count(s.waiting, id);
    }
    PutAllAppends(a.s.running, a.admitted);
  }

  // As written, admission loses exactly the requests it preempts; as intended, nobody.
  lemma AdmissionConserves(cfg: Config, s: Sched, intended: bool, id: int)
    requires cfg.blockSize > 0 && DistinctIds(s) && |s.running| <= cfg.maxBatchSize
    ensures var s' := AfterAdmission(cfg, s, intended);
            Count(s'.waiting, id) + Count(s'.running, id) +
                (if intended then 0 else Count(Victims(s, Admit(cfg, s)), id)) ==
            Count(s.waiting, id) + Count(s.running, id)
  {
    AdmissionMoves(cfg, s);
    var a := Admit(cfg, s);
    var victims := Victims(s, a);
    assert Count(victims, id) + Count(a.s.running, id) == Count(s.running, id);
    assert Count(a.admitted, id) + Count(a.still, id) + Count([], id) == Count(s.waiting, id);
    CountAppend(victims, a.still, id);
    CountAppend(a.s.running, a.admitted, id);
  }

  // The admission of the code keeps every request when it preempts nobody, and only then.
  lemma AdmissionKeepsIff(cfg: Config, s: Sched)
    requires cfg.blockSize > 0 && DistinctIds(s) && |s.running| <= cfg.maxBatchSize
    ensures var s' := AfterAdmission(cfg, s, false);
            (forall id :: Count(s'.waiting, id) + Count(s'.running, id) == Count(s.waiting, id) + Count(s.running, id))
            <==> Victims(s, Admit(cfg, s)) == []
  {
    var victims := Victims(s, Admit(cfg, s));
    var s' := AfterAdmission(cfg, s, false);
    forall id
      ensures Count(s'.waiting, id) + Count(s'.running, id) + Count(victims, id) ==
              Count(s.waiting, id) + Count(s.running, id)
    {
      AdmissionConserves(cfg, s, false, id);
    }
    if |victims| > 0 {
      var id := victims[0].id;
      assert Count(victims, id) > 0;
      assert Count(s'.waiting, id) + Count(s'.running, id) != Count(s.waiting, id) + Count(s.running, id);
    }
  }

  lemma AdmissionDistinct(cfg: Config, s: Sched, intended: bool)
    requires cfg.blockSize > 0 && DistinctIds(s) && |s.running| <= cfg.maxBatchSize
    ensures DistinctIds(AfterAdmission(cfg, s, intended))
    ensures forall id :: Count(AfterAdmission(cfg, s, intended).running, id) <= 1
  {
    var s' := AfterAdmission(cfg, s, intended);
    forall id ensures Count(s'.waiting, id) + Count(s'.running, id) <= 1 && Count(s'.running, id) <= 1 {
      AdmissionConserves(cfg, s, intended, id);
      assert Count(s.waiting, id) + Count(s.running, id) <= 1;
    }
  }

  // Enough blocks are those with a slot for every token and the next one.
  lemma NeedIs(cfg: Config, r: Request, blocks: int)
    requires cfg.blockSize > 0
    ensures blocks >= Need(cfg, r) <==> blocks * cfg.blockSize >= r.promptTokens + |r.generated| + 1
  {
    CeilDivIs(r.promptTokens + |r.generated| + 1, cfg.blockSize, blocks);
  }

  // Whoever runs after a schedule owns a slot for every token and the next one.
  lemma SlotForTheNext(cfg: Config, s: Sched, intended: bool)
    requires ValidConfig(cfg) && |s.running| <= cfg.maxBatchSize
    ensures var s' := Schedule(cfg, s, intended);
            forall r :: r in s'.running ==> Owned(s', r.id) * cfg.blockSize >= r.promptTokens + |r.generated| + 1
  {
    ScheduleCapacity(cfg, s, intended);
    var s' := Schedule(cfg, s, intended);
    hide Schedule, Need, Batch;
    forall r | r in s'.running ensures Owned(s', r.id) * cfg.blockSize >= r.promptTokens + |r.generated| + 1 {
      NeedIs(cfg, r, Owned(s', r.id));
    }
  }

  // A batch never exceeds the batch size or the token budget, is in FCFS order, consists of running
  // requests, and each of them owns the blocks for its next token: as written and as intended, and
  // whatever ids the queues hold.
  lemma ScheduleCapacity(cfg: Config, s: Sched, intended: bool)
    requires ValidConfig(cfg) && |s.running| <= cfg.maxBatchSize
    ensures var s' := Schedule(cfg, s, intended);
            var batch := Batch(cfg, s');
            && |s'.running| <= cfg.maxBatchSize
            && |batch| <= cfg.maxBatchSize && |batch| <= cfg.maxTokensPerStep
            && InOrder(Before, batch)
            && (forall r :: r in batch ==> r in s'.running)
            && (forall r :: r in s'.running ==> Owned(s', r.id) >= Need(cfg, r))
  {
    var s1 := AfterAdmission(cfg, s, intended);
    AdmissionSize(cfg, s, intended);
    GrowLoopProvides(cfg, s1, s1.running, intended);
    var s' := Schedule(cfg, s, intended);
    SortedFacts(Before, s'.running, 0);
    SortedInOrder(Before, s'.running);
  }

  // With distinct ids no allocation of a whole schedule fails.
  lemma ScheduleNeverRaises(cfg: Config, s: Sched)
    requires ValidConfig(cfg) && DistinctIds(s)
    ensures !Admit(cfg, s).raised
  {
    forall r | r in s.waiting ensures Count(s.running, r.id) == 0 {
      CountMember(s.waiting, r.id);
      assert Count(s.waiting, r.id) + Count(s.running, r.id) <= 1;
    }
    AdmissionFits(cfg, s);
  }

  lemma {:induction false} FindFacts(xs: seq<Request>, id: int)
    ensures Find(xs, id).Some? <==> Count(xs, id) > 0
    ensures Find(xs, id).Some? ==> Find(xs, id).value in xs && Find(xs, id).value.id == id
  {
    if |xs| == 0 {
    } else {
      FindFacts(xs[1..], id);
      assert xs == [xs[0]] + xs[1..];
    }
  }

  // No blocks are taken; a request keeps what it owns or gives everything back.
  ghost predicate NothingTaken(s: Sched, s': Sched, id: int) {
    s'.free >= s.free && (Owned(s', id) == Owned(s, id) || Owned(s', id) == 0)
  }

  // Running records other than the one just advanced are as they were.
  ghost predicate OthersSame(s: Sched, s': Sched, id: int) {
    && (forall i :: Count(s.running, i) <= 1 ==> Count(s'.running, i) <= 1)
    && (forall x :: x in s'.running && x.id != id ==> x in s.running && Owned(s', x.id) == Owned(s, x.id))
  }

  lemma RecordFacts(s: Sched, r: Request)
    requires Count(s.running, r.id) == 1
    ensures var t := s.(running := Put(s.running, r), waiting := Refresh(s.waiting, r));
            OthersSame(s, t, r.id) && Count(t.running, r.id) == 1
  {
    var t := s.(running := Put(s.running, r), waiting := Refresh(s.waiting, r));
    forall i ensures Count(t.running, i) == Count(s.running, i) {
      PutFacts(s.running, r, i);
    }
    PutMembers(s.running, r);
  }

  lemma FinishFacts(p: Progress, r: Request)
    ensures OthersSame(p.s, Finish(p, r).s, r.id)
    ensures forall id :: NothingTaken(p.s, Finish(p, r).s, id)
  {
    var t := Finish(p, r).s;
    forall i ensures Count(t.running, i) <= Count(p.s.running, i) {
      RemoveFacts(p.s.running, r.id, i);
    }
    RemoveFacts(p.s.running, r.id, r.id);
  }

  // After a batch, the blocks for the new token are already there.
  lemma StepOneAllocatesNothing(cfg: Config, p: Progress, id: int, token: int)
    requires cfg.blockSize > 0 && Count(p.s.running, id) <= 1
    requires forall x :: x in p.s.running && x.id == id ==> Owned(p.s, id) >= Need(cfg, x)
    ensures OthersSame(p.s, StepOne(cfg, p, id, token).s, id)
    ensures forall i :: NothingTaken(p.s, StepOne(cfg, p, id, token).s, i)
  {
    FindFacts(p.s.running, id);
    match Find(p.s.running, id)
    case None =>
    case Some(before) =>
      var r := before.(generated := before.generated + [token]);
      var q := Progress(p.s.(running := Put(p.s.running, r), waiting := Refresh(p.s.waiting, r)), p.finished);
      assert BlocksNeeded(cfg, TotalTokens(r)) == Need(cfg, before);
      RecordFacts(p.s, r);
      FinishFacts(q, r);
  }

  // No block is taken by a step; those of finished requests are given back.
  lemma {:induction false} StepAllocatesNothing(cfg: Config, p: Progress, batch: seq<Request>, tokens: seq<int>,
                                                id: int)
    requires cfg.blockSize > 0 && |batch| == |tokens|
    requires forall i :: Count(p.s.running, i) <= 1 && Count(batch, i) <= 1
    requires forall x :: x in p.s.running && Count(batch, x.id) > 0 ==> Owned(p.s, x.id) >= Need(cfg, x)
    ensures NothingTaken(p.s, StepLoop(cfg, p, batch, tokens).s, id)
    decreases |batch|
  {
    if |batch| == 0 {
    } else {
      var first := batch[0].id;
      var q := StepOne(cfg, p, first, tokens[0]);
      assert Count(batch, first) == 1 + Count(batch[1..], first);
      StepOneAllocatesNothing(cfg, p, first, tokens[0]);
      forall i ensures Count(q.s.running, i) <= 1 && Count(batch[1..], i) <= 1 {
        assert Count(p.s.running, i) <= 1 && Count(batch, i) <= 1;
      }
      forall x | x in q.s.running && Count(batch[1..], x.id) > 0 ensures Owned(q.s, x.id) >= Need(cfg, x) {
        assert x.id != first;
      }
      StepAllocatesNothing(cfg, q, batch[1..], tokens[1..], id);
      assert NothingTaken(p.s, q.s, id);
    }
  }

  lemma GrowOneCount(cfg: Config, s: Sched, r: Request, intended: bool, id: int)
    requires cfg.blockSize > 0
    ensures Count(GrowOne(cfg, s, r, intended).running, id) <= Count(s.running, id)
  {
    var missing := Need(cfg, r) - Owned(s, r.id);
    if missing > 0 && !(intended && !HasId(s.running, r.id)) {
      PreemptLoopCount(s, Sorted(Weaker, Remove(s.running, r.id)), missing, 0, id);
      var s' := if missing > s.free then PreemptToFree(s, missing, Some(r.id)).0 else s;
      assert Count(s'.running, id) <= Count(s.running, id);
      PreemptFacts(s', r, id);
    }
  }

  lemma {:induction false} GrowLoopCount(cfg: Config, s: Sched, todo: seq<Request>, intended: bool, id: int)
    requires cfg.blockSize > 0
    ensures Count(GrowLoop(cfg, s, todo, intended).running, id) <= Count(s.running, id)
    decreases |todo|
  {
    if |todo| == 0 {
    } else {
      GrowOneCount(cfg, s, todo[0], intended, id);
      GrowLoopCount(cfg, GrowOne(cfg, s, todo[0], intended), todo[1..], intended, id);
    }
  }

  lemma BatchDistinct(cfg: Config, s: Sched, id: int)
    ensures Count(Batch(cfg, s), id) <= Count(s.running, id)
  {
    SortedFacts(Before, s.running, id);
    var order := Sorted(Before, s.running);
    if |order| > cfg.maxTokensPerStep {
      CountAppend(order[..cfg.maxTokensPerStep], order[cfg.maxTokensPerStep..], id);
      assert order[..cfg.maxTokensPerStep] + order[cfg.maxTokensPerStep..] == order;
    }
  }

  lemma RunningDistinct(cfg: Config, s: Sched, intended: bool, id: int)
    requires ValidConfig(cfg) && DistinctIds(s) && |s.running| <= cfg.maxBatchSize
    ensures Count(Schedule(cfg, s, intended).running, id) <= 1
  {
    AdmissionDistinct(cfg, s, intended);
    var s1 := AfterAdmission(cfg, s, intended);
    GrowLoopCount(cfg, s1, s1.running, intended, id);
    assert Count(s1.running, id) <= 1;
  }

  // Together: a step after a schedule takes no blocks.
  lemma BatchThenStep(cfg: Config, s: Sched, tokens: seq<int>, intended: bool, id: int)
    requires ValidConfig(cfg) && DistinctIds(s) && |s.running| <= cfg.maxBatchSize
    requires |tokens| == |Batch(cfg, Schedule(cfg, s, intended))|
    ensures var s' := Schedule(cfg, s, intended);
            NothingTaken(s', StepLoop(cfg, Progress(s', []), Batch(cfg, s'), tokens).s, id)
  {
    hide Schedule, Batch, StepLoop, Count, NothingTaken;
    var s' := Schedule(cfg, s, intended);
    ScheduleCapacity(cfg, s, intended);
    forall i ensures Count(s'.running, i) <= 1 && Count(Batch(cfg, s'), i) <= 1 {
      RunningDistinct(cfg, s, intended, i);
      BatchDistinct(cfg, s', i);
    }
    StepAllocatesNothing(cfg, Progress(s', []), Batch(cfg, s'), tokens, id);
  }

  // ----- growth keeps every request -----

  // Only running requests own blocks.
  ghost predicate OwnersRun(s: Sched) {
    forall id :: id in s.owned ==> Count(s.running, id) > 0
  }

  lemma PreemptKeeps(s: Sched, r: Request)
    requires OwnersRun(s) && Count(s.running, r.id) == 1
    ensures OwnersRun(Preempt(s, r))
    ensures forall id :: Count(Preempt(s, r).waiting, id) + Count(Preempt(s, r).running, id) ==
                         Count(s.waiting, id) + Count(s.running, id)
    ensures forall id :: Count(Preempt(s, r).running, id) <= Count(s.running, id)
  {
    forall id
      ensures Count(Preempt(s, r).waiting, id) + Count(Preempt(s, r).running, id) ==
              Count(s.waiting, id) + Count(s.running, id)
      ensures id in Preempt(s, r).owned ==> Count(Preempt(s, r).running, id) > 0
      ensures Count(Preempt(s, r).running, id) <= Count(s.running, id)
    {
      PreemptFacts(s, r, id);
    }
  }

  lemma MovedKeeps(s: Sched, victims: seq<Request>, s': Sched)
    requires Moved(s, victims, s') && OwnersRun(s)
    ensures OwnersRun(s')
    ensures forall id :: Count(s'.waiting, id) + Count(s'.running, id) == Count(s.waiting, id) + Count(s.running, id)
  {
    forall id
      ensures Count(s'.waiting, id) + Count(s'.running, id) == Count(s.waiting, id) + Count(s.running, id)
      ensures id in s'.owned ==> Count(s'.running, id) > 0
    {
      CountAppend(victims, s.waiting, id);
      assert Count(victims, id) + Count(s'.running, id) == Count(s.running, id);
    }
  }

  lemma PreemptToFreeKeeps(s: Sched, target: int, exclude: int)
    requires DistinctIds(s) && OwnersRun(s)
    ensures var s' := PreemptToFree(s, target, Some(exclude)).0;
            && OwnersRun(s') && Count(s'.running, exclude) == Count(s.running, exclude)
            && forall id :: Count(s'.waiting, id) + Count(s'.running, id) == Count(s.waiting, id) + Count(s.running, id)
  {
    hide PreemptToFree, Count;
    forall id ensures Count(s.running, id) <= 1 {
      assert Count(s.waiting, id) + Count(s.running, id) <= 1;
    }
    var victims := PreemptToFreeMoves(s, target, Some(exclude));
    var s' := PreemptToFree(s, target, Some(exclude)).0;
    assert Count(victims, exclude) + Count(s'.running, exclude) == Count(s.running, exclude);
    MovedKeeps(s, victims, s');
  }

  lemma GrowOneKeeps(cfg: Config, s: Sched, r: Request, intended: bool)
    requires cfg.blockSize > 0 && DistinctIds(s) && OwnersRun(s)
    requires intended || Count(s.running, r.id) > 0
    ensures var s' := GrowOne(cfg, s, r, intended);
            && OwnersRun(s')
            && forall id :: Count(s'.waiting, id) + Count(s'.running, id) == Count(s.waiting, id) + Count(s.running, id)
  {
    hide PreemptToFree, Count, Preempt, Need;
    CountMember(s.running, r.id);
    assert Count(s.waiting, r.id) + Count(s.running, r.id) <= 1;
    var missing := Need(cfg, r) - Owned(s, r.id);
    if missing > 0 && Count(s.running, r.id) > 0 && missing > s.free {
      PreemptToFreeKeeps(s, missing, r.id);
      PreemptKeeps(PreemptToFree(s, missing, Some(r.id)).0, r);
    }
  }

  lemma DistinctKept(s: Sched, s': Sched)
    requires DistinctIds(s)
    requires forall id :: Count(s'.waiting, id) + Count(s'.running, id) == Count(s.waiting, id) + Count(s.running, id)
    ensures DistinctIds(s')
  {
    forall id ensures Count(s'.waiting, id) + Count(s'.running, id) <= 1 {
      assert Count(s.waiting, id) + Count(s.running, id) <= 1;
    }
  }

  lemma {:induction false} GrowLoopKeeps(cfg: Config, s: Sched, todo: seq<Request>)
    requires cfg.blockSize > 0 && DistinctIds(s) && OwnersRun(s)
    ensures var s' := GrowLoop(cfg, s, todo, true);
            && OwnersRun(s')
            && forall id :: Count(s'.waiting, id) + Count(s'.running, id) == Count(s.waiting, id) + Count(s.running, id)
    decreases |todo|
  {
    if |todo| == 0 {
    } else {
      GrowOneKeeps(cfg, s, todo[0], true);
      var mid := GrowOne(cfg, s, todo[0], true);
      DistinctKept(s, mid);
      GrowLoopKeeps(cfg, mid, todo[1..]);
      var s' := GrowLoop(cfg, s, todo, true);
      forall id ensures Count(s'.waiting, id) + Count(s'.running, id) == Count(s.waiting, id) + Count(s.running, id) {
        assert Count(mid.waiting, id) + Count(mid.running, id) == Count(s.waiting, id) + Count(s.running, id);
      }
    }
  }

  // Intended scheduling neither loses nor doubles a request, and leaves blocks only with running ones.
  lemma ScheduleKeeps(cfg: Config, s: Sched)
    requires ValidConfig(cfg) && DistinctIds(s) && OwnersRun(s) && |s.running| <= cfg.maxBatchSize
    ensures var s' := Schedule(cfg, s, true);
            && OwnersRun(s') && DistinctIds(s')
            && forall id :: Count(s'.waiting, id) + Count(s'.running, id) == Count(s.waiting, id) + Count(s.running, id)
  {
    var s1 := AfterAdmission(cfg, s, true);
    AdmissionMoves(cfg, s);
    AdmissionDistinct(cfg, s, true);
    var a := Admit(cfg, s);
    forall id
      ensures Count(s1.waiting, id) + Count(s1.running, id) == Count(s.waiting, id) + Count(s.running, id)
      ensures id in s1.owned ==> Count(s1.running, id) > 0
    {
      AdmissionConserves(cfg, s, true, id);
      CountAppend(a.s.running, a.admitted, id);
      assert Count(Victims(s, a), id) + Count(a.s.running, id) == Count(s.running, id);
    }
    GrowLoopKeeps(cfg, s1, s1.running);
    var s' := Schedule(cfg, s, true);
    forall id ensures Count(s'.waiting, id) + Count(s'.running, id) == Count(s.waiting, id) + Count(s.running, id) {
      assert Count(s1.waiting, id) + Count(s1.running, id) == Count(s.waiting, id) + Count(s.running, id);
    }
    DistinctKept(s, s');
  }

  // ----- where the code departs: growth visits requests that were preempted meanwhile -----

  // Every request that growth visits is still running when its turn comes.
  predicate NoStaleVisit(cfg: Config, s: Sched, todo: seq<Request>)
    requires cfg.blockSize > 0
    decreases |todo|
  {
    |todo| == 0 || (HasId(s.running, todo[0].id) && NoStaleVisit(cfg, GrowOne(cfg, s, todo[0], false), todo[1..]))
  }

  // A request that is not running and either owns blocks or is queued twice.
  ghost predicate Stray(s: Sched, id: int) {
    Count(s.running, id) == 0 && (id in s.owned || Count(s.waiting, id) > 1)
  }

  lemma {:induction false} PreemptLoopStray(s: Sched, candidates: seq<Request>, target: int, freed: nat, id: int)
    requires Stray(s, id) && forall r :: r in candidates ==> r.id != id
    ensures Stray(PreemptLoop(s, candidates, target, freed).0, id)
    decreases |candidates|
  {
    if |candidates| == 0 || freed >= target {
    } else {
      PreemptFacts(s, candidates[0], id);
      assert candidates == [candidates[0]] + candidates[1..];
      PreemptLoopStray(Preempt(s, candidates[0]), candidates[1..], target, freed + Owned(s, candidates[0].id), id);
    }
  }

  lemma PreemptToFreeStray(s: Sched, target: int, exclude: int, id: int)
    requires Stray(s, id)
    ensures Stray(PreemptToFree(s, target, Some(exclude)).0, id)
  {
    var others := Remove(s.running, exclude);
    forall x | x in Sorted(Weaker, others) ensures x.id != id {
      SortedFacts(Weaker, others, id);
      RemoveFacts(s.running, exclude, id);
      CountMember(s.running, id);
    }
    PreemptLoopStray(s, Sorted(Weaker, others), target, 0, id);
  }

  lemma GrowOneStray(cfg: Config, s: Sched, r: Request, id: int)
    requires cfg.blockSize > 0 && Stray(s, id) && r.id != id
    ensures Stray(GrowOne(cfg, s, r, false), id)
  {
    hide PreemptToFree, Count, Need;
    var missing := Need(cfg, r) - Owned(s, r.id);
    PreemptToFreeStray(s, missing, r.id, id);
    PreemptFacts(PreemptToFree(s, missing, Some(r.id)).0, r, id);
    PreemptFacts(s, r, id);
  }

  lemma {:induction false} GrowLoopStray(cfg: Config, s: Sched, todo: seq<Request>, id: int)
    requires cfg.blockSize > 0 && Stray(s, id) && Count(todo, id) == 0
    ensures Stray(GrowLoop(cfg, s, todo, false), id)
    decreases |todo|
  {
    if |todo| == 0 {
    } else {
      GrowOneStray(cfg, s, todo[0], id);
      GrowLoopStray(cfg, GrowOne(cfg, s, todo[0], false), todo[1..], id);
    }
  }

  // A stale visit gives blocks to a waiting request, or queues it a second time.
  lemma StaleVisitStrays(cfg: Config, s: Sched, r: Request)
    requires cfg.blockSize > 0 && DistinctIds(s) && OwnersRun(s)
    requires Count(s.running, r.id) == 0 && Count(s.waiting, r.id) == 1
    ensures Stray(GrowOne(cfg, s, r, false), r.id)
  {
    hide PreemptToFree, Count, Preempt, Need;
    NeedPositive(cfg, r);
    var missing := Need(cfg, r);
    assert Owned(s, r.id) == 0;
    if missing <= s.free {
      assert r.id in GrowOne(cfg, s, r, false).owned;
    } else {
      PreemptToFreeKeeps(s, missing, r.id);
      PreemptFacts(PreemptToFree(s, missing, Some(r.id)).0, r, r.id);
    }
  }

  lemma NeedPositive(cfg: Config, r: Request)
    requires cfg.blockSize > 0
    ensures Need(cfg, r) > 0
  {
    CeilDivIs(TotalTokens(r) + 1, cfg.blockSize, 0);
  }

  ghost predicate Visitable(s: Sched, todo: seq<Request>) {
    && DistinctIds(s) && OwnersRun(s)
    && (forall id :: Count(todo, id) <= 1)
    && (forall id :: Count(todo, id) > 0 ==> Count(s.waiting, id) + Count(s.running, id) == 1)
  }

  lemma VisitableNext(cfg: Config, s: Sched, todo: seq<Request>)
    requires cfg.blockSize > 0 && |todo| > 0 && Visitable(s, todo) && HasId(s.running, todo[0].id)
    ensures GrowOne(cfg, s, todo[0], true) == GrowOne(cfg, s, todo[0], false)
    ensures Visitable(GrowOne(cfg, s, todo[0], false), todo[1..])
  {
    var r := todo[0];
    var next := GrowOne(cfg, s, r, false);
    CountMember(s.running, r.id);
    GrowOneKeeps(cfg, s, r, false);
    DistinctKept(s, next);
    forall id
      ensures Count(todo[1..], id) <= 1
      ensures Count(todo[1..], id) > 0 ==> Count(next.waiting, id) + Count(next.running, id) == 1
    {
      assert Count(todo, id) <= 1;
      assert Count(next.waiting, id) + Count(next.running, id) == Count(s.waiting, id) + Count(s.running, id);
    }
  }

  lemma StaleVisitDiffers(cfg: Config, s: Sched, todo: seq<Request>)
    requires cfg.blockSize > 0 && |todo| > 0 && Visitable(s, todo) && !HasId(s.running, todo[0].id)
    ensures Stray(GrowLoop(cfg, s, todo, false), todo[0].id)
    ensures GrowLoop(cfg, s, todo, false) != GrowLoop(cfg, s, todo, true)
  {
    var r := todo[0];
    assert Count(todo, r.id) == 1 + Count(todo[1..], r.id) && Count(todo, r.id) <= 1;
    CountMember(s.running, r.id);
    assert Count(s.waiting, r.id) + Count(s.running, r.id) == 1;
    StaleVisitStrays(cfg, s, r);
    GrowLoopStray(cfg, GrowOne(cfg, s, r, false), todo[1..], r.id);
    GrowLoopKeeps(cfg, s, todo);
    var t := GrowLoop(cfg, s, todo, true);
    assert Count(t.waiting, r.id) + Count(t.running, r.id) == 1;
    assert r.id in t.owned ==> Count(t.running, r.id) > 0;
  }

  // Exactly when growth as written does what is intended: when it visits nobody preempted meanwhile.
  // Otherwise it ends with a waiting request that owns blocks or is queued twice.
  lemma {:induction false} GrowthAgreesIff(cfg: Config, s: Sched, todo: seq<Request>)
    requires cfg.blockSize > 0 && Visitable(s, todo)
    ensures NoStaleVisit(cfg, s, todo) <==> GrowLoop(cfg, s, todo, false) == GrowLoop(cfg, s, todo, true)
    ensures !NoStaleVisit(cfg, s, todo) ==> exists id :: Stray(GrowLoop(cfg, s, todo, false), id)
    decreases |todo|
  {
    if |todo| == 0 {
    } else {
      hide GrowOne, Visitable, Stray;
      if HasId(s.running, todo[0].id) {
        VisitableNext(cfg, s, todo);
        GrowthAgreesIff(cfg, GrowOne(cfg, s, todo[0], false), todo[1..]);
      } else {
        StaleVisitDiffers(cfg, s, todo);
      }
    }
  }

  // ----- the code against its intention, for a whole call of schedule -----

  lemma AdmissionOwners(cfg: Config, s: Sched, intended: bool)
    requires cfg.blockSize > 0 && DistinctIds(s) && OwnersRun(s) && |s.running| <= cfg.maxBatchSize
    ensures OwnersRun(AfterAdmission(cfg, s, intended))
  {
    AdmissionMoves(cfg, s);
    var a := Admit(cfg, s);
    var s1 := AfterAdmission(cfg, s, intended);
    forall id ensures id in s1.owned ==> Count(s1.running, id) > 0 {
      CountAppend(a.s.running, a.admitted, id);
      assert Count(Victims(s, a), id) + Count(a.s.running, id) == Count(s.running, id);
    }
  }

  lemma AdmissionVisitable(cfg: Config, s: Sched, intended: bool)
    requires cfg.blockSize > 0 && DistinctIds(s) && OwnersRun(s) && |s.running| <= cfg.maxBatchSize
    ensures Visitable(AfterAdmission(cfg, s, intended), AfterAdmission(cfg, s, intended).running)
  {
    AdmissionOwners(cfg, s, intended);
    AdmissionDistinct(cfg, s, intended);
    var s1 := AfterAdmission(cfg, s, intended);
    forall id
      ensures Count(s1.running, id) <= 1
      ensures Count(s1.running, id) > 0 ==> Count(s1.waiting, id) + Count(s1.running, id) == 1
    {
      assert Count(s1.waiting, id) + Count(s1.running, id) <= 1;
    }
  }

  lemma PreemptToFreeAddsNobody(s: Sched, target: int, exclude: int, id: int)
    requires Count(s.waiting, id) + Count(s.running, id) == 0
    ensures Count(PreemptToFree(s, target, Some(exclude)).0.waiting, id) == 0
  {
    var others := Remove(s.running, exclude);
    RemoveFacts(s.running, exclude, id);
    SortedFacts(Weaker, others, id);
    PreemptLoopAddsNobody(s, Sorted(Weaker, others), target, 0, id);
  }

  lemma GrowOneAddsNobody(cfg: Config, s: Sched, r: Request, id: int)
    requires cfg.blockSize > 0 && r.id != id && Count(s.waiting, id) + Count(s.running, id) == 0
    ensures Count(GrowOne(cfg, s, r, false).waiting, id) == 0
  {
    hide PreemptToFree, Count, Preempt, Need;
    var missing := Need(cfg, r) - Owned(s, r.id);
    PreemptToFreeAddsNobody(s, missing, r.id, id);
    PreemptFacts(PreemptToFree(s, missing, Some(r.id)).0, r, id);
    PreemptFacts(s, r, id);
  }

  lemma {:induction false} GrowLoopAddsNobody(cfg: Config, s: Sched, todo: seq<Request>, id: int)
    requires cfg.blockSize > 0 && Count(s.waiting, id) + Count(s.running, id) + Count(todo, id) == 0
    ensures Count(GrowLoop(cfg, s, todo, false).waiting, id) == 0
    decreases |todo|
  {
    if |todo| == 0 {
    } else {
      hide GrowOne;
      GrowOneAddsNobody(cfg, s, todo[0], id);
      GrowOneCount(cfg, s, todo[0], false, id);
      GrowLoopAddsNobody(cfg, GrowOne(cfg, s, todo[0], false), todo[1..], id);
    }
  }

  lemma {:induction false} PreemptLoopAddsNobody(s: Sched, candidates: seq<Request>, target: int, freed: nat, id: int)
    requires Count(s.waiting, id) + Count(candidates, id) == 0
    ensures Count(PreemptLoop(s, candidates, target, freed).0.waiting, id) == 0
    decreases |candidates|
  {
    if |candidates| == 0 || freed >= target {
    } else {
      PreemptFacts(s, candidates[0], id);
      PreemptLoopAddsNobody(Preempt(s, candidates[0]), candidates[1..], target, freed + Owned(s, candidates[0].id), id);
    }
  }

  // Exactly when schedule does what is intended: when admission preempts nobody and growth visits
  // nobody who was preempted meanwhile.
  lemma ScheduleAsIntendedIff(cfg: Config, s: Sched)
    requires ValidConfig(cfg) && DistinctIds(s) && OwnersRun(s) && |s.running| <= cfg.maxBatchSize
    ensures var s1 := AfterAdmission(cfg, s, false);
            Schedule(cfg, s, false) == Schedule(cfg, s, true) <==>
            Victims(s, Admit(cfg, s)) == [] && NoStaleVisit(cfg, s1, s1.running)
  {
    var victims := Victims(s, Admit(cfg, s));
    var s1 := AfterAdmission(cfg, s, false);
    AdmissionVisitable(cfg, s, false);
    if victims == [] {
      assert [] + Admit(cfg, s).still == Admit(cfg, s).still;
      GrowthAgreesIff(cfg, s1, s1.running);
    } else {
      ScheduleLoses(cfg, s, victims[0].id);
    }
  }

  // A request preempted by admission is in neither queue after the schedule of the code; after the
  // intended one it is.
  lemma ScheduleLoses(cfg: Config, s: Sched, id: int)
    requires ValidConfig(cfg) && DistinctIds(s) && OwnersRun(s) && |s.running| <= cfg.maxBatchSize
    requires Count(Victims(s, Admit(cfg, s)), id) > 0
    ensures Count(Schedule(cfg, s, false).waiting, id) + Count(Schedule(cfg, s, false).running, id) == 0
    ensures Count(Schedule(cfg, s, true).waiting, id) + Count(Schedule(cfg, s, true).running, id) == 1
  {
    var s1 := AfterAdmission(cfg, s, false);
    assert Count(s.waiting, id) + Count(s.running, id) <= 1;
    AdmissionConserves(cfg, s, false, id);
    GrowLoopAddsNobody(cfg, s1, s1.running, id);
    GrowLoopCount(cfg, s1, s1.running, false, id);
    ScheduleKeeps(cfg, s);
  }

  // ----- whole runs -----

  datatype Op = AddRequest(r: Request) | DoSchedule | DoStep(tokens: seq<int>) | GetFinished

  datatype System = System(s: Sched, finished: seq<Request>, drained: seq<Request>, batch: seq<Request>)

  function Apply(cfg: Config, y: System, op: Op): System
    requires cfg.blockSize > 0
  {
    match op
    case AddRequest(r) => y.(s := y.s.(waiting := y.s.waiting + [r]))
    case DoSchedule =>
      var s' := Schedule(cfg, y.s, true);
      y.(s := s', batch := Batch(cfg, s'))
    case DoStep(tokens) =>
      if |tokens| != |y.batch| then y
      else
        var p := StepLoop(cfg, Progress(y.s, y.finished), y.batch, tokens);
        y.(s := p.s, finished := p.finished)
    case GetFinished => y.(finished := [], drained := y.drained + y.finished)
  }

  function Run(cfg: Config, numBlocks: nat, trace: seq<Op>): System
    requires cfg.blockSize > 0
  {
    if |trace| == 0 then System(Sched([], [], map[], numBlocks), [], [], [])
    else Apply(cfg, Run(cfg, numBlocks, trace[..|trace| - 1]), trace[|trace| - 1])
  }

  // In how many places a request is.
  function Places(y: System, id: int): nat {
    Count(y.s.waiting, id) + Count(y.s.running, id) + Count(y.finished, id) + Count(y.drained, id)
  }

  function Adds(trace: seq<Op>, id: int): nat {
    if |trace| == 0 then 0
    else
      var last := trace[|trace| - 1];
      Adds(trace[..|trace| - 1], id) + (if last.AddRequest? && last.r.id == id then 1 else 0)
  }

  ghost predicate SystemInvariant(cfg: Config, y: System) {
    OwnersRun(y.s) && |y.s.running| <= cfg.maxBatchSize
  }

  lemma StepOneKeeps(cfg: Config, p: Progress, id: int, token: int)
    requires cfg.blockSize > 0 && OwnersRun(p.s) && forall i :: Count(p.s.running, i) <= 1
    ensures var p' := StepOne(cfg, p, id, token);
            && OwnersRun(p'.s) && |p'.s.running| <= |p.s.running|
            && (forall i :: Count(p'.s.waiting, i) == Count(p.s.waiting, i))
            && (forall i :: Count(p'.s.running, i) + Count(p'.finished, i) ==
                 Count(p.s.running, i) + Count(p.finished, i))
            && forall i :: Count(p'.s.running, i) <= 1
  {
    FindFacts(p.s.running, id);
    match Find(p.s.running, id)
    case None =>
    case Some(before) =>
      var r := before.(generated := before.generated + [token]);
      var running := Put(p.s.running, r);
      var p' := StepOne(cfg, p, id, token);
      PutKeepsSize(p.s.running, r);
      assert Count(p.s.running, id) <= 1;
      forall i
        ensures Count(p'.s.running, i) + Count(p'.finished, i) == Count(p.s.running, i) + Count(p.finished, i)
        ensures i in p'.s.owned ==> Count(p'.s.running, i) > 0
        ensures Count(p'.s.running, i) <= 1
        ensures Count(p'.s.waiting, i) == Count(p.s.waiting, i)
      {
        RefreshFacts(p.s.waiting, r, i);
        PutFacts(p.s.running, r, i);
        RemoveFacts(running, id, i);
        CountAppend(p.finished, [r], i);
        CountOne(r, i);
        assert Count(p.s.running, i) <= 1;
      }
      RemoveFacts(running, id, id);
  }

  lemma {:induction false} PutKeepsSize(xs: seq<Request>, r: Request)
    requires Count(xs, r.id) > 0
    ensures |Put(xs, r)| == |xs|
  {
    if xs[0].id == r.id {
    } else {
      PutKeepsSize(xs[1..], r);
    }
  }

  lemma {:induction false} StepLoopKeeps(cfg: Config, p: Progress, batch: seq<Request>, tokens: seq<int>, id: int)
    requires cfg.blockSize > 0 && |batch| == |tokens|
    requires OwnersRun(p.s) && forall i :: Count(p.s.running, i) <= 1
    ensures var p' := StepLoop(cfg, p, batch, tokens);
            && OwnersRun(p'.s) && |p'.s.running| <= |p.s.running|
            && Count(p'.s.waiting, id) == Count(p.s.waiting, id)
            && Count(p'.s.running, id) + Count(p'.finished, id) == Count(p.s.running, id) + Count(p.finished, id)
    decreases |batch|
  {
    if |batch| == 0 {
    } else {
      var q := StepOne(cfg, p, batch[0].id, tokens[0]);
      StepOneKeeps(cfg, p, batch[0].id, tokens[0]);
      StepLoopKeeps(cfg, q, batch[1..], tokens[1..], id);
      assert Count(q.s.running, id) + Count(q.finished, id) == Count(p.s.running, id) + Count(p.finished, id);
    }
  }

  lemma ApplyKeeps(cfg: Config, y: System, op: Op, id: int)
    requires ValidConfig(cfg) && SystemInvariant(cfg, y) && forall i :: Places(y, i) <= 1
    ensures SystemInvariant(cfg, Apply(cfg, y, op))
    ensures Places(Apply(cfg, y, op), id) == Places(y, id) + (if op.AddRequest? && op.r.id == id then 1 else 0)
  {
    forall i ensures Count(y.s.waiting, i) + Count(y.s.running, i) <= 1 && Count(y.s.running, i) <= 1 {
      assert Places(y, i) <= 1;
    }
    match op
    case AddRequest(r) =>
      CountAppend(y.s.waiting, [r], id);
      CountOne(r, id);
    case DoSchedule =>
      ScheduleKeeps(cfg, y.s);
      ScheduleCapacity(cfg, y.s, true);
    case DoStep(tokens) =>
      if |tokens| == |y.batch| {
        StepLoopKeeps(cfg, Progress(y.s, y.finished), y.batch, tokens, id);
      }
    case GetFinished =>
      CountAppend(y.drained, y.finished, id);
  }

  // Over every run in which no id is added twice: each added request is in exactly one of waiting,
  // running, finished and drained, and only running requests own blocks.
  lemma {:induction false} RunConserves(cfg: Config, numBlocks: nat, trace: seq<Op>)
    requires ValidConfig(cfg) && forall id :: Adds(trace, id) <= 1
    ensures SystemInvariant(cfg, Run(cfg, numBlocks, trace))
    ensures forall id :: Places(Run(cfg, numBlocks, trace), id) == Adds(trace, id)
  {
    if |trace| == 0 {
    } else {
      var before, op := trace[..|trace| - 1], trace[|trace| - 1];
      forall id ensures Adds(before, id) <= 1 {
        assert Adds(trace, id) <= 1;
      }
      RunConserves(cfg, numBlocks, before);
      var y := Run(cfg, numBlocks, before);
      forall i ensures Places(y, i) <= 1 {
        assert Places(y, i) == Adds(before, i);
      }
      forall id
        ensures SystemInvariant(cfg, Run(cfg, numBlocks, trace))
        ensures Places(Run(cfg, numBlocks, trace), id) == Adds(trace, id)
      {
        ApplyKeeps(cfg, y, op, id);
        assert Places(y, id) == Adds(before, id);
      }
      ApplyKeeps(cfg, y, op, 0);
    }
  }

  // ----- who is preempted, and who is in the batch -----

  ghost predicate Transitive(le: (Request, Request) -> bool) {
    forall a, b, c :: le(a, b) && le(b, c) ==> le(a, c)
  }

  lemma {:induction false} OrderedPair(le: (Request, Request) -> bool, xs: seq<Request>, i: nat, j: nat)
    requires InOrder(le, xs) && Transitive(le) && i < j < |xs|
    ensures le(xs[i], xs[j])
    decreases j
  {
    if i == j - 1 {
    } else {
      OrderedPair(le, xs, i, j - 1);
    }
  }

  ghost predicate NoneOf(candidates: seq<Request>, n: nat, id: int)
    requires n <= |candidates|
  {
    forall j :: 0 <= j < n ==> candidates[j].id != id
  }

  lemma NoneOfMore(candidates: seq<Request>, n: nat, id: int)
    requires n < |candidates|
    ensures NoneOf(candidates, n + 1, id) <==> candidates[0].id != id && NoneOf(candidates[1..], n, id)
  {
    assert forall j :: 0 < j < n + 1 ==> candidates[j] == candidates[1..][j - 1];
    assert forall j :: 0 <= j < n ==> candidates[1..][j] == candidates[j + 1];
  }

  // Preemption takes the candidates in order and stops as soon as enough is freed.
  lemma {:induction false} PreemptLoopPrefix(s: Sched, candidates: seq<Request>, target: int, freed: nat)
    returns (n: nat)
    ensures n <= |candidates|
    ensures n < |candidates| ==> PreemptLoop(s, candidates, target, freed).1 >= target
    ensures forall x :: x in PreemptLoop(s, candidates, target, freed).0.running <==>
            x in s.running && NoneOf(candidates, n, x.id)
    decreases |candidates|
  {
    if |candidates| == 0 || freed >= target {
      n := 0;
    } else {
      var r := candidates[0];
      PreemptFacts(s, r, r.id);
      var t, more := Preempt(s, r), freed + Owned(s, r.id);
      var m := PreemptLoopPrefix(t, candidates[1..], target, more);
      n := m + 1;
      hide Preempt, NoneOf;
      forall x: Request ensures NoneOf(candidates, n, x.id) <==> x.id != r.id && NoneOf(candidates[1..], m, x.id) {
        NoneOfMore(candidates, m, x.id);
      }
    }
  }

  lemma WeakerTransitive()
    ensures Transitive(Weaker)
  {
  }

  lemma BeforeTransitive()
    ensures Transitive(Before)
  {
  }

  // Whoever is preempted has at most the priority of anyone spared, and arrived no earlier on a tie.
  lemma VictimsAreWeakest(s: Sched, target: int, exclude: Option<int>, v: Request, w: Request)
    requires forall id :: Count(s.running, id) <= 1
    requires v in s.running && v !in PreemptToFree(s, target, exclude).0.running
    requires w in PreemptToFree(s, target, exclude).0.running && exclude != Some(w.id)
    ensures v.priority < w.priority || (v.priority == w.priority && v.arrival >= w.arrival)
  {
    var others := if exclude.Some? then Remove(s.running, exclude.value) else s.running;
    var candidates := Sorted(Weaker, others);
    if exclude.Some? {
      RemoveFacts(s.running, exclude.value, 0);
    }
    SortedFacts(Weaker, others, 0);
    SortedInOrder(Weaker, others);
    WeakerTransitive();
    var n := PreemptLoopPrefix(s, candidates, target, 0);
    hide Remove, Sorted, PreemptLoop, Insert, Transitive, InOrder;
    var j: nat :| j < n && candidates[j].id == v.id;
    assert candidates[j] in others && candidates[j] in s.running;
    SameIdSame(s.running, v, candidates[j]);
    assert w in candidates;
    var k: nat :| k < |candidates| && candidates[k] == w;
    assert k >= n;
    OrderedPair(Weaker, candidates, j, k);
  }

  lemma {:induction false} SameIdSame(xs: seq<Request>, v: Request, w: Request)
    requires forall id :: Count(xs, id) <= 1
    requires v in xs && w in xs && v.id == w.id
    ensures v == w
  {
    CountMember(xs[1..], v.id);
    assert xs == [xs[0]] + xs[1..];
    assert Count(xs, v.id) <= 1;
    if v == xs[0] || w == xs[0] {
    } else {
      forall id ensures Count(xs[1..], id) <= 1 {
        assert Count(xs, id) <= 1;
      }
      SameIdSame(xs[1..], v, w);
    }
  }

  // The batch is as large as the token budget allows, and consists of running requests, each once.
  lemma BatchSize(cfg: Config, s: Sched)
    ensures |Batch(cfg, s)| == if |s.running| < cfg.maxTokensPerStep then |s.running| else cfg.maxTokensPerStep
    ensures forall r :: r in Batch(cfg, s) ==> r in s.running
    ensures |s.running| <= cfg.maxTokensPerStep ==> forall r :: r in s.running ==> r in Batch(cfg, s)
    ensures forall id :: Count(Batch(cfg, s), id) <= Count(s.running, id)
  {
    SortedFacts(Before, s.running, 0);
    forall id ensures Count(Batch(cfg, s), id) <= Count(s.running, id) {
      BatchDistinct(cfg, s, id);
    }
  }

  // Whoever runs but is left out of the batch arrived no earlier than anyone in it, with at most the same
  // priority on a tie.
  lemma BatchIsEarliest(cfg: Config, s: Sched, b: Request, r: Request)
    requires b in Batch(cfg, s) && r in s.running && r !in Batch(cfg, s)
    ensures |Batch(cfg, s)| == cfg.maxTokensPerStep
    ensures b.arrival < r.arrival || (b.arrival == r.arrival && b.priority >= r.priority)
  {
    var order := Sorted(Before, s.running);
    SortedFacts(Before, s.running, 0);
    SortedInOrder(Before, s.running);
    BeforeTransitive();
    hide Sorted, Transitive, InOrder;
    assert r in order;
    assert |order| > cfg.maxTokensPerStep;
    var i: nat :| i < cfg.maxTokensPerStep && order[i] == b;
    var j: nat :| j < |order| && order[j] == r;
    assert j >= cfg.maxTokensPerStep;
    OrderedPair(Before, order, i, j);
  }

  // ----- whole runs of the code as written -----

  // As Apply, with the departures of the code; a schedule that raises leaves the state of admission.
  function ApplyAsWritten(cfg: Config, y: System, op: Op): System
    requires cfg.blockSize > 0
  {
    if op.DoSchedule? then
      var a := Admit(cfg, y.s);
      if a.raised then y.(s := a.s)
      else
        var s' := Schedule(cfg, y.s, false);
        y.(s := s', batch := Batch(cfg, s'))
    else Apply(cfg, y, op)
  }

  function RunAsWritten(cfg: Config, numBlocks: nat, trace: seq<Op>): System
    requires cfg.blockSize > 0
  {
    if |trace| == 0 then System(Sched([], [], map[], numBlocks), [], [], [])
    else ApplyAsWritten(cfg, RunAsWritten(cfg, numBlocks, trace[..|trace| - 1]), trace[|trace| - 1])
  }

  lemma {:induction false} StepLoopSize(cfg: Config, p: Progress, batch: seq<Request>, tokens: seq<int>)
    requires cfg.blockSize > 0 && |batch| == |tokens|
    ensures |StepLoop(cfg, p, batch, tokens).s.running| <= |p.s.running|
    decreases |batch|
  {
    if |batch| == 0 {
    } else {
      StepOneSize(cfg, p, batch[0].id, tokens[0]);
      hide StepOne;
      StepLoopSize(cfg, StepOne(cfg, p, batch[0].id, tokens[0]), batch[1..], tokens[1..]);
    }
  }

  lemma StepOneSize(cfg: Config, p: Progress, id: int, token: int)
    requires cfg.blockSize > 0
    ensures |StepOne(cfg, p, id, token).s.running| <= |p.s.running|
  {
    FindFacts(p.s.running, id);
    if Find(p.s.running, id).Some? {
      var before := Find(p.s.running, id).value;
      var r := before.(generated := before.generated + [token]);
      PutKeepsSize(p.s.running, r);
      RemoveFacts(Put(p.s.running, r), id, id);
    }
  }

  // Over every run of the code as it is, whatever requests are added: no more than max_batch_size
  // run, and no batch exceeds it or the token budget.
  lemma {:induction false} RunAsWrittenBounded(cfg: Config, numBlocks: nat, trace: seq<Op>)
    requires ValidConfig(cfg)
    ensures var y := RunAsWritten(cfg, numBlocks, trace);
            |y.s.running| <= cfg.maxBatchSize && |y.batch| <= cfg.maxBatchSize && |y.batch| <= cfg.maxTokensPerStep
  {
    if |trace| == 0 {
    } else {
      var before, op := trace[..|trace| - 1], trace[|trace| - 1];
      RunAsWrittenBounded(cfg, numBlocks, before);
      var y := RunAsWritten(cfg, numBlocks, before);
      hide AdmitLoop, Schedule, Batch, StepLoop, Need;
      match op
      case DoSchedule =>
        AdmissionSize(cfg, y.s, false);
        ScheduleCapacity(cfg, y.s, false);
      case DoStep(tokens) =>
        if |tokens| == |y.batch| {
          StepLoopSize(cfg, Progress(y.s, y.finished), y.batch, tokens);
        }
      case _ =>
    }
  }

  // ----- two concrete schedules -----

  // One block in all; b has to make room for a, which came first, and is never heard of again.
  lemma LostRequest()
    ensures var cfg := Config(4, 8, 4);
            var a, b := Request(1, 3, 2, 1.0, 1.0, []), Request(2, 3, 1, 0.0, 2.0, []);
            var s := Sched([a], [b], map[2 := 1], 0);
            && DistinctIds(s) && OwnersRun(s)
            && Schedule(cfg, s, false).waiting == [] && Schedule(cfg, s, false).running == [a]
            && Schedule(cfg, s, true).waiting == [b] && Schedule(cfg, s, true).running == [a]
  {
    var cfg := Config(4, 8, 4);
    var a, b := Request(1, 3, 2, 1.0, 1.0, []), Request(2, 3, 1, 0.0, 2.0, []);
    var s := Sched([a], [b], map[2 := 1], 0);
    assert [a][1..] == [] && [b][1..] == [];
    assert Sorted(Before, [a]) == [a] && Sorted(Weaker, [b]) == [b];
    assert Need(cfg, a) == 1 && Need(cfg, b) == 1;
    assert Remove([b], 2) == [];
    var t := Preempt(s, b);
    assert t.waiting == [b, a] && t.running == [] && t.free == 1 && Owned(t, 1) == 0;
    assert Owned(s, 2) == 1;
    assert PreemptLoop(t, [b][1..], 1, 1) == (t, 1);
    assert PreemptLoop(s, [b], 1, 0) == (t, 1);
    assert PreemptToFree(s, 1, None) == (t, 1);
    var start := Admission(s, [], [], false);
    var one := AdmitOne(cfg, start, a);
    assert one == Admission(TakeBlocks(t, 1, 1), [a], [], false);
    assert AdmitLoop(cfg, start, [a]) == one;
    assert [b, a][..1] == [b];
    assert Victims(s, one) == [b];
    assert PutAll([], [a]) == Put([], a) == [a];
    forall intended: bool
      ensures Schedule(cfg, s, intended) == AfterAdmission(cfg, s, intended)
    {
      var s1 := AfterAdmission(cfg, s, intended);
      assert s1.running == [a] && Owned(s1, 1) == 1;
      assert GrowOne(cfg, s1, a, intended) == s1;
      assert GrowLoop(cfg, s1, [a], intended) == s1;
    }
  }

  lemma RemoveOne(r: Request, id: int)
    ensures Remove([r], id) == if r.id == id then [] else [r]
  {
    assert [r][1..] == [] && Remove([], id) == [];
  }

  // Two running requests, no free block, both about to need a second one. a gets b's, then b's own
  // turn comes all the same and takes a's two: nobody is left running, and b waits with two blocks.
  lemma NobodyLeftRunning()
    ensures var cfg := Config(4, 8, 1);
            var a, b := Request(1, 1, 9, 1.0, 1.0, []), Request(2, 1, 9, 0.0, 2.0, []);
            var s := Sched([], [a, b], map[1 := 1, 2 := 1], 0);
            && DistinctIds(s) && OwnersRun(s)
            && Schedule(cfg, s, false) == Sched([a, b], [], map[2 := 2], 0)
            && Schedule(cfg, s, true) == Sched([b], [a], map[1 := 2], 0)
  {
    var cfg := Config(4, 8, 1);
    var a, b := Request(1, 1, 9, 1.0, 1.0, []), Request(2, 1, 9, 0.0, 2.0, []);
    var s := Sched([], [a, b], map[1 := 1, 2 := 1], 0);
    var s2 := Sched([b], [a], map[1 := 2], 0);
    var s4 := Sched([a, b], [], map[2 := 2], 0);
    assert [a, b][1..] == [b] && [b][1..] == [];
    forall intended: bool ensures AfterAdmission(cfg, s, intended) == s {
      assert Admit(cfg, s) == Admission(s, [], [], false);
      assert PutAll([a, b], []) == [a, b];
      assert Victims(s, Admission(s, [], [], false)) == [];
    }
    FirstTurn(cfg, a, b);
    SecondTurn(cfg, a, b);
    assert GrowLoop(cfg, s4, [], false) == s4 && GrowLoop(cfg, s2, [], true) == s2;
    assert GrowLoop(cfg, s2, [b], false) == s4 && GrowLoop(cfg, s2, [b], true) == s2;
    assert GrowLoop(cfg, s, [a, b], false) == s4 && GrowLoop(cfg, s, [a, b], true) == s2;
  }

  lemma FirstTurn(cfg: Config, a: Request, b: Request)
    requires cfg.blockSize > 0 && a.id == 1 && b.id == 2 && Need(cfg, a) == 2
    ensures forall intended: bool ::
              GrowOne(cfg, Sched([], [a, b], map[1 := 1, 2 := 1], 0), a, intended) == Sched([b], [a], map[1 := 2], 0)
  {
    var s := Sched([], [a, b], map[1 := 1, 2 := 1], 0);
    var s1 := Sched([b], [a], map[1 := 1], 1);
    assert [a, b][1..] == [b] && [b][1..] == [];
    RemoveOne(b, 2);
    RemoveOne(b, 1);
    assert Remove([a, b], 1) == Remove([b], 1);
    assert Remove([a, b], 2) == [a] + Remove([b], 2);
    assert [a] + [] == [a];
    assert Sorted(Weaker, [b]) == [b];
    assert map[1 := 1, 2 := 1] - {2} == map[1 := 1];
    assert Preempt(s, b) == s1;
    assert PreemptLoop(s1, [b][1..], 1, 1) == (s1, 1);
    assert PreemptLoop(s, [b], 1, 0) == (s1, 1);
    assert map[1 := 1][1 := 2] == map[1 := 2];
    assert a in s.running;
  }

  lemma SecondTurn(cfg: Config, a: Request, b: Request)
    requires cfg.blockSize > 0 && a.id == 1 && b.id == 2 && Need(cfg, b) == 2
    ensures GrowOne(cfg, Sched([b], [a], map[1 := 2], 0), b, false) == Sched([a, b], [], map[2 := 2], 0)
    ensures GrowOne(cfg, Sched([b], [a], map[1 := 2], 0), b, true) == Sched([b], [a], map[1 := 2], 0)
  {
    var s2 := Sched([b], [a], map[1 := 2], 0);
    var s3 := Sched([a, b], [], map[], 2);
    assert [a][1..] == [];
    RemoveOne(a, 1);
    RemoveOne(a, 2);
    assert Sorted(Weaker, [a]) == [a];
    assert map[1 := 2] - {1} == map[];
    assert Preempt(s2, a) == s3;
    assert PreemptLoop(s3, [a][1..], 2, 2) == (s3, 2);
    assert PreemptLoop(s2, [a], 2, 0) == (s3, 2);
    assert !HasId(s2.running, 2);
  }
}
