// Conditions on the state before a schedule, in terms of the blocks the requests lack, for what
// admission and growth then do.
module SchedulingConditions {
  import opened Outcomes
  import opened Scheduling
  import opened SchedulingProofs

  // The blocks a request lacks for its next token.
  function Lack(cfg: Config, s: Sched, r: Request): nat
    requires cfg.blockSize > 0
  {
    var missing := Need(cfg, r) - Owned(s, r.id);
    if missing < 0 then 0 else missing
  }

  // What the first `room` requests of a queue lack together.
  function Lacks(cfg: Config, s: Sched, queue: seq<Request>, room: int): nat
    requires cfg.blockSize > 0
    decreases |queue|
  {
    if |queue| == 0 || room <= 0 then 0 else Lack(cfg, s, queue[0]) + Lacks(cfg, s, queue[1..], room - 1)
  }

  // What the requests lack that admission will have room for.
  function Wanted(cfg: Config, s: Sched): nat
    requires cfg.blockSize > 0
  {
    Lacks(cfg, s, Sorted(Before, s.waiting), cfg.maxBatchSize - |s.running|)
  }

  // Owning differently only outside the queue changes nothing.
  lemma {:induction false} LacksSame(cfg: Config, s: Sched, t: Sched, queue: seq<Request>, room: int)
    requires cfg.blockSize > 0 && forall r :: r in queue ==> Owned(s, r.id) == Owned(t, r.id)
    ensures Lacks(cfg, s, queue, room) == Lacks(cfg, t, queue, room)
    decreases |queue|
  {
    if |queue| == 0 {
    } else {
      hide Need;
      assert queue == [queue[0]] + queue[1..];
      LacksSame(cfg, s, t, queue[1..], room - 1);
    }
  }

  lemma {:induction false} LacksAppend(cfg: Config, s: Sched, a: seq<Request>, b: seq<Request>)
    requires cfg.blockSize > 0
    ensures Lacks(cfg, s, a + b, |a + b|) == Lacks(cfg, s, a, |a|) + Lacks(cfg, s, b, |b|)
  {
    if |a| == 0 {
      assert a + b == b;
    } else {
      LacksAppend(cfg, s, a[1..], b);
      assert (a + b)[1..] == a[1..] + b;
    }
  }

  lemma {:induction false} ProvidedLackNothing(cfg: Config, s: Sched, queue: seq<Request>, room: int)
    requires cfg.blockSize > 0 && forall r :: r in queue ==> Owned(s, r.id) >= Need(cfg, r)
    ensures Lacks(cfg, s, queue, room) == 0
    decreases |queue|
  {
    if |queue| == 0 {
    } else {
      hide Need;
      assert queue == [queue[0]] + queue[1..];
      ProvidedLackNothing(cfg, s, queue[1..], room - 1);
    }
  }

  lemma TakeOthersSame(s: Sched, r: Request, n: nat, queue: seq<Request>)
    requires n <= s.free && Count([r] + queue, r.id) <= 1
    ensures forall x :: x in queue ==> x.id != r.id && Owned(TakeBlocks(s, r.id, n), x.id) == Owned(s, x.id)
  {
    assert ([r] + queue)[1..] == queue;
    CountMember(queue, r.id);
  }

  // ----- preemption only lengthens the waiting queue -----

  lemma {:induction false} PreemptLoopGrows(s: Sched, candidates: seq<Request>, target: int, freed: nat)
    ensures |PreemptLoop(s, candidates, target, freed).0.waiting| >= |s.waiting|
    ensures |candidates| > 0 && freed < target ==> |PreemptLoop(s, candidates, target, freed).0.waiting| > |s.waiting|
    decreases |candidates|
  {
    if |candidates| == 0 || freed >= target {
    } else {
      PreemptLoopGrows(Preempt(s, candidates[0]), candidates[1..], target, freed + Owned(s, candidates[0].id));
    }
  }

  lemma PreemptToFreeGrows(s: Sched, target: int, exclude: Option<int>)
    ensures |PreemptToFree(s, target, exclude).0.waiting| >= |s.waiting|
    ensures exclude == None && |s.running| > 0 && target > 0 ==>
            |PreemptToFree(s, target, exclude).0.waiting| > |s.waiting|
    ensures exclude == None && |s.running| == 0 ==> PreemptToFree(s, target, exclude) == (s, 0)
  {
    var others := if exclude.Some? then Remove(s.running, exclude.value) else s.running;
    SortedFacts(Weaker, others, 0);
    PreemptLoopGrows(s, Sorted(Weaker, others), target, 0);
  }

  lemma AdmitOneGrows(cfg: Config, a: Admission, r: Request)
    requires cfg.blockSize > 0
    ensures |AdmitOne(cfg, a, r).s.waiting| >= |a.s.waiting|
  {
    hide Need, PreemptToFree;
    var missing := Need(cfg, r) - Owned(a.s, r.id);
    PreemptToFreeGrows(a.s, if missing < 0 then 0 else missing, None);
  }

  lemma {:induction false} AdmitLoopGrows(cfg: Config, a: Admission, queue: seq<Request>)
    requires cfg.blockSize > 0
    ensures |AdmitLoop(cfg, a, queue).s.waiting| >= |a.s.waiting|
    decreases |queue|
  {
    if |queue| == 0 {
    } else {
      hide AdmitOne;
      AdmitOneGrows(cfg, a, queue[0]);
      AdmitLoopGrows(cfg, AdmitOne(cfg, a, queue[0]), queue[1..]);
    }
  }

  // ----- admission -----

  function Room(cfg: Config, a: Admission): int {
    cfg.maxBatchSize - |a.s.running| - |a.admitted|
  }

  // How many of a queue there is room for.
  function Admissible(cfg: Config, a: Admission, queue: seq<Request>): (k: nat)
    ensures k <= |queue|
  {
    if Room(cfg, a) < 0 then 0 else if Room(cfg, a) < |queue| then Room(cfg, a) else |queue|
  }

  lemma {:induction false} AdmitFull(cfg: Config, a: Admission, queue: seq<Request>)
    requires cfg.blockSize > 0 && !a.raised && Room(cfg, a) <= 0
    ensures AdmitLoop(cfg, a, queue) == a.(still := a.still + queue)
    decreases |queue|
  {
    if |queue| == 0 {
      assert a.still + [] == a.still;
    } else {
      AdmitFull(cfg, AdmitOne(cfg, a, queue[0]), queue[1..]);
      assert a.still + [queue[0]] + queue[1..] == a.still + queue;
    }
  }

  lemma AdmitOneRoomy(cfg: Config, a: Admission, r: Request)
    requires cfg.blockSize > 0 && !a.raised && Room(cfg, a) > 0 && Lack(cfg, a.s, r) <= a.s.free
    ensures AdmitOne(cfg, a, r) == a.(s := TakeBlocks(a.s, r.id, Lack(cfg, a.s, r)), admitted := a.admitted + [r])
  {
  }

  lemma AdmitOneTight(cfg: Config, a: Admission, r: Request)
    requires cfg.blockSize > 0 && !a.raised && Room(cfg, a) > 0 && Lack(cfg, a.s, r) > a.s.free && |a.s.running| > 0
    ensures |AdmitOne(cfg, a, r).s.waiting| > |a.s.waiting|
  {
    hide Need, PreemptToFree;
    PreemptToFreeGrows(a.s, Lack(cfg, a.s, r), None);
  }

  // As long as the free blocks suffice, admission takes them and disturbs nobody.
  lemma {:induction false} AdmitLoopRoomy(cfg: Config, a: Admission, queue: seq<Request>)
    requires cfg.blockSize > 0 && !a.raised && forall id :: Count(queue, id) <= 1
    requires Lacks(cfg, a.s, queue, Room(cfg, a)) <= a.s.free
    ensures var b := AdmitLoop(cfg, a, queue);
            && b.s.waiting == a.s.waiting && b.s.running == a.s.running && !b.raised
            && b.s.free == a.s.free - Lacks(cfg, a.s, queue, Room(cfg, a))
            && forall id :: Count(queue, id) == 0 ==> Owned(b.s, id) == Owned(a.s, id)
    decreases |queue|
  {
    if |queue| == 0 {
    } else if Room(cfg, a) <= 0 {
      AdmitFull(cfg, a, queue);
    } else {
      var r, rest := queue[0], queue[1..];
      assert queue == [r] + rest;
      assert Count(queue, r.id) <= 1;
      AdmitOneRoomy(cfg, a, r);
      var b := AdmitOne(cfg, a, r);
      TakeOthersSame(a.s, r, Lack(cfg, a.s, r), rest);
      LacksSame(cfg, a.s, b.s, rest, Room(cfg, b));
      forall id ensures Count(rest, id) <= 1 {
        assert Count(queue, id) <= 1;
      }
      hide Lack, AdmitOne;
      AdmitLoopRoomy(cfg, b, rest);
    }
  }

  lemma RoomyNext(cfg: Config, a: Admission, queue: seq<Request>)
    requires cfg.blockSize > 0 && !a.raised && |queue| > 0 && Room(cfg, a) > 0
    requires (forall id :: Count(queue, id) <= 1) && Lacks(cfg, a.s, queue, Room(cfg, a)) <= a.s.free
    ensures forall id :: Count(queue[1..], id) <= 1
    ensures var b := AdmitOne(cfg, a, queue[0]);
            && !b.raised && b.admitted == a.admitted + [queue[0]] && b.still == a.still
            && Room(cfg, b) == Room(cfg, a) - 1 && Lacks(cfg, b.s, queue[1..], Room(cfg, b)) <= b.s.free
  {
    var r, rest := queue[0], queue[1..];
    TailCounts(queue);
    assert Lack(cfg, a.s, r) <= a.s.free;
    hide Need;
    AdmitOneRoomy(cfg, a, r);
    hide AdmitOne, Count;
    var b := AdmitOne(cfg, a, r);
    TakeOthersSame(a.s, r, Lack(cfg, a.s, r), rest);
    LacksSame(cfg, a.s, b.s, rest, Room(cfg, b));
  }

  lemma TailCounts(queue: seq<Request>)
    requires |queue| > 0 && forall id :: Count(queue, id) <= 1
    ensures forall id :: Count(queue[1..], id) <= 1
    ensures Count(queue[1..], queue[0].id) == 0
  {
    assert Count(queue, queue[0].id) <= 1;
    forall id ensures Count(queue[1..], id) <= 1 {
      assert Count(queue, id) <= 1;
    }
  }

  // It admits the first ones, in order, and leaves the others.
  lemma {:induction false} AdmitLoopOrder(cfg: Config, a: Admission, queue: seq<Request>)
    requires cfg.blockSize > 0 && !a.raised && forall id :: Count(queue, id) <= 1
    requires Lacks(cfg, a.s, queue, Room(cfg, a)) <= a.s.free
    ensures var k, b := Admissible(cfg, a, queue), AdmitLoop(cfg, a, queue);
            b.admitted == a.admitted + queue[..k] && b.still == a.still + queue[k..]
    decreases |queue|
  {
    hide Lacks, Count, AdmitOne, Room;
    if |queue| == 0 {
    } else if Room(cfg, a) <= 0 {
      AdmitFull(cfg, a, queue);
    } else {
      RoomyNext(cfg, a, queue);
      var b, rest := AdmitOne(cfg, a, queue[0]), queue[1..];
      AdmitLoopOrder(cfg, b, rest);
      var k := Admissible(cfg, b, rest);
      assert a.admitted + [queue[0]] + rest[..k] == a.admitted + queue[..k + 1] && rest[k..] == queue[k + 1..];
    }
  }

  // If they do not suffice, somebody who runs is preempted.
  lemma {:induction false} AdmitLoopTight(cfg: Config, a: Admission, queue: seq<Request>)
    requires cfg.blockSize > 0 && !a.raised && |a.s.running| > 0 && forall id :: Count(queue, id) <= 1
    requires Lacks(cfg, a.s, queue, Room(cfg, a)) > a.s.free
    ensures |AdmitLoop(cfg, a, queue).s.waiting| > |a.s.waiting|
    decreases |queue|
  {
    var r, rest := queue[0], queue[1..];
    if Lack(cfg, a.s, r) > a.s.free {
      AdmitOneTight(cfg, a, r);
      AdmitLoopGrows(cfg, AdmitOne(cfg, a, r), rest);
    } else {
      assert queue == [r] + rest;
      assert Count(queue, r.id) <= 1;
      AdmitOneRoomy(cfg, a, r);
      var b := AdmitOne(cfg, a, r);
      TakeOthersSame(a.s, r, Lack(cfg, a.s, r), rest);
      LacksSame(cfg, a.s, b.s, rest, Room(cfg, b));
      forall id ensures Count(rest, id) <= 1 {
        assert Count(queue, id) <= 1;
      }
      hide Lack, AdmitOne;
      AdmitLoopTight(cfg, b, rest);
    }
  }

  lemma {:induction false} AdmitLoopIdle(cfg: Config, a: Admission, queue: seq<Request>)
    requires cfg.blockSize > 0 && |a.s.running| == 0
    ensures AdmitLoop(cfg, a, queue).s.waiting == a.s.waiting && |AdmitLoop(cfg, a, queue).s.running| == 0
    decreases |queue|
  {
    if |queue| == 0 {
    } else {
      var missing := Need(cfg, queue[0]) - Owned(a.s, queue[0].id);
      PreemptToFreeGrows(a.s, if missing < 0 then 0 else missing, None);
      hide Need, PreemptToFree;
      AdmitLoopIdle(cfg, AdmitOne(cfg, a, queue[0]), queue[1..]);
    }
  }

  lemma SortedDistinct(s: Sched)
    requires DistinctIds(s)
    ensures forall id :: Count(Sorted(Before, s.waiting), id) <= 1
  {
    forall id ensures Count(Sorted(Before, s.waiting), id) <= 1 {
      SortedFacts(Before, s.waiting, id);
      assert Count(s.waiting, id) + Count(s.running, id) <= 1;
    }
  }

  // Admission preempts somebody if and only if somebody runs and the requests there is room for lack
  // more blocks than are free.
  lemma AdmissionPreemptsIff(cfg: Config, s: Sched)
    requires cfg.blockSize > 0 && DistinctIds(s)
    ensures Victims(s, Admit(cfg, s)) == [] <==> s.running == [] || Wanted(cfg, s) <= s.free
    ensures Victims(s, Admit(cfg, s)) == [] ==> Admit(cfg, s).s.waiting == s.waiting
  {
    var start, queue := Admission(s, [], [], false), Sorted(Before, s.waiting);
    SortedDistinct(s);
    AdmitLoopGrows(cfg, start, queue);
    if s.running == [] {
      AdmitLoopIdle(cfg, start, queue);
    } else if Wanted(cfg, s) <= s.free {
      AdmitLoopRoomy(cfg, start, queue);
    } else {
      AdmitLoopTight(cfg, start, queue);
    }
  }

  // Exactly when the admission of the code keeps every request.
  lemma AdmissionLosesIff(cfg: Config, s: Sched)
    requires cfg.blockSize > 0 && DistinctIds(s) && |s.running| <= cfg.maxBatchSize
    ensures var s' := AfterAdmission(cfg, s, false);
            (forall id :: Count(s'.waiting, id) + Count(s'.running, id) == Count(s.waiting, id) + Count(s.running, id))
            <==> s.running == [] || Wanted(cfg, s) <= s.free
  {
    AdmissionKeepsIff(cfg, s);
    AdmissionPreemptsIff(cfg, s);
  }

  // ----- what admission leaves to growth -----

  lemma AdmitOneProvided(cfg: Config, a: Admission, r: Request)
    requires cfg.blockSize > 0 && !a.raised && !AdmitOne(cfg, a, r).raised
    requires forall x :: x in a.admitted ==>
             x.id != r.id && Count(a.s.running, x.id) == 0 && Owned(a.s, x.id) >= Need(cfg, x)
    ensures forall x :: x in AdmitOne(cfg, a, r).admitted ==> Owned(AdmitOne(cfg, a, r).s, x.id) >= Need(cfg, x)
  {
    var b := AdmitOne(cfg, a, r);
    var missing := Need(cfg, r) - Owned(a.s, r.id);
    forall x | x in b.admitted ensures Owned(b.s, x.id) >= Need(cfg, x) {
      if x in a.admitted {
        PreemptToFreeSpares(a.s, if missing < 0 then 0 else missing, x.id);
      }
      hide Need, PreemptToFree, Count;
    }
  }

  ghost predicate Apart(a: Admission, queue: seq<Request>) {
    forall id :: Count(a.admitted, id) + Count(queue, id) + Count(a.s.running, id) <= 1
  }

  lemma {:induction false} AdmitLoopProvided(cfg: Config, a: Admission, queue: seq<Request>)
    requires cfg.blockSize > 0 && !a.raised && Apart(a, queue)
    requires forall x :: x in a.admitted ==> Owned(a.s, x.id) >= Need(cfg, x)
    ensures forall x :: x in AdmitLoop(cfg, a, queue).admitted ==>
            Owned(AdmitLoop(cfg, a, queue).s, x.id) >= Need(cfg, x)
    decreases |queue|
  {
    if |queue| == 0 {
    } else {
      var r, rest := queue[0], queue[1..];
      var b := AdmitOne(cfg, a, r);
      assert Count(a.admitted, r.id) + Count(queue, r.id) + Count(a.s.running, r.id) <= 1;
      AdmitOneFits(cfg, a, r);
      forall x | x in a.admitted ensures x.id != r.id && Count(a.s.running, x.id) == 0 {
        CountMember(a.admitted, x.id);
        assert Count(a.admitted, x.id) + Count(queue, x.id) + Count(a.s.running, x.id) <= 1;
      }
      AdmitOneProvided(cfg, a, r);
      forall id ensures Count(b.admitted, id) + Count(rest, id) + Count(b.s.running, id) <= 1 {
        AdmitOneRuns(cfg, a, r, id);
        CountAppend(a.admitted, [r], id);
        CountOne(r, id);
        assert Count(a.admitted, id) + Count(queue, id) + Count(a.s.running, id) <= 1;
      }
      hide AdmitOne, Need, Count;
      AdmitLoopProvided(cfg, b, rest);
    }
  }

  lemma AdmittedProvided(cfg: Config, s: Sched)
    requires cfg.blockSize > 0 && DistinctIds(s)
    ensures forall x :: x in Admit(cfg, s).admitted ==> Owned(Admit(cfg, s).s, x.id) >= Need(cfg, x)
  {
    var start, queue := Admission(s, [], [], false), Sorted(Before, s.waiting);
    forall id ensures Count(start.admitted, id) + Count(queue, id) + Count(start.s.running, id) <= 1 {
      SortedFacts(Before, s.waiting, id);
      assert Count(s.waiting, id) + Count(s.running, id) <= 1;
    }
    AdmitLoopProvided(cfg, start, queue);
  }

  // ----- growth -----

  ghost predicate AllRun(s: Sched, todo: seq<Request>) {
    && (forall id :: Count(todo, id) <= 1)
    && forall r :: r in todo ==> Count(s.running, r.id) > 0
  }

  lemma AllRunNext(s: Sched, t: Sched, todo: seq<Request>)
    requires |todo| > 0 && AllRun(s, todo) && t.running == s.running
    ensures AllRun(t, todo[1..]) && Count(todo, todo[0].id) == 1
  {
    assert todo == [todo[0]] + todo[1..];
    forall id ensures Count(todo[1..], id) <= 1 {
      assert Count(todo, id) <= 1;
    }
    assert Count(todo, todo[0].id) <= 1;
  }

  lemma GrowOneRoomy(cfg: Config, s: Sched, r: Request, intended: bool)
    requires cfg.blockSize > 0 && Lack(cfg, s, r) <= s.free && Count(s.running, r.id) > 0
    ensures GrowOne(cfg, s, r, intended) == TakeBlocks(s, r.id, Lack(cfg, s, r))
  {
    CountMember(s.running, r.id);
  }

  // Blocks enough for r: they are taken, and nothing else changes for those still to be visited.
  lemma RoomyStep(cfg: Config, s: Sched, todo: seq<Request>)
    requires cfg.blockSize > 0 && |todo| > 0 && AllRun(s, todo) && Lack(cfg, s, todo[0]) <= s.free
    ensures var t := GrowOne(cfg, s, todo[0], false);
            && t.running == s.running && t.waiting == s.waiting && t.free == s.free - Lack(cfg, s, todo[0])
            && HasId(s.running, todo[0].id)
            && AllRun(t, todo[1..])
            && forall x :: x in todo[1..] ==> Owned(s, x.id) == Owned(t, x.id)
  {
    var r, t := todo[0], GrowOne(cfg, s, todo[0], false);
    assert todo == [r] + todo[1..];
    CountMember(s.running, r.id);
    GrowOneRoomy(cfg, s, r, false);
    hide GrowOne, Lack;
    AllRunNext(s, t, todo);
    TakeOthersSame(s, r, Lack(cfg, s, r), todo[1..]);
  }

  lemma GrowOneGrows(cfg: Config, s: Sched, r: Request)
    requires cfg.blockSize > 0
    ensures |GrowOne(cfg, s, r, false).waiting| >= |s.waiting|
    ensures Lack(cfg, s, r) > s.free ==> |GrowOne(cfg, s, r, false).waiting| > |s.waiting|
  {
    hide Need, PreemptToFree;
    var missing := Need(cfg, r) - Owned(s, r.id);
    if missing > s.free {
      PreemptToFreeGrows(s, missing, Some(r.id));
      FreedFromSomebody(s, missing, r.id);
    }
  }

  lemma FreedFromSomebody(s: Sched, target: int, exclude: int)
    requires target > 0
    ensures PreemptToFree(s, target, Some(exclude)).1 >= target ==>
              |PreemptToFree(s, target, Some(exclude)).0.waiting| > |s.waiting|
  {
    var candidates := Sorted(Weaker, Remove(s.running, exclude));
    PreemptLoopGrows(s, candidates, target, 0);
  }

  lemma {:induction false} GrowLoopGrows(cfg: Config, s: Sched, todo: seq<Request>)
    requires cfg.blockSize > 0
    ensures |GrowLoop(cfg, s, todo, false).waiting| >= |s.waiting|
    decreases |todo|
  {
    if |todo| == 0 {
    } else {
      GrowOneGrows(cfg, s, todo[0]);
      hide GrowOne, Lack;
      GrowLoopGrows(cfg, GrowOne(cfg, s, todo[0], false), todo[1..]);
    }
  }

  // Enough free blocks for all: nobody is preempted, so nobody is visited after having been.
  lemma {:induction false} GrowLoopRoomy(cfg: Config, s: Sched, todo: seq<Request>)
    requires cfg.blockSize > 0 && AllRun(s, todo) && Lacks(cfg, s, todo, |todo|) <= s.free
    ensures NoStaleVisit(cfg, s, todo)
    ensures GrowLoop(cfg, s, todo, false).waiting == s.waiting
    decreases |todo|
  {
    if |todo| == 0 {
    } else {
      var rest := todo[1..];
      var t := GrowOne(cfg, s, todo[0], false);
      hide GrowOne, Lack, AllRun, Owned;
      RoomyStep(cfg, s, todo);
      LacksSame(cfg, s, t, rest, |rest|);
      GrowLoopRoomy(cfg, t, rest);
    }
  }

  // Too few: somebody is preempted.
  lemma {:induction false} GrowLoopTight(cfg: Config, s: Sched, todo: seq<Request>)
    requires cfg.blockSize > 0 && AllRun(s, todo) && Lacks(cfg, s, todo, |todo|) > s.free
    ensures |GrowLoop(cfg, s, todo, false).waiting| > |s.waiting|
    decreases |todo|
  {
    var r, rest := todo[0], todo[1..];
    var t := GrowOne(cfg, s, r, false);
    if Lack(cfg, s, r) > s.free {
      GrowOneGrows(cfg, s, r);
      GrowLoopGrows(cfg, t, rest);
    } else {
      hide GrowOne, Lack, AllRun, Owned;
      RoomyStep(cfg, s, todo);
      LacksSame(cfg, s, t, rest, |rest|);
      GrowLoopTight(cfg, t, rest);
    }
  }

  // ----- a whole schedule -----

  // The free blocks cover what the running requests lack and what those lack that there is room for.
  predicate Roomy(cfg: Config, s: Sched)
    requires cfg.blockSize > 0
  {
    s.running == [] || Wanted(cfg, s) + Lacks(cfg, s, s.running, |s.running|) <= s.free
  }

  ghost predicate PreemptsNobody(cfg: Config, s: Sched)
    requires cfg.blockSize > 0
  {
    Victims(s, Admit(cfg, s)) == [] && Schedule(cfg, s, false).waiting == AfterAdmission(cfg, s, false).waiting
  }

  // What is lacking once admission is through without preempting anybody.
  lemma LackingAfterAdmission(cfg: Config, s: Sched)
    requires ValidConfig(cfg) && DistinctIds(s) && |s.running| <= cfg.maxBatchSize
    requires s.running == [] || Wanted(cfg, s) <= s.free
    ensures var s1 := AfterAdmission(cfg, s, false);
            && AllRun(s1, s1.running)
            && Lacks(cfg, s1, s1.running, |s1.running|) == Lacks(cfg, s, s.running, |s.running|)
            && (s.running != [] ==> s1.free == s.free - Wanted(cfg, s))
  {
    var start, queue := Admission(s, [], [], false), Sorted(Before, s.waiting);
    var a, s1 := Admit(cfg, s), AfterAdmission(cfg, s, false);
    AdmissionMoves(cfg, s);
    AdmissionDistinct(cfg, s, false);
    forall r | r in s1.running ensures Count(s1.running, r.id) > 0 {
      CountMember(s1.running, r.id);
    }
    AdmittedProvided(cfg, s);
    LacksAppend(cfg, s1, a.s.running, a.admitted);
    ProvidedLackNothing(cfg, s1, a.admitted, |a.admitted|);
    if s.running == [] {
      AdmitLoopIdle(cfg, start, queue);
    } else {
      SortedDistinct(s);
      AdmitLoopRoomy(cfg, start, queue);
      forall r | r in s.running ensures Owned(s, r.id) == Owned(s1, r.id) {
        CountMember(s.running, r.id);
        SortedFacts(Before, s.waiting, r.id);
        assert Count(s.waiting, r.id) + Count(s.running, r.id) <= 1;
      }
      LacksSame(cfg, s, s1, s.running, |s.running|);
    }
  }

  // A schedule of the code preempts nobody if and only if there is room.
  lemma PreemptsNobodyIff(cfg: Config, s: Sched)
    requires ValidConfig(cfg) && DistinctIds(s) && |s.running| <= cfg.maxBatchSize
    ensures PreemptsNobody(cfg, s) <==> Roomy(cfg, s)
    ensures Roomy(cfg, s) ==> NoStaleVisit(cfg, AfterAdmission(cfg, s, false), AfterAdmission(cfg, s, false).running)
  {
    AdmissionPreemptsIff(cfg, s);
    if s.running == [] || Wanted(cfg, s) <= s.free {
      var s1 := AfterAdmission(cfg, s, false);
      LackingAfterAdmission(cfg, s);
      hide Lacks, AllRun, AfterAdmission, Admit;
      if Lacks(cfg, s1, s1.running, |s1.running|) <= s1.free {
        GrowLoopRoomy(cfg, s1, s1.running);
      } else {
        GrowLoopTight(cfg, s1, s1.running);
      }
    }
  }

  // With room, schedule does what is intended; without room for the admissions alone, and somebody
  // running, it does not.
  lemma AsIntendedWithRoom(cfg: Config, s: Sched)
    requires ValidConfig(cfg) && DistinctIds(s) && OwnersRun(s) && |s.running| <= cfg.maxBatchSize
    ensures Roomy(cfg, s) ==> Schedule(cfg, s, false) == Schedule(cfg, s, true)
    ensures Schedule(cfg, s, false) == Schedule(cfg, s, true) ==> s.running == [] || Wanted(cfg, s) <= s.free
  {
    PreemptsNobodyIff(cfg, s);
    AdmissionPreemptsIff(cfg, s);
    ScheduleAsIntendedIff(cfg, s);
    hide Schedule, AfterAdmission, Admit, NoStaleVisit, Victims, Wanted, Lacks;
  }

  // ----- when growth goes wrong -----

  // Somebody still to be visited who does not run will be visited stale.
  lemma {:induction false} StaleAhead(cfg: Config, s: Sched, todo: seq<Request>, w: Request)
    requires cfg.blockSize > 0 && w in todo && Count(s.running, w.id) == 0
    ensures !NoStaleVisit(cfg, s, todo)
    decreases |todo|
  {
    CountMember(s.running, w.id);
    if todo[0].id == w.id {
      assert !HasId(s.running, todo[0].id);
    } else {
      assert todo == [todo[0]] + todo[1..];
      GrowOneCount(cfg, s, todo[0], false, w.id);
      hide GrowOne;
      StaleAhead(cfg, GrowOne(cfg, s, todo[0], false), todo[1..], w);
    }
  }

  // w is the first to be preempted for r: everybody else who runs is spared before it.
  ghost predicate WeakestBeside(s: Sched, r: Request, w: Request) {
    && w in s.running && w.id != r.id
    && forall x :: x in s.running && x.id != r.id && x != w ==> !Weaker(x, w)
  }

  lemma WeakestGoes(cfg: Config, s: Sched, r: Request, w: Request)
    requires cfg.blockSize > 0 && Lack(cfg, s, r) > s.free && WeakestBeside(s, r, w)
    ensures Count(GrowOne(cfg, s, r, false).running, w.id) == 0
  {
    var others := Remove(s.running, r.id);
    var candidates := Sorted(Weaker, others);
    var missing := Need(cfg, r) - Owned(s, r.id);
    RemoveFacts(s.running, r.id, 0);
    SortedFacts(Weaker, others, 0);
    assert w in others && |candidates| > 0;
    FirstIsLeast(candidates, w);
    assert candidates[0] == w;
    PreemptFacts(s, w, w.id);
    PreemptLoopCount(Preempt(s, w), candidates[1..], missing, Owned(s, w.id), w.id);
    var t := PreemptToFree(s, missing, Some(r.id)).0;
    assert Count(t.running, w.id) == 0;
    hide Remove, Sorted, PreemptLoop, PreemptToFree;
    PreemptFacts(t, r, w.id);
  }

  lemma FirstIsLeast(candidates: seq<Request>, w: Request)
    requires w in candidates && exists xs :: candidates == Sorted(Weaker, xs)
    ensures candidates[0] == w || Weaker(candidates[0], w)
  {
    var xs :| candidates == Sorted(Weaker, xs);
    SortedInOrder(Weaker, xs);
    WeakerTransitive();
    hide Sorted, Transitive, InOrder;
    var k: nat :| k < |candidates| && candidates[k] == w;
    if k > 0 {
      OrderedPair(Weaker, candidates, 0, k);
    }
  }

  lemma Regroup<T>(before: seq<T>, r: T, later: seq<T>, more: seq<T>, w: T)
    requires w in later
    ensures before + [r] + later + more == before + [r] + (later + more)
    ensures forall x :: x in before || x == r ==> x in before + [r] + later
    ensures w in before + [r] + later && w in later + more
  {
  }

  lemma LackingSame(cfg: Config, s: Sched, s1: Sched, before: seq<Request>, r: Request)
    requires cfg.blockSize > 0 && forall x :: x in before || x == r ==> Owned(s1, x.id) == Owned(s, x.id)
    ensures Lacks(cfg, s1, before, |before|) == Lacks(cfg, s, before, |before|) && Lack(cfg, s1, r) == Lack(cfg, s, r)
  {
    LacksSame(cfg, s, s1, before, |before|);
  }

  // If the blocks run out at r, and the weakest of the others is yet to be visited, growth departs
  // from what is intended.
  lemma {:induction false} StaleWhenWeakestIsLater(cfg: Config, s: Sched, before: seq<Request>, r: Request,
                                                   later: seq<Request>, w: Request)
    requires cfg.blockSize > 0 && AllRun(s, before + [r] + later) && WeakestBeside(s, r, w) && w in later
    requires Lacks(cfg, s, before, |before|) <= s.free
    requires Lacks(cfg, s, before, |before|) + Lack(cfg, s, r) > s.free
    ensures !NoStaleVisit(cfg, s, before + [r] + later)
    decreases |before|
  {
    var todo := before + [r] + later;
    if |before| == 0 {
      assert todo[0] == r && todo[1..] == later;
      WeakestGoes(cfg, s, r, w);
      hide GrowOne;
      StaleAhead(cfg, GrowOne(cfg, s, r, false), later, w);
    } else {
      var x, rest := before[0], before[1..];
      var t := GrowOne(cfg, s, x, false);
      hide GrowOne, AllRun, Lack, Owned;
      assert todo[0] == x && todo[1..] == rest + [r] + later;
      RoomyStep(cfg, s, todo);
      Regroup(rest, r, later, [], w);
      LackingSame(cfg, s, t, rest, r);
      StaleWhenWeakestIsLater(cfg, t, rest, r, later, w);
    }
  }

  lemma {:induction false} AdmittedWereQueued(cfg: Config, a: Admission, queue: seq<Request>)
    requires cfg.blockSize > 0
    ensures forall x :: x in AdmitLoop(cfg, a, queue).admitted ==> x in a.admitted || x in queue
    decreases |queue|
  {
    if |queue| == 0 {
    } else {
      var b := AdmitOne(cfg, a, queue[0]);
      assert b.admitted == a.admitted || b.admitted == a.admitted + [queue[0]];
      assert queue == [queue[0]] + queue[1..];
      hide AdmitOne;
      AdmittedWereQueued(cfg, b, queue[1..]);
    }
  }

  lemma AdmissionWithRoom(cfg: Config, s: Sched)
    requires ValidConfig(cfg) && DistinctIds(s) && |s.running| <= cfg.maxBatchSize && Wanted(cfg, s) <= s.free
    requires s.running != []
    ensures var a, s1 := Admit(cfg, s), AfterAdmission(cfg, s, false);
            && s1.running == s.running + a.admitted && s1.free == s.free - Wanted(cfg, s)
            && (forall x :: x in a.admitted ==> x in s.waiting)
            && (forall x :: x in s.running ==> Owned(s1, x.id) == Owned(s, x.id))
  {
    var start, queue := Admission(s, [], [], false), Sorted(Before, s.waiting);
    AdmissionMoves(cfg, s);
    SortedDistinct(s);
    AdmitLoopRoomy(cfg, start, queue);
    AdmittedWereQueued(cfg, start, queue);
    SortedFacts(Before, s.waiting, 0);
    forall r | r in s.running ensures Count(queue, r.id) == 0 {
      CountMember(s.running, r.id);
      SortedFacts(Before, s.waiting, r.id);
      assert Count(s.waiting, r.id) + Count(s.running, r.id) <= 1;
    }
  }

  // If the free blocks suffice for those there is room for, they are admitted: as many as the batch size
  // allows, who arrived no later than those that wait on, with at least their priority on a tie.
  lemma AdmissionIsEarliest(cfg: Config, s: Sched)
    requires ValidConfig(cfg) && DistinctIds(s) && |s.running| <= cfg.maxBatchSize && Wanted(cfg, s) <= s.free
    ensures var s1 := AfterAdmission(cfg, s, false);
            && !Admit(cfg, s).raised
            && |s1.running| == (if |s.running| + |s.waiting| < cfg.maxBatchSize then |s.running| + |s.waiting|
                 else cfg.maxBatchSize)
            && |s1.running| + |s1.waiting| == |s.running| + |s.waiting|
            && (forall r :: r in s.running ==> r in s1.running)
            && (forall r :: r in s.waiting ==> r in s1.running || r in s1.waiting)
            && (forall r, w :: r in s1.running && r !in s.running && w in s1.waiting ==>
                  r in s.waiting && (r.arrival < w.arrival || (r.arrival == w.arrival && r.priority >= w.priority)))
  {
    var queue, s1 := Sorted(Before, s.waiting), AfterAdmission(cfg, s, false);
    var k := Admissible(cfg, Admission(s, [], [], false), queue);
    AdmittedAreFirst(cfg, s);
    SortedFacts(Before, s.waiting, 0);
    SortedInOrder(Before, s.waiting);
    hide AfterAdmission, Admit, Sorted, Wanted, DistinctIds, InOrder;
    FirstAreEarliest(s.running, s.waiting, queue, k);
  }

  lemma AdmittedAreFirst(cfg: Config, s: Sched)
    requires ValidConfig(cfg) && DistinctIds(s) && |s.running| <= cfg.maxBatchSize && Wanted(cfg, s) <= s.free
    ensures var queue, s1 := Sorted(Before, s.waiting), AfterAdmission(cfg, s, false);
            var k := Admissible(cfg, Admission(s, [], [], false), queue);
            !Admit(cfg, s).raised && s1.running == s.running + queue[..k] && s1.waiting == queue[k..]
  {
    var start, queue := Admission(s, [], [], false), Sorted(Before, s.waiting);
    SortedDistinct(s);
    AdmitLoopRoomy(cfg, start, queue);
    AdmitLoopOrder(cfg, start, queue);
    var a, k := Admit(cfg, s), Admissible(cfg, start, queue);
    assert a.admitted == queue[..k] && a.still == queue[k..] && a.s.running == s.running && !a.raised;
    hide Admit, AdmitLoop, Lacks, Wanted, Need, Sorted;
    DistinctTogether(s, queue, k) by {
      forall id ensures Count(queue, id) == Count(s.waiting, id) {
        SortedFacts(Before, s.waiting, id);
      }
    }
    PutAllAppends(s.running, a.admitted);
  }

  lemma DistinctTogether(s: Sched, queue: seq<Request>, k: nat)
    requires DistinctIds(s) && k <= |queue| && forall id :: Count(queue, id) == Count(s.waiting, id)
    ensures forall id :: Count(s.running, id) + Count(queue[..k], id) <= 1
  {
    assert queue[..k] + queue[k..] == queue;
    forall id ensures Count(s.running, id) + Count(queue[..k], id) <= 1 {
      CountAppend(queue[..k], queue[k..], id);
      assert Count(s.waiting, id) + Count(s.running, id) <= 1;
    }
  }

  lemma FirstAreEarliest(running: seq<Request>, waiting: seq<Request>, queue: seq<Request>, k: nat)
    requires InOrder(Before, queue) && k <= |queue| && forall r :: r in queue <==> r in waiting
    ensures forall r :: r in running ==> r in running + queue[..k]
    ensures forall r :: r in waiting ==> r in running + queue[..k] || r in queue[k..]
    ensures forall r, w :: r in running + queue[..k] && r !in running && w in queue[k..] ==>
              r in waiting && (r.arrival < w.arrival || (r.arrival == w.arrival && r.priority >= w.priority))
  {
    BeforeTransitive();
    forall r, w | r in queue[..k] && w in queue[k..] ensures r in waiting && Before(r, w) {
      var i: nat :| i < k && queue[i] == r;
      var j: nat :| k <= j < |queue| && queue[j] == w;
      OrderedPair(Before, queue, i, j);
    }
    forall r | r in waiting ensures r in queue[..k] || r in queue[k..] {
      assert r in queue;
    }
  }

  lemma WeakestAfterAdmission(s: Sched, s1: Sched, admitted: seq<Request>, r: Request, w: Request)
    requires s1.running == s.running + admitted && (forall x :: x in admitted ==> x in s.waiting)
    requires w in s.running && w.id != r.id
    requires forall x :: (x in s.running || x in s.waiting) && x.id != r.id && x != w ==> !Weaker(x, w)
    ensures WeakestBeside(s1, r, w)
  {
  }

  lemma GrowthDeparts(cfg: Config, s: Sched, s1: Sched, admitted: seq<Request>,
                      before: seq<Request>, r: Request, later: seq<Request>, w: Request)
    requires cfg.blockSize > 0 && AllRun(s1, s1.running) && s.running == before + [r] + later
    requires s1.running == s.running + admitted && (forall x :: x in admitted ==> x in s.waiting)
    requires forall x :: x in s.running ==> Owned(s1, x.id) == Owned(s, x.id)
    requires w in later && w.id != r.id
    requires forall x :: (x in s.running || x in s.waiting) && x.id != r.id && x != w ==> !Weaker(x, w)
    requires Lacks(cfg, s, before, |before|) <= s1.free < Lacks(cfg, s, before, |before|) + Lack(cfg, s, r)
    ensures !NoStaleVisit(cfg, s1, s1.running)
  {
    hide AllRun, NoStaleVisit, Lack, Lacks, Weaker, Owned, WeakestBeside;
    var rest := later + admitted;
    Regroup(before, r, later, admitted, w);
    assert WeakestBeside(s1, r, w) by {
      WeakestAfterAdmission(s, s1, admitted, r, w);
    }
    assert && Lacks(cfg, s1, before, |before|) == Lacks(cfg, s, before, |before|)
           && Lack(cfg, s1, r) == Lack(cfg, s, r) by {
      LackingSame(cfg, s, s1, before, r);
    }
    StaleWhenWeakestIsLater(cfg, s1, before, r, rest, w);
  }

  // The same on the state before the schedule: the blocks last for the admissions and for the running
  // requests up to r, not for r, and the request nobody is weaker than runs after r.
  lemma DepartsWhenWeakestIsLater(cfg: Config, s: Sched, before: seq<Request>, r: Request, later: seq<Request>,
                                  w: Request)
    requires ValidConfig(cfg) && DistinctIds(s) && OwnersRun(s) && |s.running| <= cfg.maxBatchSize
    requires s.running == before + [r] + later && w in later && w.id != r.id
    requires forall x :: (x in s.running || x in s.waiting) && x.id != r.id && x != w ==> !Weaker(x, w)
    requires Wanted(cfg, s) + Lacks(cfg, s, before, |before|) <= s.free
    requires Wanted(cfg, s) + Lacks(cfg, s, before, |before|) + Lack(cfg, s, r) > s.free
    ensures Schedule(cfg, s, false) != Schedule(cfg, s, true)
  {
    var s1 := AfterAdmission(cfg, s, false);
    AdmissionWithRoom(cfg, s);
    LackingAfterAdmission(cfg, s);
    hide AfterAdmission, Admit, Schedule, Wanted, AllRun, OwnersRun, DistinctIds, NoStaleVisit, Lack, Lacks, Weaker,
        Owned, ValidConfig;
    GrowthDeparts(cfg, s, s1, Admit(cfg, s).admitted, before, r, later, w);
    ScheduleAsIntendedIff(cfg, s);
  }

  // ----- whole runs with room -----

  // Every schedule of the run of the code starts with room.
  ghost predicate RoomyRun(cfg: Config, numBlocks: nat, trace: seq<Op>)
    requires cfg.blockSize > 0
  {
    forall i :: 0 <= i < |trace| && trace[i].DoSchedule? ==> Roomy(cfg, RunAsWritten(cfg, numBlocks, trace[..i]).s)
  }

  lemma RoomyPrefix(cfg: Config, numBlocks: nat, trace: seq<Op>)
    requires cfg.blockSize > 0 && |trace| > 0 && RoomyRun(cfg, numBlocks, trace)
    ensures RoomyRun(cfg, numBlocks, trace[..|trace| - 1])
    ensures trace[|trace| - 1].DoSchedule? ==> Roomy(cfg, RunAsWritten(cfg, numBlocks, trace[..|trace| - 1]).s)
  {
    hide Roomy, RunAsWritten;
    forall i | 0 <= i < |trace| - 1 ensures trace[..|trace| - 1][..i] == trace[..i] {
    }
  }

  // Then it is the intended run, no schedule of it raises, and each request added is in one place.
  lemma {:induction false} RoomyRunAsIntended(cfg: Config, numBlocks: nat, trace: seq<Op>)
    requires ValidConfig(cfg) && (forall id :: Adds(trace, id) <= 1) && RoomyRun(cfg, numBlocks, trace)
    ensures RunAsWritten(cfg, numBlocks, trace) == Run(cfg, numBlocks, trace)
    ensures SystemInvariant(cfg, RunAsWritten(cfg, numBlocks, trace))
    ensures forall id :: Places(RunAsWritten(cfg, numBlocks, trace), id) == Adds(trace, id)
    ensures !Admit(cfg, RunAsWritten(cfg, numBlocks, trace).s).raised
  {
    RunConserves(cfg, numBlocks, trace);
    if |trace| == 0 {
    } else {
      var before, op := trace[..|trace| - 1], trace[|trace| - 1];
      forall id ensures Adds(before, id) <= 1 {
        assert Adds(trace, id) <= 1;
      }
      RoomyPrefix(cfg, numBlocks, trace);
      RoomyRunAsIntended(cfg, numBlocks, before);
      var y := Run(cfg, numBlocks, before);
      OnePlaceEach(cfg, numBlocks, before);
      hide Roomy, Schedule, Admit, Batch, StepLoop, Adds;
      if op.DoSchedule? {
        AsIntendedWithRoom(cfg, y.s);
      }
    }
    OnePlaceEach(cfg, numBlocks, trace);
    hide Admit;
    ScheduleNeverRaises(cfg, Run(cfg, numBlocks, trace).s);
  }

  lemma OnePlaceEach(cfg: Config, numBlocks: nat, trace: seq<Op>)
    requires ValidConfig(cfg) && forall id :: Adds(trace, id) <= 1
    ensures DistinctIds(Run(cfg, numBlocks, trace).s) && SystemInvariant(cfg, Run(cfg, numBlocks, trace))
  {
    RunConserves(cfg, numBlocks, trace);
    var y := Run(cfg, numBlocks, trace);
    hide Run, Adds;
    forall id ensures Count(y.s.waiting, id) + Count(y.s.running, id) <= 1 {
      assert Places(y, id) == Adds(trace, id) <= 1;
    }
  }
}
