// A run of the code as written, from an empty batcher and with two requests, in which schedule raises
// MemoryError: growth queues a request twice, the two copies are admitted in different schedules, and
// the second preempts the first, its own blocks included.
module SchedulingRaise {
  import opened Outcomes
  import opened Scheduling
  import opened SchedulingProofs

  function Cfg(): Config {
    Config(2, 9, 1)
  }

  // Three prompt tokens, the better priority, and the later arrival.
  function A(m: int, generated: seq<int>): Request {
    Request(0, 3, m, 2.0, 2.0, generated)
  }

  function B(generated: seq<int>): Request {
    Request(1, 0, 9, 1.0, 0.0, generated)
  }

  lemma Needs(m: int, tokens: seq<int>)
    ensures Need(Cfg(), A(m, tokens)) == 4 + |tokens| && Need(Cfg(), B(tokens)) == 1 + |tokens|
    ensures BlocksNeeded(Cfg(), TotalTokens(A(m, tokens))) == 3 + |tokens|
    ensures BlocksNeeded(Cfg(), TotalTokens(B(tokens))) == |tokens|
  {
  }

  lemma SortOne(le: (Request, Request) -> bool, x: Request)
    ensures Sorted(le, [x]) == [x]
  {
    assert [x][1..] == [];
  }

  lemma SortTwo(le: (Request, Request) -> bool, x: Request, y: Request)
    ensures Sorted(le, [x, y]) == if le(x, y) then [x, y] else [y, x]
  {
    SortOne(le, y);
    assert [x, y][1..] == [y] && [y][1..] == [];
    assert Sorted(le, [x, y]) == Insert(le, x, [y]);
    assert [x] + [y] == [x, y] && [y] + [x] == [y, x] && Insert(le, x, []) == [x];
  }

  // Preemption with a single candidate.
  lemma PreemptOnly(s: Sched, r: Request, target: int, exclude: Option<int>)
    requires target > 0
    requires (if exclude.Some? then Remove(s.running, exclude.value) else s.running) == [r]
    ensures PreemptToFree(s, target, exclude) == (Preempt(s, r), Owned(s, r.id))
  {
    SortOne(Weaker, r);
    assert [r][1..] == [];
    assert PreemptLoop(Preempt(s, r), [], target, Owned(s, r.id)) == (Preempt(s, r), Owned(s, r.id));
  }

  lemma NobodyToPreempt(s: Sched, target: int)
    requires s.running == []
    ensures PreemptToFree(s, target, None) == (s, 0)
  {
  }

  // Both are admitted and take all five blocks.
  lemma FirstSchedule(m: int)
    ensures var a, b := A(m, []), B([]);
            !Admit(Cfg(), Sched([a, b], [], map[], 5)).raised &&
            Schedule(Cfg(), Sched([a, b], [], map[], 5), false) == Sched([], [b, a], map[1 := 1, 0 := 4], 0)
  {
    var a, b := A(m, []), B([]);
    var s := Sched([a, b], [], map[], 5);
    Needs(m, []);
    SortTwo(Before, a, b);
    var start := Admission(s, [], [], false);
    var one := AdmitOne(Cfg(), start, b);
    assert one == Admission(s.(owned := map[1 := 1], free := 4), [b], [], false);
    var two := AdmitOne(Cfg(), one, a);
    assert two == Admission(s.(owned := map[1 := 1, 0 := 4], free := 0), [b, a], [], false);
    assert [b, a][1..] == [a] && [a][1..] == [];
    assert AdmitLoop(Cfg(), two, []) == two;
    assert AdmitLoop(Cfg(), one, [a]) == two;
    assert AdmitLoop(Cfg(), start, [b, a]) == two;
    assert Put([b], a) == [b] + Put([], a) == [b, a] && Put([], b) == [b];
    assert PutAll([b], [a]) == PutAll([b, a], []);
    assert PutAll([], [b, a]) == PutAll([b], [a]);
    var s1 := Sched([], [b, a], map[1 := 1, 0 := 4], 0);
    assert AfterAdmission(Cfg(), s, false) == s1;
    assert GrowOne(Cfg(), s1, b, false) == s1 && GrowOne(Cfg(), s1, a, false) == s1;
    assert GrowLoop(Cfg(), s1, [a], false) == GrowLoop(Cfg(), s1, [], false) == s1;
  }

  // b takes a's blocks, then a's turn comes all the same: it preempts b, and is queued twice.
  lemma SecondSchedule(m: int, t: int)
    ensures var a, b := A(m, [t]), B([t]);
            !Admit(Cfg(), Sched([], [b, a], map[1 := 1, 0 := 4], 0)).raised &&
            Schedule(Cfg(), Sched([], [b, a], map[1 := 1, 0 := 4], 0), false) == Sched([a, b, a], [], map[], 5)
  {
    var a, b := A(m, [t]), B([t]);
    var s := Sched([], [b, a], map[1 := 1, 0 := 4], 0);
    Needs(m, [t]);
    assert [b, a][1..] == [a] && [a][1..] == [] && [b][1..] == [];
    assert Admit(Cfg(), s) == Admission(s, [], [], false);
    assert PutAll([b, a], []) == [b, a];
    assert AfterAdmission(Cfg(), s, false) == s;
    RemoveOne(a, 0);
    RemoveOne(a, 1);
    RemoveOne(b, 0);
    RemoveOne(b, 1);
    assert Remove([b, a], 1) == Remove([a], 1) == [a];
    assert Remove([b, a], 0) == [b] + Remove([a], 0);
    assert [b] + [] == [b];
    PreemptOnly(s, a, 1, Some(1));
    var s1 := Sched([a], [b], map[1 := 1], 4);
    assert map[1 := 1, 0 := 4] - {0} == map[1 := 1];
    assert Preempt(s, a) == s1;
    var s2 := Sched([a], [b], map[1 := 2], 3);
    assert map[1 := 1][1 := 2] == map[1 := 2];
    assert GrowOne(Cfg(), s, b, false) == s2;
    PreemptOnly(s2, b, 5, Some(0));
    var s3 := Sched([b, a], [], map[], 5);
    assert map[1 := 2] - {1} == map[];
    assert Preempt(s2, b) == s3;
    var s4 := Sched([a, b, a], [], map[], 5);
    assert Preempt(s3, a) == s4;
    assert GrowOne(Cfg(), s2, a, false) == s4;
    assert GrowLoop(Cfg(), s2, [a], false) == GrowLoop(Cfg(), s4, [], false) == s4;
  }

  // b is admitted; neither copy of a fits.
  lemma ThirdSchedule(m: int, t: int)
    ensures var a, b := A(m, [t]), B([t]);
            !Admit(Cfg(), Sched([a, b, a], [], map[], 5)).raised &&
            Schedule(Cfg(), Sched([a, b, a], [], map[], 5), false) == Sched([a, a], [b], map[1 := 2], 3)
  {
    var a, b := A(m, [t]), B([t]);
    var s := Sched([a, b, a], [], map[], 5);
    Needs(m, [t]);
    SortTwo(Before, b, a);
    assert [a, b, a][1..] == [b, a] && [b, a, a][1..] == [a, a] && [a, a][1..] == [a] && [a][1..] == [] &&
           [b, a][1..] == [a];
    assert Insert(Before, a, [a]) == [a, a];
    assert Insert(Before, a, [b, a]) == [b] + Insert(Before, a, [a]) == [b, a, a];
    assert Sorted(Before, s.waiting) == [b, a, a];
    var start := Admission(s, [], [], false);
    var one := AdmitOne(Cfg(), start, b);
    assert one == Admission(s.(owned := map[1 := 2], free := 3), [b], [], false);
    NobodyToPreempt(one.s, 5);
    var two := AdmitOne(Cfg(), one, a);
    assert two == one.(still := [a]);
    var three := AdmitOne(Cfg(), two, a);
    assert three == one.(still := [a, a]);
    assert AdmitLoop(Cfg(), two, [a]) == AdmitLoop(Cfg(), three, []) == three;
    assert AdmitLoop(Cfg(), one, [a, a]) == AdmitLoop(Cfg(), two, [a]);
    assert AdmitLoop(Cfg(), start, [b, a, a]) == AdmitLoop(Cfg(), one, [a, a]);
    assert PutAll([], [b]) == PutAll([b], []) == [b] by {
      assert [b][1..] == [];
    }
    var s1 := Sched([a, a], [b], map[1 := 2], 3);
    assert AfterAdmission(Cfg(), s, false) == s1;
    assert GrowOne(Cfg(), s1, b, false) == s1;
    assert [b][1..] == [] && GrowLoop(Cfg(), s1, [], false) == s1;
  }

  // The first copy preempts b in vain, so b is lost; the second copy is admitted.
  lemma FourthSchedule(m: int, t: int)
    ensures var a, b := A(m, [t]), B([t]);
            !Admit(Cfg(), Sched([a, a], [b], map[1 := 2], 3)).raised &&
            Schedule(Cfg(), Sched([a, a], [b], map[1 := 2], 3), false) == Sched([a], [a], map[0 := 5], 0)
  {
    var a, b := A(m, [t]), B([t]);
    var s := Sched([a, a], [b], map[1 := 2], 3);
    Needs(m, [t]);
    SortTwo(Before, a, a);
    assert [a, a][1..] == [a] && [a][1..] == [];
    var start := Admission(s, [], [], false);
    PreemptOnly(s, b, 5, None);
    RemoveOne(b, 1);
    var mid := Sched([b, a, a], [], map[], 5);
    assert map[1 := 2] - {1} == map[];
    assert Preempt(s, b) == mid;
    var one := AdmitOne(Cfg(), start, a);
    assert one == Admission(mid, [], [a], false);
    var two := AdmitOne(Cfg(), one, a);
    assert two == Admission(mid.(owned := map[0 := 5], free := 0), [a], [a], false);
    assert AdmitLoop(Cfg(), one, [a]) == AdmitLoop(Cfg(), two, []) == two;
    assert AdmitLoop(Cfg(), start, [a, a]) == AdmitLoop(Cfg(), one, [a]);
    assert PutAll([], [a]) == PutAll([a], []) == [a];
    var s1 := Sched([a], [a], map[0 := 5], 0);
    assert AfterAdmission(Cfg(), s, false) == s1;
    assert GrowOne(Cfg(), s1, a, false) == s1;
    assert GrowLoop(Cfg(), s1, [], false) == s1;
  }

  // The waiting copy lacks one block, preempts its own running self, and then lacks six of five.
  lemma FifthSchedule(m: int, t: int, u: int)
    ensures var a := A(m, [t, u]); Admit(Cfg(), Sched([a], [a], map[0 := 5], 0)).raised
  {
    var a := A(m, [t, u]);
    var s := Sched([a], [a], map[0 := 5], 0);
    Needs(m, [t, u]);
    SortOne(Before, a);
    PreemptOnly(s, a, 1, None);
    RemoveOne(a, 0);
    assert map[0 := 5] - {0} == map[];
    assert Preempt(s, a) == Sched([a, a], [], map[], 5);
    var start := Admission(s, [], [], false);
    assert AdmitOne(Cfg(), start, a).raised;
    assert [a][1..] == [];
    assert AdmitLoop(Cfg(), start, [a]) == AdmitOne(Cfg(), start, a);
  }

  lemma FirstStep(m: int, t: int)
    requires m > 1
    ensures var s := Sched([], [B([]), A(m, [])], map[1 := 1, 0 := 4], 0);
            && Batch(Cfg(), s) == [B([]), A(m, [])]
            && StepLoop(Cfg(), Progress(s, []), [B([]), A(m, [])], [t, t]) ==
               Progress(Sched([], [B([t]), A(m, [t])], map[1 := 1, 0 := 4], 0), [])
  {
    var a, b := A(m, []), B([]);
    var s := Sched([], [b, a], map[1 := 1, 0 := 4], 0);
    SortTwo(Before, b, a);
    Needs(m, [t]);
    assert [b, a][1..] == [a] && [a][1..] == [] && [t, t][1..] == [t] && [t][1..] == [];
    assert [] + [t] == [t];
    assert Put([b, a], B([t])) == [B([t]), a];
    var p := StepOne(Cfg(), Progress(s, []), 1, t);
    assert p == Progress(s.(running := [B([t]), a]), []);
    assert [B([t]), a][1..] == [a];
    assert Find([B([t]), a], 0) == Find([a], 0) == Some(a);
    assert Put([B([t]), a], A(m, [t])) == [B([t])] + Put([a], A(m, [t])) == [B([t]), A(m, [t])];
    var q := StepOne(Cfg(), p, 0, t);
    assert q == Progress(s.(running := [B([t]), A(m, [t])]), []);
    assert StepLoop(Cfg(), q, [], []) == q;
    assert StepLoop(Cfg(), p, [a], [t]) == q;
  }

  lemma SecondStep(m: int, t: int, u: int)
    requires m > 2
    ensures var s := Sched([A(m, [t])], [A(m, [t])], map[0 := 5], 0);
            && Batch(Cfg(), s) == [A(m, [t])]
            && StepLoop(Cfg(), Progress(s, []), [A(m, [t])], [u]) ==
               Progress(Sched([A(m, [t, u])], [A(m, [t, u])], map[0 := 5], 0), [])
  {
    var a, a' := A(m, [t]), A(m, [t, u]);
    var s := Sched([a], [a], map[0 := 5], 0);
    SortOne(Before, a);
    Needs(m, [t, u]);
    assert [a][1..] == [] && [u][1..] == [] && [t] + [u] == [t, u];
    assert Put([a], a') == [a'] && Refresh([a], a') == [a'] + Refresh([], a') == [a'];
    var p := StepOne(Cfg(), Progress(s, []), 0, u);
    assert p == Progress(Sched([a'], [a'], map[0 := 5], 0), []);
    assert StepLoop(Cfg(), p, [], []) == p;
  }

  // With two tokens asked for, the running copy is finished by the second, and the waiting one waits on.
  lemma LastStep(t: int, u: int)
    ensures var m, s := 2, Sched([A(2, [t])], [A(2, [t])], map[0 := 5], 0);
            && Batch(Cfg(), s) == [A(m, [t])]
            && StepLoop(Cfg(), Progress(s, []), [A(m, [t])], [u]) ==
               Progress(Sched([A(m, [t, u])], [], map[], 5), [A(m, [t, u])])
  {
    var m := 2;
    var a, a' := A(m, [t]), A(m, [t, u]);
    var s := Sched([a], [a], map[0 := 5], 0);
    SortOne(Before, a);
    Needs(m, [t, u]);
    RemoveOne(a', 0);
    assert [a][1..] == [] && [u][1..] == [] && [t] + [u] == [t, u] && [] + [a'] == [a'];
    assert Put([a], a') == [a'] && Refresh([a], a') == [a'] + Refresh([], a') == [a'];
    assert map[0 := 5] - {0} == map[];
    var p := StepOne(Cfg(), Progress(s, []), 0, u);
    assert p == Progress(Sched([a'], [], map[], 5), [a']);
    assert StepLoop(Cfg(), p, [], []) == p;
  }

  // ----- the run -----

  function State(waiting: seq<Request>, running: seq<Request>, owned: map<int, nat>, free: nat,
                 batch: seq<Request>): System {
    System(Sched(waiting, running, owned, free), [], [], batch)
  }

  function Front(m: int, t: int): seq<Op> {
    [AddRequest(A(m, [])), AddRequest(B([])), DoSchedule, DoStep([t, t])]
  }

  function Trace(m: int, t: int, u: int): seq<Op> {
    Front(m, t) + [DoSchedule, DoSchedule, DoSchedule, DoStep([u])]
  }

  lemma Extend(trace: seq<Op>, y: System, op: Op)
    requires RunAsWritten(Cfg(), 5, trace) == y
    ensures RunAsWritten(Cfg(), 5, trace + [op]) == ApplyAsWritten(Cfg(), y, op)
  {
    assert (trace + [op])[..|trace|] == trace;
  }

  lemma ExtendBySchedule(trace: seq<Op>, y: System, s': Sched)
    requires RunAsWritten(Cfg(), 5, trace) == y
    requires !Admit(Cfg(), y.s).raised && Schedule(Cfg(), y.s, false) == s'
    ensures RunAsWritten(Cfg(), 5, trace + [DoSchedule]) == y.(s := s', batch := Batch(Cfg(), s'))
  {
    Extend(trace, y, DoSchedule);
    hide Schedule, Admit, Batch, RunAsWritten;
  }

  lemma ExtendByStep(trace: seq<Op>, y: System, tokens: seq<int>, s': Sched, finished: seq<Request>)
    requires RunAsWritten(Cfg(), 5, trace) == y && |tokens| == |y.batch|
    requires StepLoop(Cfg(), Progress(y.s, y.finished), y.batch, tokens) == Progress(s', finished)
    ensures RunAsWritten(Cfg(), 5, trace + [DoStep(tokens)]) == y.(s := s', finished := finished)
  {
    Extend(trace, y, DoStep(tokens));
    hide StepLoop, RunAsWritten;
  }

  lemma ExtendByAdd(trace: seq<Op>, waiting: seq<Request>, r: Request)
    requires RunAsWritten(Cfg(), 5, trace) == State(waiting, [], map[], 5, [])
    ensures RunAsWritten(Cfg(), 5, trace + [AddRequest(r)]) == State(waiting + [r], [], map[], 5, [])
  {
    Extend(trace, State(waiting, [], map[], 5, []), AddRequest(r));
    hide RunAsWritten;
  }

  lemma RunAdds(m: int)
    ensures RunAsWritten(Cfg(), 5, [AddRequest(A(m, [])), AddRequest(B([]))]) ==
            State([A(m, []), B([])], [], map[], 5, [])
  {
    var a, b := A(m, []), B([]);
    assert RunAsWritten(Cfg(), 5, []) == State([], [], map[], 5, []);
    hide RunAsWritten;
    assert [] + [AddRequest(a)] == [AddRequest(a)] && [] + [a] == [a];
    ExtendByAdd([], [], a);
    assert [AddRequest(a)] + [AddRequest(b)] == [AddRequest(a), AddRequest(b)] && [a] + [b] == [a, b];
    ExtendByAdd([AddRequest(a)], [a], b);
  }

  lemma RunFront(m: int, t: int)
    requires m > 1
    ensures RunAsWritten(Cfg(), 5, Front(m, t)) ==
            State([], [B([t]), A(m, [t])], map[1 := 1, 0 := 4], 0, [B([]), A(m, [])])
  {
    var a, b := A(m, []), B([]);
    var adds := [AddRequest(a), AddRequest(b)];
    RunAdds(m);
    FirstSchedule(m);
    FirstStep(m, t);
    hide Schedule, Admit, Batch, StepLoop, RunAsWritten;
    ExtendBySchedule(adds, State([a, b], [], map[], 5, []), Sched([], [b, a], map[1 := 1, 0 := 4], 0));
    ExtendByStep(adds + [DoSchedule], State([], [b, a], map[1 := 1, 0 := 4], 0, [b, a]), [t, t],
                 Sched([], [B([t]), A(m, [t])], map[1 := 1, 0 := 4], 0), []);
    assert adds + [DoSchedule] + [DoStep([t, t])] == Front(m, t);
  }

  lemma RunSchedules(m: int, t: int)
    requires m > 1
    ensures RunAsWritten(Cfg(), 5, Front(m, t) + [DoSchedule] + [DoSchedule] + [DoSchedule]) ==
            State([A(m, [t])], [A(m, [t])], map[0 := 5], 0,
                  Batch(Cfg(), Sched([A(m, [t])], [A(m, [t])], map[0 := 5], 0)))
  {
    var a, b := A(m, [t]), B([t]);
    RunFront(m, t);
    SecondSchedule(m, t);
    ThirdSchedule(m, t);
    FourthSchedule(m, t);
    hide Schedule, Admit, Batch, RunAsWritten, Front;
    var s2, s3, s4 := Sched([a, b, a], [], map[], 5), Sched([a, a], [b], map[1 := 2], 3),
        Sched([a], [a], map[0 := 5], 0);
    ExtendBySchedule(Front(m, t), State([], [b, a], map[1 := 1, 0 := 4], 0, [B([]), A(m, [])]), s2);
    ExtendBySchedule(Front(m, t) + [DoSchedule], System(s2, [], [], Batch(Cfg(), s2)), s3);
    ExtendBySchedule(Front(m, t) + [DoSchedule] + [DoSchedule], System(s3, [], [], Batch(Cfg(), s3)), s4);
  }

  // Two requests with ids of their own, added once each, are enough.
  lemma RunReachesARaise(m: int, t: int, u: int)
    requires m > 2
    ensures forall id :: Adds(Trace(m, t, u), id) <= 1
    ensures Admit(Cfg(), RunAsWritten(Cfg(), 5, Trace(m, t, u)).s).raised
  {
    var a, a' := A(m, [t]), A(m, [t, u]);
    var trace := Front(m, t) + [DoSchedule] + [DoSchedule] + [DoSchedule];
    AddsOnce(m, t, u);
    RunSchedules(m, t);
    SecondStep(m, t, u);
    FifthSchedule(m, t, u);
    hide Admit, Batch, StepLoop, RunAsWritten, Adds;
    ExtendByStep(trace, State([a], [a], map[0 := 5], 0, [a]), [u], Sched([a'], [a'], map[0 := 5], 0), []);
    assert trace + [DoStep([u])] == Trace(m, t, u);
  }

  // The same run with a request for two tokens: it is finished, and still waits for more.
  lemma RunFinishesTheWaiting(t: int, u: int)
    ensures forall id :: Adds(Trace(2, t, u), id) <= 1
    ensures var y, a := RunAsWritten(Cfg(), 5, Trace(2, t, u)), A(2, [t, u]);
            a in y.finished && a in y.s.waiting && |a.generated| == a.maxTokens
  {
    var a, a' := A(2, [t]), A(2, [t, u]);
    var trace := Front(2, t) + [DoSchedule] + [DoSchedule] + [DoSchedule];
    AddsOnce(2, t, u);
    RunSchedules(2, t);
    LastStep(t, u);
    hide Batch, StepLoop, RunAsWritten, Adds;
    ExtendByStep(trace, State([a], [a], map[0 := 5], 0, [a]), [u], Sched([a'], [], map[], 5), [a']);
    assert trace + [DoStep([u])] == Trace(2, t, u);
  }

  lemma AddsSnoc(trace: seq<Op>, op: Op, id: int)
    ensures Adds(trace + [op], id) == Adds(trace, id) + (if op.AddRequest? && op.r.id == id then 1 else 0)
  {
    assert (trace + [op])[..|trace|] == trace;
  }

  lemma AddsOnce(m: int, t: int, u: int)
    ensures forall id :: Adds(Trace(m, t, u), id) <= 1
  {
    var adds := [] + [AddRequest(A(m, []))] + [AddRequest(B([]))];
    var first := adds + [DoSchedule] + [DoStep([t, t])];
    forall id ensures Adds(Trace(m, t, u), id) <= 1 {
      AddsSnoc([], AddRequest(A(m, [])), id);
      AddsSnoc([] + [AddRequest(A(m, []))], AddRequest(B([])), id);
      AddsSnoc(adds, DoSchedule, id);
      AddsSnoc(adds + [DoSchedule], DoStep([t, t]), id);
      AddsSnoc(first, DoSchedule, id);
      AddsSnoc(first + [DoSchedule], DoSchedule, id);
      AddsSnoc(first + [DoSchedule] + [DoSchedule], DoSchedule, id);
      AddsSnoc(first + [DoSchedule] + [DoSchedule] + [DoSchedule], DoStep([u]), id);
      assert first + [DoSchedule] + [DoSchedule] + [DoSchedule] + [DoStep([u])] == Trace(m, t, u);
    }
  }
}
