// The continuous-batching scheduler as a function on states: FCFS admission with
// preemption, growth of the running sequences, and the step after a forward pass.
//
// Two places of the code depart from its documented intent. With intended == false the
// functions do what the code does: admission forgets the requests it preempts, and growth
// visits requests that were preempted meanwhile. With intended == true they keep the
// former and skip the latter.
module Scheduling {
  import opened Outcomes

  datatype Request = Request(id: int, promptTokens: nat, maxTokens: int, priority: real, arrival: real,
      generated: seq<int>)

  datatype Config = Config(maxBatchSize: nat, maxTokensPerStep: nat, blockSize: nat)

  // Queues, how many cache blocks each request owns, and how many are free. A request is WAITING,
  // RUNNING or FINISHED according to the queue it is in.
  datatype Sched = Sched(waiting: seq<Request>, running: seq<Request>, owned: map<int, nat>, free: nat)

  ghost predicate ValidConfig(cfg: Config) {
    cfg.maxBatchSize > 0 && cfg.maxTokensPerStep > 0 && cfg.blockSize > 0
  }

  function TotalTokens(r: Request): nat {
    r.promptTokens + |r.generated|
  }

  function BlocksNeeded(cfg: Config, tokens: nat): int
    requires cfg.blockSize > 0
  {
    CeilDiv(tokens, cfg.blockSize)
  }

  // Blocks a request needs for the token it is about to generate.
  function Need(cfg: Config, r: Request): int
    requires cfg.blockSize > 0
  {
    BlocksNeeded(cfg, TotalTokens(r) + 1)
  }

  function Owned(s: Sched, id: int): nat {
    if id in s.owned then s.owned[id] else 0
  }

  // ----- lists of requests -----

  function Remove(xs: seq<Request>, id: int): seq<Request> {
    if |xs| == 0 then []
    else if xs[0].id == id then Remove(xs[1..], id)
    else [xs[0]] + Remove(xs[1..], id)
  }

  // How often an id occurs.
  function Count(xs: seq<Request>, id: int): nat {
    if |xs| == 0 then 0 else (if xs[0].id == id then 1 else 0) + Count(xs[1..], id)
  }

  predicate HasId(xs: seq<Request>, id: int) {
    exists r :: r in xs && r.id == id
  }

  // dict assignment: replace the entry with this id, or append.
  function Put(xs: seq<Request>, r: Request): seq<Request> {
    if |xs| == 0 then [r]
    else if xs[0].id == r.id then [r] + xs[1..]
    else [xs[0]] + Put(xs[1..], r)
  }

  // The entries with this id are one object: what happens to it shows in every queue it is in.
  function Refresh(xs: seq<Request>, r: Request): seq<Request> {
    if |xs| == 0 then []
    else [if xs[0].id == r.id then r else xs[0]] + Refresh(xs[1..], r)
  }

  function PutAll(xs: seq<Request>, more: seq<Request>): seq<Request>
    decreases |more|
  {
    if |more| == 0 then xs else PutAll(Put(xs, more[0]), more[1..])
  }

  // FCFS: by arrival time, ties by priority, highest first.
  predicate Before(a: Request, b: Request) {
    a.arrival < b.arrival || (a.arrival == b.arrival && a.priority >= b.priority)
  }

  // Victims first: lowest priority, ties latest arrival.
  predicate Weaker(a: Request, b: Request) {
    a.priority < b.priority || (a.priority == b.priority && a.arrival >= b.arrival)
  }

  function Insert(le: (Request, Request) -> bool, r: Request, xs: seq<Request>): seq<Request> {
    if |xs| == 0 then [r]
    else if le(r, xs[0]) then [r] + xs
    else [xs[0]] + Insert(le, r, xs[1..])
  }

  // Python's sorted: stable.
  function Sorted(le: (Request, Request) -> bool, xs: seq<Request>): seq<Request> {
    if |xs| == 0 then [] else Insert(le, xs[0], Sorted(le, xs[1..]))
  }

  // ----- preemption -----

  function FreeBlocksOf(s: Sched, id: int): Sched {
    s.(owned := s.owned - {id}, free := s.free + Owned(s, id))
  }

  function TakeBlocks(s: Sched, id: int, n: nat): Sched
    requires n <= s.free
  {
    if n == 0 then s else s.(owned := s.owned[id := Owned(s, id) + n], free := s.free - n)
  }

  function Preempt(s: Sched, r: Request): Sched {
    FreeBlocksOf(s, r.id).(running := Remove(s.running, r.id), waiting := [r] + s.waiting)
  }

  function PreemptLoop(s: Sched, candidates: seq<Request>, target: int, freed: nat): (Sched, nat)
    decreases |candidates|
  {
    if |candidates| == 0 || freed >= target then (s, freed)
    else PreemptLoop(Preempt(s, candidates[0]), candidates[1..], target, freed + Owned(s, candidates[0].id))
  }

  function PreemptToFree(s: Sched, target: int, exclude: Option<int>): (Sched, nat) {
    var others := if exclude.Some? then Remove(s.running, exclude.value) else s.running;
    PreemptLoop(s, Sorted(Weaker, others), target, 0)
  }

  // ----- step 1: admission -----

  datatype Admission = Admission(s: Sched, admitted: seq<Request>, still: seq<Request>, raised: bool)

  function AdmitOne(cfg: Config, a: Admission, r: Request): Admission
    requires cfg.blockSize > 0
  {
    if a.raised then a
    else if |a.s.running| + |a.admitted| >= cfg.maxBatchSize then a.(still := a.still + [r])
    else
      var missing := Need(cfg, r) - Owned(a.s, r.id);
      var extra := if missing < 0 then 0 else missing;
      var (s, freed) := if extra > a.s.free then PreemptToFree(a.s, extra, None) else (a.s, extra);
      // ensure_capacity counts the blocks again, after the preemptions
      var lacking := Need(cfg, r) - Owned(s, r.id);
      if freed < extra then a.(s := s, still := a.still + [r])
      else if lacking > 0 && lacking > s.free then a.(s := s, raised := true)
      else a.(s := TakeBlocks(s, r.id, if lacking < 0 then 0 else lacking), admitted := a.admitted + [r])
  }

  function AdmitLoop(cfg: Config, a: Admission, queue: seq<Request>): Admission
    requires cfg.blockSize > 0
    decreases |queue|
  {
    if |queue| == 0 then a else AdmitLoop(cfg, AdmitOne(cfg, a, queue[0]), queue[1..])
  }

  function Admit(cfg: Config, s: Sched): Admission
    requires cfg.blockSize > 0
  {
    AdmitLoop(cfg, Admission(s, [], [], false), Sorted(Before, s.waiting))
  }

  // The requests preempted by admission: what was put in front of the waiting queue meanwhile.
  function Victims(s: Sched, a: Admission): seq<Request> {
    if |a.s.waiting| >= |s.waiting| then a.s.waiting[..|a.s.waiting| - |s.waiting|] else []
  }

  // The queues are rebuilt from what admission decided.
  function Register(s: Sched, a: Admission, intended: bool): Sched {
    a.s.(waiting := if intended then Victims(s, a) + a.still else a.still,
         running := PutAll(a.s.running, a.admitted))
  }

  // ----- step 2: growth -----

  function GrowOne(cfg: Config, s: Sched, r: Request, intended: bool): Sched
    requires cfg.blockSize > 0
  {
    var missing := Need(cfg, r) - Owned(s, r.id);
    if missing <= 0 || (intended && !HasId(s.running, r.id)) then s
    else
      var (s', freed) := if missing > s.free then PreemptToFree(s, missing, Some(r.id)) else (s, missing);
      if freed < missing then Preempt(s', r)
      else if missing > s'.free then Preempt(s', r)
      else TakeBlocks(s', r.id, missing)
  }

  function GrowLoop(cfg: Config, s: Sched, snapshot: seq<Request>, intended: bool): Sched
    requires cfg.blockSize > 0
    decreases |snapshot|
  {
    if |snapshot| == 0 then s else GrowLoop(cfg, GrowOne(cfg, s, snapshot[0], intended), snapshot[1..], intended)
  }

  // ----- schedule -----

  function AfterAdmission(cfg: Config, s: Sched, intended: bool): Sched
    requires cfg.blockSize > 0
  {
    Register(s, Admit(cfg, s), intended)
  }

  function Schedule(cfg: Config, s: Sched, intended: bool): Sched
    requires cfg.blockSize > 0
  {
    var s1 := AfterAdmission(cfg, s, intended);
    GrowLoop(cfg, s1, s1.running, intended)
  }

  // step 3: the first max_tokens_per_step running sequences, FCFS.
  function Batch(cfg: Config, s: Sched): seq<Request> {
    var order := Sorted(Before, s.running);
    if |order| <= cfg.maxTokensPerStep then order else order[..cfg.maxTokensPerStep]
  }

  // ----- step -----

  function Find(xs: seq<Request>, id: int): Option<Request> {
    if |xs| == 0 then None else if xs[0].id == id then Some(xs[0]) else Find(xs[1..], id)
  }

  datatype Progress = Progress(s: Sched, finished: seq<Request>)

  function Finish(p: Progress, r: Request): Progress {
    Progress(FreeBlocksOf(p.s, r.id).(running := Remove(p.s.running, r.id)), p.finished + [r])
  }

  function StepOne(cfg: Config, p: Progress, id: int, token: int): Progress
    requires cfg.blockSize > 0
  {
    match Find(p.s.running, id)
    case None => p
    case Some(old') =>
      var r := old'.(generated := old'.generated + [token]);
      var missing := BlocksNeeded(cfg, TotalTokens(r)) - Owned(p.s, id);
      var s := p.s.(running := Put(p.s.running, r), waiting := Refresh(p.s.waiting, r));
      var s' := if missing <= 0 || missing > s.free then s else TakeBlocks(s, id, missing);
      if |r.generated| >= r.maxTokens then Finish(Progress(s', p.finished), r) else Progress(s', p.finished)
  }

  function StepLoop(cfg: Config, p: Progress, batch: seq<Request>, tokens: seq<int>): Progress
    requires cfg.blockSize > 0 && |batch| == |tokens|
    decreases |batch|
  {
    if |batch| == 0 then p
    else StepLoop(cfg, StepOne(cfg, p, batch[0].id, tokens[0]), batch[1..], tokens[1..])
  }
}
