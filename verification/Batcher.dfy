// The block allocator and the continuous batcher, updated in place. Each method's effect is the
// function of the same step in module Scheduling, with the two departures of the code as they are.
module Batcher {
  import opened Collections
  import opened Outcomes
  import opened Scheduling
  import opened SchedulingProofs
  import opened SchedulingTokens

  // The allocations and the free pool hold every block exactly once.
  ghost predicate Partition(numBlocks: nat, free: set<nat>, lists: map<int, seq<nat>>) {
    && (forall b: nat :: b in free ==> b < numBlocks)
    && (forall b: nat :: b < numBlocks ==> b in free || exists id :: id in lists && b in lists[id])
    && (forall id, i :: id in lists && 0 <= i < |lists[id]| ==> lists[id][i] < numBlocks && lists[id][i] !in free)
    && (forall id :: id in lists ==> Distinct(lists[id]))
    && (forall id, other, i, j ::
         id in lists && other in lists && id != other && 0 <= i < |lists[id]| && 0 <= j < |lists[other]| ==>
           lists[id][i] != lists[other][j])
  }

  function Lengths(lists: map<int, seq<nat>>): map<int, nat> {
    map id | id in lists :: |lists[id]|
  }

  function ListOf(lists: map<int, seq<nat>>, id: int): seq<nat> {
    if id in lists then lists[id] else []
  }

  // Distinct blocks, all from the pool.
  ghost predicate Drawn(blocks: seq<nat>, pool: set<nat>) {
    && (forall i :: 0 <= i < |blocks| ==> blocks[i] in pool)
    && Distinct(blocks)
  }

  lemma PartitionAfterAllocate(numBlocks: nat, free: set<nat>, lists: map<int, seq<nat>>, id: int, blocks: seq<nat>)
    requires Partition(numBlocks, free, lists) && Drawn(blocks, free)
    ensures Partition(numBlocks, free - SetOf(blocks), lists[id := ListOf(lists, id) + blocks])
  {
    var free', lists' := free - SetOf(blocks), lists[id := ListOf(lists, id) + blocks];
    forall b: nat | b < numBlocks ensures b in free' || exists i :: i in lists' && b in lists'[i] {
      if b !in free' {
        if b in free {
          assert b in lists'[id];
        } else {
          var i :| i in lists && b in lists[i];
          assert b in lists'[i];
        }
      }
    }
  }

  lemma PartitionAfterFree(numBlocks: nat, free: set<nat>, lists: map<int, seq<nat>>, id: int)
    requires Partition(numBlocks, free, lists)
    ensures Partition(numBlocks, free + SetOf(ListOf(lists, id)), lists - {id})
  {
    var blocks := ListOf(lists, id);
    var free', lists' := free + SetOf(blocks), lists - {id};
    forall b: nat | b < numBlocks ensures b in free' || exists i :: i in lists' && b in lists'[i] {
      if b !in free' {
        var i :| i in lists && b in lists[i];
        assert b in lists'[i];
      }
    }
    forall other, i | other in lists' && 0 <= i < |lists'[other]| ensures lists'[other][i] !in free' {
      assert forall j :: 0 <= j < |blocks| ==> blocks[j] != lists[other][i];
    }
  }

  lemma FreedSize(numBlocks: nat, free: set<nat>, lists: map<int, seq<nat>>, id: int)
    requires Partition(numBlocks, free, lists)
    ensures |free + SetOf(ListOf(lists, id))| == |free| + |ListOf(lists, id)|
  {
    var blocks := ListOf(lists, id);
    assert Distinct(blocks);
    SizeOfSet(blocks);
    forall b | b in SetOf(blocks) ensures b !in free {
      var i :| 0 <= i < |blocks| && blocks[i] == b;
      assert lists[id][i] !in free;
    }
    assert free !! SetOf(blocks);
  }

  class BlockTable {
    const numBlocks: nat
    const blockSize: nat
    var freeBlocks: set<nat>
    var allocations: map<int, seq<nat>>

    ghost predicate Valid()
      reads this
    {
      blockSize > 0 && Partition(numBlocks, freeBlocks, allocations)
    }

    constructor (numBlocks: nat, blockSize: nat)
      requires numBlocks > 0 && blockSize > 0
      ensures Valid() && this.numBlocks == numBlocks && this.blockSize == blockSize
      ensures |freeBlocks| == numBlocks && allocations == map[]
    {
      this.numBlocks, this.blockSize := numBlocks, blockSize;
      freeBlocks := Range(numBlocks);
      allocations := map[];
    }

    function NumBlocksFor(id: int): nat
      reads this
    {
      |ListOf(allocations, id)|
    }

    // allocate: arbitrary free blocks, appended to the request's list; all or nothing.
    method Allocate(id: int, n: int) returns (r: Result<seq<nat>>)
      requires Valid()
      modifies this
      ensures Valid()
      ensures n <= 0 ==> r == Ok([])
      ensures n > |old(freeBlocks)| ==> r == Err(MemoryError)
      ensures n <= 0 || n > |old(freeBlocks)| ==> freeBlocks == old(freeBlocks) && allocations == old(allocations)
      ensures 0 < n <= |old(freeBlocks)| ==>
                && r.Ok? && |r.value| == n && Drawn(r.value, old(freeBlocks))
                && freeBlocks == old(freeBlocks) - SetOf(r.value)
                && |freeBlocks| == |old(freeBlocks)| - n
                && allocations == old(allocations)[id := ListOf(old(allocations), id) + r.value]
    {
      if n <= 0 {
        return Ok([]);
      }
      if n > |freeBlocks| {
        return Err(MemoryError);
      }
      var taken: seq<nat> := [];
      ghost var pool := freeBlocks;
      while |taken| < n
        invariant |taken| <= n && Drawn(taken, pool)
        invariant freeBlocks == pool - SetOf(taken)
        invariant |freeBlocks| == |pool| - |taken|
        invariant allocations == old(allocations)
      {
        var b :| b in freeBlocks;
        freeBlocks := freeBlocks - {b};
        taken := taken + [b];
      }
      allocations := allocations[id := ListOf(allocations, id) + taken];
      PartitionAfterAllocate(numBlocks, pool, old(allocations), id, taken);
      return Ok(taken);
    }

    // free: all blocks of a request go back to the pool.
    method Free(id: int) returns (n: nat)
      requires Valid()
      modifies this
      ensures Valid()
      ensures n == |ListOf(old(allocations), id)|
      ensures allocations == old(allocations) - {id}
      ensures freeBlocks == old(freeBlocks) + SetOf(ListOf(old(allocations), id))
      ensures |freeBlocks| == |old(freeBlocks)| + n
    {
      var blocks := ListOf(allocations, id);
      PartitionAfterFree(numBlocks, freeBlocks, allocations, id);
      FreedSize(numBlocks, freeBlocks, allocations, id);
      allocations := allocations - {id};
      freeBlocks := freeBlocks + SetOf(blocks);
      return |blocks|;
    }
  }

  datatype SequenceState = WAITING | RUNNING | FINISHED | PREEMPTED

  class ContinuousBatcher {
    const maxBatchSize: nat
    const maxTokensPerStep: nat
    const table: BlockTable
    var waiting: seq<Request>
    var running: seq<Request>    // a dict in insertion order
    var finished: seq<Request>

    function Cfg(): Config {
      Config(maxBatchSize, maxTokensPerStep, table.blockSize)
    }

    ghost predicate Valid()
      reads this, table
    {
      table.Valid() && forall id :: Count(running, id) <= 1
    }

    ghost function Abs(): Sched
      reads this, table
    {
      Sched(waiting, running, Lengths(table.allocations), |table.freeBlocks|)
    }

    constructor (maxBatchSize: nat, maxTokensPerStep: nat, blockSize: nat, numBlocks: nat)
      requires maxBatchSize > 0 && maxTokensPerStep > 0 && blockSize > 0 && numBlocks > 0
      ensures Valid() && fresh(table) && Cfg() == Config(maxBatchSize, maxTokensPerStep, blockSize)
      ensures Abs() == Sched([], [], map[], numBlocks) && finished == []
    {
      this.maxBatchSize, this.maxTokensPerStep := maxBatchSize, maxTokensPerStep;
      waiting, running, finished := [], [], [];
      table := new BlockTable(numBlocks, blockSize);
    }

    method AddRequest(r: Request, state: SequenceState) returns (res: Result<()>)
      requires Valid()
      modifies this
      ensures Valid() && finished == old(finished)
      ensures state != WAITING ==> res == Err(ValueError) && Abs() == old(Abs())
      ensures state == WAITING ==> res == Ok(()) && Abs() == old(Abs()).(waiting := old(waiting) + [r])
    {
      if state != WAITING {
        return Err(ValueError);
      }
      waiting := waiting + [r];
      return Ok(());
    }

    // allocate, seen through the sizes.
    method Allocate(id: int, n: int) returns (ok: bool)
      requires Valid()
      modifies table
      ensures Valid()
      ensures ok == (n <= |old(table.freeBlocks)|)
      ensures Abs() == if 0 < n <= old(Abs()).free then Scheduling.TakeBlocks(old(Abs()), id, n) else old(Abs())
    {
      hide Partition;
      ghost var lists := table.allocations;
      var r := table.Allocate(id, n);
      ok := r.Ok?;
      if 0 < n && ok {
        assert Lengths(table.allocations) == Lengths(lists)[id := |ListOf(lists, id)| + n];
      }
    }

    // ensure_capacity; false where it raises MemoryError.
    method EnsureCapacity(id: int, totalTokens: nat) returns (ok: bool)
      requires Valid()
      modifies table
      ensures Valid()
      ensures var missing := BlocksNeeded(Cfg(), totalTokens) - Owned(old(Abs()), id);
              && ok == (missing <= 0 || missing <= |old(table.freeBlocks)|)
              && Abs() == if 0 < missing <= old(Abs()).free then Scheduling.TakeBlocks(old(Abs()), id, missing)
                   else old(Abs())
    {
      hide Partition;
      var extra := BlocksNeeded(Cfg(), totalTokens) - table.NumBlocksFor(id);
      if extra <= 0 {
        return true;
      }
      ok := Allocate(id, extra);
    }

    method ReleaseBlocks(id: int)
      requires Valid()
      modifies table
      ensures Valid()
      ensures Abs() == FreeBlocksOf(old(Abs()), id)
    {
      hide Partition;
      ghost var lists := table.allocations;
      var n := table.Free(id);
      assert Lengths(table.allocations) == Lengths(lists) - {id};
    }

    // _preempt
    method Preempt(r: Request)
      requires Valid()
      modifies this, table
      ensures Valid() && finished == old(finished)
      ensures Abs() == Scheduling.Preempt(old(Abs()), r)
      ensures waiting == [r] + old(waiting) && forall x :: x in running <==> x in old(running) && x.id != r.id
      ensures r.id !in Abs().owned && |table.freeBlocks| == |old(table.freeBlocks)| + Owned(old(Abs()), r.id)
    {
      hide Partition;
      ReleaseBlocks(r.id);
      RemoveFacts(running, r.id, r.id);
      RemovedDistinct(running, r.id);
      running := Remove(running, r.id);
      waiting := [r] + waiting;
    }

    // _finish
    method Finish(r: Request)
      requires Valid()
      modifies this, table
      ensures Valid()
      ensures Progress(Abs(), finished) == Scheduling.Finish(Progress(old(Abs()), old(finished)), r)
      ensures waiting == old(waiting) && finished == old(finished) + [r]
      ensures forall x :: x in running <==> x in old(running) && x.id != r.id
      ensures r.id !in Abs().owned && |table.freeBlocks| == |old(table.freeBlocks)| + Owned(old(Abs()), r.id)
    {
      hide Partition;
      ReleaseBlocks(r.id);
      RemoveFacts(running, r.id, r.id);
      RemovedDistinct(running, r.id);
      running := Remove(running, r.id);
      finished := finished + [r];
    }

    // _preempt_to_free
    method PreemptToFree(target: int, exclude: Option<int>) returns (freed: nat)
      requires Valid()
      modifies this, table
      ensures Valid() && finished == old(finished)
      ensures (Abs(), freed) == Scheduling.PreemptToFree(old(Abs()), target, exclude)
    {
      hide Partition, Count, Remove, Sorted, Scheduling.Preempt;
      var others := if exclude.Some? then Remove(running, exclude.value) else running;
      var candidates := Sorted(Weaker, others);
      freed := 0;
      var i := 0;
      while i < |candidates| && freed < target
        invariant 0 <= i <= |candidates| && Valid() && finished == old(finished)
        invariant PreemptLoop(old(Abs()), candidates, target, 0) == PreemptLoop(Abs(), candidates[i..], target, freed)
      {
        assert candidates[i..][1..] == candidates[i + 1..];
        var blocks := table.NumBlocksFor(candidates[i].id);
        Preempt(candidates[i]);
        freed := freed + blocks;
        i := i + 1;
      }
    }

    // schedule, step 1, for one waiting request.
    method AdmitOne(r: Request, admitted: seq<Request>, still: seq<Request>)
      returns (admitted': seq<Request>, still': seq<Request>, raised: bool)
      requires Valid()
      modifies this, table
      ensures Valid() && finished == old(finished)
      ensures Admission(Abs(), admitted', still', raised) ==
              Scheduling.AdmitOne(Cfg(), Admission(old(Abs()), admitted, still, false), r)
    {
      hide Partition;
      if |running| + |admitted| >= maxBatchSize {
        return admitted, still + [r], false;
      }
      var missing := BlocksNeeded(Cfg(), TotalTokens(r) + 1) - table.NumBlocksFor(r.id);
      var extra := if missing < 0 then 0 else missing;
      if extra > |table.freeBlocks| {
        var freed := PreemptToFree(extra, None);
        if freed < extra {
          return admitted, still + [r], false;
        }
      }
      var ok := EnsureCapacity(r.id, TotalTokens(r) + 1);
      if !ok {
        return admitted, still, true;
      }
      return admitted + [r], still, false;
    }

    // the queues rebuilt
    method Register(admitted: seq<Request>, still: seq<Request>)
      requires Valid()
      modifies this
      ensures Valid() && finished == old(finished)
      ensures waiting == still && running == PutAll(old(running), admitted)
    {
      hide Partition;
      waiting := still;
      var i := 0;
      while i < |admitted|
        invariant 0 <= i <= |admitted| && Valid() && finished == old(finished) && waiting == still
        invariant PutAll(old(running), admitted) == PutAll(running, admitted[i..])
      {
        assert admitted[i..][1..] == admitted[i + 1..];
        PutDistinct(running, admitted[i]);
        running := Put(running, admitted[i]);
        i := i + 1;
      }
    }

    // schedule, step 2, for one request of the snapshot.
    method GrowOne(r: Request)
      requires Valid()
      modifies this, table
      ensures Valid() && finished == old(finished)
      ensures Abs() == Scheduling.GrowOne(Cfg(), old(Abs()), r, false)
    {
      hide Partition, Count, HasId, Remove, Scheduling.Preempt, Scheduling.PreemptToFree;
      var needed := BlocksNeeded(Cfg(), TotalTokens(r) + 1);
      var have := table.NumBlocksFor(r.id);
      if needed > have {
        var extra := needed - have;
        if extra > |table.freeBlocks| {
          var freed := PreemptToFree(extra, Some(r.id));
          if freed < extra {
            Preempt(r);
            return;
          }
        }
        var ok := Allocate(r.id, extra);
        if !ok {
          Preempt(r);
        }
      }
    }

    // schedule: admission, growth, and the batch for the next forward pass.
    method Schedule() returns (batch: Result<seq<Request>>)
      requires Valid()
      modifies this, table
      ensures Valid() && finished == old(finished)
      ensures var a := Scheduling.Admit(Cfg(), old(Abs()));
              if a.raised then batch == Err(MemoryError) && Abs() == a.s
              else Abs() == Scheduling.Schedule(Cfg(), old(Abs()), false) && batch == Ok(Batch(Cfg(), Abs()))
    {
      hide Partition;
      var sorted := Sorted(Before, waiting);
      var admitted, still: seq<Request> := [], [];
      var i := 0;
      while i < |sorted|
        invariant 0 <= i <= |sorted| && Valid() && finished == old(finished)
        invariant Scheduling.Admit(Cfg(), old(Abs())) ==
                  AdmitLoop(Cfg(), Admission(Abs(), admitted, still, false), sorted[i..])
      {
        assert sorted[i..][1..] == sorted[i + 1..];
        var raised;
        admitted, still, raised := AdmitOne(sorted[i], admitted, still);
        if raised {
          RaisedStays(Cfg(), Admission(Abs(), admitted, still, true), sorted[i + 1..]);
          return Err(MemoryError);
        }
        i := i + 1;
      }
      Register(admitted, still);
      var snapshot := running;
      i := 0;
      while i < |snapshot|
        invariant 0 <= i <= |snapshot| && Valid() && finished == old(finished)
        invariant Scheduling.Schedule(Cfg(), old(Abs()), false) == GrowLoop(Cfg(), Abs(), snapshot[i..], false)
      {
        assert snapshot[i..][1..] == snapshot[i + 1..];
        GrowOne(snapshot[i]);
        i := i + 1;
      }
      var taken := TakeBatch();
      return Ok(taken);
    }

    // schedule, step 3.
    method TakeBatch() returns (batch: seq<Request>)
      requires Valid()
      ensures batch == Batch(Cfg(), Abs())
    {
      hide Partition;
      var sorted := Sorted(Before, running);
      batch := [];
      var budget: int := maxTokensPerStep;
      var i := 0;
      while i < |sorted| && budget > 0
        invariant 0 <= i <= |sorted|
        invariant batch == sorted[..i] && budget == maxTokensPerStep - i >= 0
      {
        batch := batch + [sorted[i]];
        budget := budget - 1;
        i := i + 1;
      }
    }

    // step, for one request of the batch; one that is no longer running is skipped.
    method StepOne(id: int, token: int)
      requires Valid()
      modifies this, table
      ensures Valid()
      ensures Progress(Abs(), finished) == Scheduling.StepOne(Cfg(), Progress(old(Abs()), old(finished)), id, token)
    {
      hide Partition;
      var found := Find(running, id);
      if found.None? {
        return;
      }
      FindFacts(running, id);
      var r := found.value.(generated := found.value.generated + [token]);
      PutDistinct(running, r);
      running := Put(running, r);
      waiting := Refresh(waiting, r);
      var ok := EnsureCapacity(id, TotalTokens(r));
      if |r.generated| >= r.maxTokens {
        Finish(r);
      }
    }

    // step
    method Step(batch: seq<Request>, tokens: seq<int>) returns (res: Result<()>)
      requires Valid()
      modifies this, table
      ensures Valid()
      ensures |batch| != |tokens| ==> res == Err(ValueError) && Abs() == old(Abs()) && finished == old(finished)
      ensures |batch| == |tokens| ==>
                && res == Ok(())
                && Progress(Abs(), finished) == StepLoop(Cfg(), Progress(old(Abs()), old(finished)), batch, tokens)
      ensures |batch| == |tokens| && (forall id :: Count(batch, id) <= 1) ==>
                && (forall i, r :: 0 <= i < |batch| && r in old(running) && r.id == batch[i].id ==>
                      var r' := r.(generated := r.generated + [tokens[i]]);
                      if |r'.generated| >= r'.maxTokens then
                        r' in finished && !HasId(running, r.id) && r.id !in Abs().owned
                      else r' in running)
                && (forall r :: r in old(running) && Count(batch, r.id) == 0 ==> r in running)
                && (forall r :: r in old(finished) ==> r in finished)
    {
      hide Partition, Count, HasId, Lengths, Scheduling.StepOne;
      if |batch| != |tokens| {
        return Err(ValueError);
      }
      var i := 0;
      while i < |batch|
        invariant 0 <= i <= |batch| && Valid()
        invariant StepLoop(Cfg(), Progress(old(Abs()), old(finished)), batch, tokens) ==
                  StepLoop(Cfg(), Progress(Abs(), finished), batch[i..], tokens[i..])
      {
        assert batch[i..][1..] == batch[i + 1..] && tokens[i..][1..] == tokens[i + 1..];
        StepOne(batch[i].id, tokens[i]);
        i := i + 1;
      }
      assert batch[i..] == [] && tokens[i..] == [];
      StepPromises(Cfg(), Progress(old(Abs()), old(finished)), batch, tokens);
      return Ok(());
    }

    method GetFinished() returns (done: seq<Request>)
      requires Valid()
      modifies this
      ensures Valid() && Abs() == old(Abs()) && done == old(finished) && finished == []
    {
      done := finished;
      finished := [];
    }
  }

  // ContinuousBatcher(...)
  method NewBatcher(maxBatchSize: int, maxTokensPerStep: int, blockSize: int, numBlocks: int)
    returns (r: Result<ContinuousBatcher>)
    ensures r.Err? <==> maxBatchSize <= 0 || maxTokensPerStep <= 0 || blockSize <= 0 || numBlocks <= 0
    ensures r.Err? ==> r.error == ValueError
    ensures r.Ok? ==>
              && fresh(r.value) && fresh(r.value.table) && r.value.Valid() && r.value.finished == []
              && r.value.Cfg() == Config(maxBatchSize, maxTokensPerStep, blockSize)
              && r.value.Abs() == Sched([], [], map[], numBlocks)
  {
    if maxBatchSize <= 0 || maxTokensPerStep <= 0 || blockSize <= 0 || numBlocks <= 0 {
      return Err(ValueError);
    }
    var b := new ContinuousBatcher(maxBatchSize, maxTokensPerStep, blockSize, numBlocks);
    return Ok(b);
  }

  lemma {:induction false} RaisedStays(cfg: Config, a: Admission, queue: seq<Request>)
    requires cfg.blockSize > 0 && a.raised
    ensures AdmitLoop(cfg, a, queue) == a
    decreases |queue|
  {
    if |queue| == 0 {
    } else {
      RaisedStays(cfg, a, queue[1..]);
    }
  }

  lemma StepPromises(cfg: Config, p: Progress, batch: seq<Request>, tokens: seq<int>)
    requires cfg.blockSize > 0 && |batch| == |tokens| && forall i :: Count(p.s.running, i) <= 1
    ensures (forall id :: Count(batch, id) <= 1) ==>
              var p' := StepLoop(cfg, p, batch, tokens);
              && (forall i, r :: 0 <= i < |batch| && r in p.s.running && r.id == batch[i].id ==>
                    var r' := r.(generated := r.generated + [tokens[i]]);
                    if |r'.generated| >= r'.maxTokens then
                      r' in p'.finished && !HasId(p'.s.running, r.id) && r.id !in p'.s.owned
                    else r' in p'.s.running)
              && (forall r :: r in p.s.running && Count(batch, r.id) == 0 ==> r in p'.s.running)
              && (forall r :: r in p.finished ==> r in p'.finished)
  {
    if forall id :: Count(batch, id) <= 1 {
      var p' := StepLoop(cfg, p, batch, tokens);
      hide StepLoop, HasId, Count;
      forall i, r | 0 <= i < |batch| && r in p.s.running && r.id == batch[i].id
        ensures var r' := r.(generated := r.generated + [tokens[i]]);
                if |r'.generated| >= r'.maxTokens then
                  r' in p'.finished && !HasId(p'.s.running, r.id) && r.id !in p'.s.owned
                else r' in p'.s.running
      {
        StepAdvances(cfg, p, batch, tokens, i, r);
      }
      forall r | r in p.s.running && Count(batch, r.id) == 0 ensures r in p'.s.running {
        StepLeaves(cfg, p, batch, tokens, r);
      }
      forall r | r in p.finished ensures r in p'.finished {
        StepOrigin(cfg, p, batch, tokens, r);
      }
    }
  }

  lemma RemovedDistinct(xs: seq<Request>, id: int)
    requires forall i :: Count(xs, i) <= 1
    ensures forall i :: Count(Remove(xs, id), i) <= 1
  {
    forall i ensures Count(Remove(xs, id), i) <= 1 {
      RemoveFacts(xs, id, i);
    }
  }

  lemma PutDistinct(xs: seq<Request>, r: Request)
    requires forall i :: Count(xs, i) <= 1
    ensures forall i :: Count(Put(xs, r), i) <= 1
  {
    forall i ensures Count(Put(xs, r), i) <= 1 {
      PutFacts(xs, r, i);
    }
  }
}
