// Which keys an LRU cache with expiry holds, from the trace of calls alone: for every key, the other
// keys that were used since and are still held.
module ResultCacheResidency {
  import opened Outcomes
  import opened Collections
  import opened ResultCache

  ghost predicate Fresh(trace: seq<Op>, ttl: real, k: string, now: real) {
    LastPut(trace, k).Some? && now - LastPut(trace, k).value.1 <= ttl
  }

  // The distinct other keys put or hit since k last was, less those expired or invalidated; None if k
  // is not held. A key is lost when a put makes that maxSize other keys.
  ghost function Since(maxSize: nat, ttl: real, trace: seq<Op>, k: string): Option<set<string>>
    decreases |trace|
  {
    if |trace| == 0 then None
    else
      var before, op := trace[..|trace| - 1], trace[|trace| - 1];
      var others := Since(maxSize, ttl, before, k);
      match op
      case Put(j, _, _) =>
        if j == k then (if maxSize == 0 then None else Some({}))
        else if others.None? || |others.value + {j}| >= maxSize then None
        else Some(others.value + {j})
      case Get(j, now) =>
        var hit := Since(maxSize, ttl, before, j).Some? && Fresh(before, ttl, j, now);
        if j == k then (if hit then Some({}) else None)
        else if others.None? then None
        else if hit then Some(others.value + {j})
        else Some(others.value - {j})
      case Invalidate(j) =>
        if j == k || others.None? then None else Some(others.value - {j})
      case Clear => None
  }

  // ----- the same on the list of entries -----

  function Keys(c: Entries): set<string> {
    set e | e in c :: e.key
  }

  // The keys used since k was.
  function Behind(c: Entries, k: string): set<string> {
    if |c| == 0 then {} else if c[0].key == k then Keys(c[1..]) else Behind(c[1..], k)
  }

  lemma {:induction false} KeysSize(c: Entries)
    requires DistinctKeys(c)
    ensures |Keys(c)| == |c|
  {
    if |c| == 0 {
      assert Keys(c) == {};
    } else {
      KeysSize(c[1..]);
      assert c == [c[0]] + c[1..];
      assert Keys(c) == Keys(c[1..]) + {c[0].key};
      forall e | e in c[1..] ensures e.key != c[0].key {
        var i :| 0 <= i < |c[1..]| && c[1..][i] == e;
        assert c[i + 1] == e;
      }
    }
  }

  lemma HasKeyTail(c: Entries, k: string)
    requires |c| > 0
    ensures HasKey(c, k) <==> c[0].key == k || HasKey(c[1..], k)
    ensures DistinctKeys(c) ==> DistinctKeys(c[1..]) && !HasKey(c[1..], c[0].key)
  {
    assert c == [c[0]] + c[1..];
  }

  lemma HasKeyAppend(c: Entries, e: Entry, k: string)
    ensures HasKey(c + [e], k) <==> HasKey(c, k) || e.key == k
  {
    assert e in c + [e];
  }

  lemma {:induction false} BehindAppend(c: Entries, e: Entry, k: string)
    ensures HasKey(c, k) ==> Behind(c + [e], k) == Behind(c, k) + {e.key}
    ensures !HasKey(c, k) && e.key == k ==> Behind(c + [e], k) == {}
  {
    if |c| == 0 {
      assert (c + [e])[1..] == [];
    } else {
      HasKeyTail(c, k);
      assert (c + [e])[1..] == c[1..] + [e];
      if c[0].key == k {
        assert Keys(c[1..] + [e]) == Keys(c[1..]) + {e.key};
      } else {
        BehindAppend(c[1..], e, k);
      }
    }
  }

  lemma {:induction false} BehindWithout(c: Entries, j: string, k: string)
    requires j != k
    ensures HasKey(Without(c, j), k) <==> HasKey(c, k)
    ensures HasKey(c, k) ==> Behind(Without(c, j), k) == Behind(c, k) - {j}
  {
    if |c| == 0 {
    } else {
      HasKeyTail(c, k);
      BehindWithout(c[1..], j, k);
      var rest := Without(c[1..], j);
      if c[0].key != j {
        assert ([c[0]] + rest)[1..] == rest;
        HasKeyTail([c[0]] + rest, k);
        if c[0].key == k {
          WithoutMembers(c[1..], j);
          assert Keys(rest) == Keys(c[1..]) - {j};
        }
      }
    }
  }

  // The oldest entry is the only one with all others behind it.
  lemma {:induction false} BehindSize(c: Entries, k: string)
    requires DistinctKeys(c) && HasKey(c, k)
    ensures |Behind(c, k)| <= |c| - 1
    ensures |Behind(c, k)| == |c| - 1 <==> c[0].key == k
    ensures Behind(c, k) <= Keys(c) - {k}
  {
    HasKeyTail(c, k);
    assert c == [c[0]] + c[1..];
    if c[0].key == k {
      KeysSize(c[1..]);
    } else {
      BehindSize(c[1..], k);
    }
  }

  ghost predicate Agrees(c: Entries, k: string, others: Option<set<string>>) {
    && (others.Some? <==> HasKey(c, k))
    && (others.Some? ==> others.value == Behind(c, k))
  }

  // A put of another key, in a cache that need not be full.
  lemma PutOther(c: Entries, maxSize: nat, j: string, text: string, now: real, k: string)
    requires DistinctKeys(c) && |c| <= maxSize && j != k
    ensures var c' := PutEntries(c, maxSize, j, text, now);
            && (HasKey(c', k) <==> HasKey(c, k) && |Behind(c, k) + {j}| < maxSize)
            && (HasKey(c', k) ==> Behind(c', k) == Behind(c, k) + {j})
  {
    var e := Entry(j, text, now);
    if HasKey(c, k) {
      BehindSize(c, k);
    }
    if HasKey(c, j) {
      BehindWithout(c, j, k);
      BehindAppend(Without(c, j), e, k);
      HasKeyAppend(Without(c, j), e, k);
      if HasKey(c, k) {
        OthersFit(c, j, k);
      }
    } else {
      assert j !in Keys(c);
      if |c| >= maxSize && |c| > 0 {
        HasKeyTail(c, k);
        BehindAppend(c[1..], e, k);
        HasKeyAppend(c[1..], e, k);
      } else {
        BehindAppend(c, e, k);
        HasKeyAppend(c, e, k);
      }
    }
  }

  lemma OthersFit(c: Entries, j: string, k: string)
    requires DistinctKeys(c) && HasKey(c, j) && HasKey(c, k) && j != k
    ensures |Behind(c, k) + {j}| < |c|
  {
    BehindSize(c, k);
    KeysSize(c);
    assert Behind(c, k) + {j} <= Keys(c) - {k} && k in Keys(c);
    SubsetSize(Behind(c, k) + {j}, Keys(c) - {k});
  }

  lemma PutOwn(c: Entries, maxSize: nat, k: string, text: string, now: real)
    requires DistinctKeys(c) && |c| <= maxSize
    ensures var c' := PutEntries(c, maxSize, k, text, now);
            (HasKey(c', k) <==> maxSize > 0) && (maxSize > 0 ==> Behind(c', k) == {})
  {
    var e := Entry(k, text, now);
    if HasKey(c, k) {
      WithoutMembers(c, k);
      BehindAppend(Without(c, k), e, k);
      HasKeyAppend(Without(c, k), e, k);
    } else if |c| >= maxSize && |c| > 0 {
      HasKeyTail(c, k);
      BehindAppend(c[1..], e, k);
      HasKeyAppend(c[1..], e, k);
    } else {
      BehindAppend(c, e, k);
      HasKeyAppend(c, e, k);
    }
  }

  lemma GetAgrees(c: Entries, ttl: real, j: string, now: real, k: string)
    ensures var c', hit := GetEntries(c, ttl, j, now), GetText(c, ttl, j, now).Some?;
            && (j == k ==> (HasKey(c', k) <==> hit) && (hit ==> Behind(c', k) == {}))
            && (j != k ==> (HasKey(c', k) <==> HasKey(c, k)))
            && (j != k && HasKey(c, k) && HasKey(c, j) ==>
                 Behind(c', k) == if hit then Behind(c, k) - {j} + {j} else Behind(c, k) - {j})
            && (!HasKey(c, j) ==> c' == c && !hit)
  {
    LookupIs(c, j);
    WithoutMembers(c, j);
    if Lookup(c, j).Some? {
      var e := Lookup(c, j).value;
      HasKeyAppend(Without(c, j), e, k);
      BehindAppend(Without(c, j), e, k);
      if j != k {
        BehindWithout(c, j, k);
      }
    }
  }

  lemma HitIs(maxSize: nat, ttl: real, trace: seq<Op>, k: string, now: real)
    ensures var c := Run(maxSize, ttl, trace);
            GetText(c, ttl, k, now) == if HasKey(c, k) && Fresh(trace, ttl, k, now) then Some(LastPut(trace, k).value.0)
                else None
  {
    var c := Run(maxSize, ttl, trace);
    LookupIs(c, k);
    if Lookup(c, k).Some? {
      RunHoldsLastPut(maxSize, ttl, trace, Lookup(c, k).value);
    }
  }

  lemma BehindHeld(c: Entries, k: string, j: string)
    requires DistinctKeys(c) && HasKey(c, k) && !HasKey(c, j)
    ensures j !in Behind(c, k)
  {
    BehindSize(c, k);
  }

  lemma AgreesAfterPut(maxSize: nat, ttl: real, before: seq<Op>, op: Op, k: string)
    requires op.Put? && Agrees(Run(maxSize, ttl, before), k, Since(maxSize, ttl, before, k))
    ensures Agrees(PutEntries(Run(maxSize, ttl, before), maxSize, op.key, op.text, op.now), k,
                   Since(maxSize, ttl, before + [op], k))
  {
    var c := Run(maxSize, ttl, before);
    RunKeeps(maxSize, ttl, before);
    assert (before + [op])[..|before + [op]| - 1] == before;
    hide PutEntries, Behind, HasKey, Run;
    if op.key == k {
      PutOwn(c, maxSize, k, op.text, op.now);
    } else {
      PutOther(c, maxSize, op.key, op.text, op.now, k);
    }
  }

  lemma AgreesAfterGet(maxSize: nat, ttl: real, before: seq<Op>, op: Op, k: string)
    requires op.Get? && Agrees(Run(maxSize, ttl, before), k, Since(maxSize, ttl, before, k))
    requires Agrees(Run(maxSize, ttl, before), op.key, Since(maxSize, ttl, before, op.key))
    ensures Agrees(GetEntries(Run(maxSize, ttl, before), ttl, op.key, op.now), k, Since(maxSize, ttl, before + [op], k))
  {
    var c, j := Run(maxSize, ttl, before), op.key;
    RunKeeps(maxSize, ttl, before);
    HitIs(maxSize, ttl, before, j, op.now);
    GetAgrees(c, ttl, j, op.now, k);
    assert HasKey(c, k) && !HasKey(c, j) ==> j !in Behind(c, k) by {
      if HasKey(c, k) && !HasKey(c, j) {
        BehindHeld(c, k, j);
      }
    }
    assert (before + [op])[..|before + [op]| - 1] == before;
    hide GetEntries, GetText, Behind, HasKey, Fresh, Run;
  }

  lemma AgreesAfterInvalidate(maxSize: nat, ttl: real, before: seq<Op>, op: Op, k: string)
    requires op.Invalidate? && Agrees(Run(maxSize, ttl, before), k, Since(maxSize, ttl, before, k))
    ensures Agrees(Without(Run(maxSize, ttl, before), op.key), k, Since(maxSize, ttl, before + [op], k))
  {
    var c := Run(maxSize, ttl, before);
    WithoutMembers(c, k);
    assert (before + [op])[..|before + [op]| - 1] == before;
    if op.key != k {
      BehindWithout(c, op.key, k);
    }
  }

  lemma AgreesAfterClear(maxSize: nat, ttl: real, before: seq<Op>, op: Op, k: string)
    requires op.Clear?
    ensures Agrees([], k, Since(maxSize, ttl, before + [op], k))
  {
  }

  // The cache holds exactly the keys that have been crowded out by fewer than maxSize others.
  lemma {:induction false} SinceIsBehind(maxSize: nat, ttl: real, trace: seq<Op>, k: string)
    ensures Agrees(Run(maxSize, ttl, trace), k, Since(maxSize, ttl, trace, k))
    decreases |trace|
  {
    if |trace| == 0 {
    } else {
      var before, op := trace[..|trace| - 1], trace[|trace| - 1];
      assert trace == before + [op];
      hide Since, Agrees;
      SinceIsBehind(maxSize, ttl, before, k);
      match op
      case Put(_, _, _) => AgreesAfterPut(maxSize, ttl, before, op, k);
      case Get(j, _) =>
        SinceIsBehind(maxSize, ttl, before, j);
        AgreesAfterGet(maxSize, ttl, before, op, k);
      case Invalidate(_) => AgreesAfterInvalidate(maxSize, ttl, before, op, k);
      case Clear => AgreesAfterClear(maxSize, ttl, before, op, k);
    }
  }

  // Exactly when a get hits, from the trace: the key has been crowded out by fewer than maxSize others
  // and its latest put has not expired.
  lemma HitIff(maxSize: nat, ttl: real, trace: seq<Op>, k: string, now: real)
    ensures GetText(Run(maxSize, ttl, trace), ttl, k, now) ==
            if Since(maxSize, ttl, trace, k).Some? && Fresh(trace, ttl, k, now) then Some(LastPut(trace, k).value.0)
                else None
  {
    SinceIsBehind(maxSize, ttl, trace, k);
    HitIs(maxSize, ttl, trace, k, now);
  }

  // ----- traces in which this is a matter of counting -----

  function PutKeys(trace: seq<Op>): set<string> {
    set op | op in trace && op.Put? :: op.key
  }

  lemma {:induction false} SinceWasPut(maxSize: nat, ttl: real, trace: seq<Op>, k: string)
    ensures Since(maxSize, ttl, trace, k).Some? ==> k in PutKeys(trace)
    ensures Since(maxSize, ttl, trace, k).Some? ==> Since(maxSize, ttl, trace, k).value <= PutKeys(trace) - {k}
    decreases |trace|
  {
    if |trace| == 0 {
    } else {
      var before, op := trace[..|trace| - 1], trace[|trace| - 1];
      assert trace == before + [op];
      assert forall x :: x in before ==> x in trace;
      assert op in trace;
      SinceWasPut(maxSize, ttl, before, k);
      if op.Get? {
        SinceWasPut(maxSize, ttl, before, op.key);
      }
    }
  }

  // With at most maxSize distinct keys put, nothing is ever crowded out: every key is held from its
  // put on, until it is found expired or invalidated.
  lemma {:induction false} RoomyHolds(maxSize: nat, ttl: real, trace: seq<Op>, k: string, now: real)
    requires |PutKeys(trace)| <= maxSize && Fresh(trace, ttl, k, now)
    requires forall i :: 0 <= i < |trace| && trace[i].Get? ==> trace[i].now <= now
    ensures Since(maxSize, ttl, trace, k).Some?
    decreases |trace|
  {
    var before, op := trace[..|trace| - 1], trace[|trace| - 1];
    assert trace == before + [op];
    assert forall x :: x in before ==> x in trace;
    assert op in trace;
    SubsetSize(PutKeys(before), PutKeys(trace));
    if op.Put? {
      assert op.key in PutKeys(trace);
      if op.key != k {
        RoomyHolds(maxSize, ttl, before, k, now);
        SinceWasPut(maxSize, ttl, before, k);
        var others := Since(maxSize, ttl, before, k).value;
        SubsetSize(others + {op.key}, PutKeys(trace) - {k});
      } else {
        SubsetSize({op.key}, PutKeys(trace));
      }
    } else {
      RoomyHolds(maxSize, ttl, before, k, now);
    }
  }

  // A cache in which at most maxSize distinct keys are put, however often, hits on every put that has
  // neither expired nor been invalidated.
  lemma RoomyHits(maxSize: nat, ttl: real, trace: seq<Op>, k: string, now: real)
    requires |PutKeys(trace)| <= maxSize && Fresh(trace, ttl, k, now)
    requires forall i :: 0 <= i < |trace| && trace[i].Get? ==> trace[i].now <= now
    ensures GetText(Run(maxSize, ttl, trace), ttl, k, now) == Some(LastPut(trace, k).value.0)
  {
    RoomyHolds(maxSize, ttl, trace, k, now);
    HitIff(maxSize, ttl, trace, k, now);
  }

  lemma SincePut(maxSize: nat, ttl: real, before: seq<Op>, op: Op, k: string)
    requires op.Put? && op.key != k
    ensures var others := Since(maxSize, ttl, before, k);
            Since(maxSize, ttl, before + [op], k) ==
            if others.None? || |others.value + {op.key}| >= maxSize then None else Some(others.value + {op.key})
  {
    assert (before + [op])[..|before + [op]| - 1] == before;
  }

  lemma SinceOwnPut(maxSize: nat, ttl: real, trace: seq<Op>, k: string)
    requires |trace| > 0 && trace[|trace| - 1].Put? && trace[|trace| - 1].key == k
    ensures Since(maxSize, ttl, trace, k) == if maxSize == 0 then None else Some({})
  {
  }

  lemma {:induction false} SinceAfterPuts(maxSize: nat, ttl: real, trace: seq<Op>, k: string, more: seq<Op>)
    requires |trace| > 0 && trace[|trace| - 1].Put? && trace[|trace| - 1].key == k
    requires forall i :: 0 <= i < |more| ==> more[i].Put? && more[i].key != k
    ensures Since(maxSize, ttl, trace + more, k) == if |PutKeys(more)| < maxSize then Some(PutKeys(more)) else None
    decreases |more|
  {
    hide Since;
    if |more| == 0 {
      SinceOwnPut(maxSize, ttl, trace, k);
      assert trace + more == trace && PutKeys(more) == {};
    } else {
      var front, op := more[..|more| - 1], more[|more| - 1];
      SinceAfterPuts(maxSize, ttl, trace, k, front);
      assert more == front + [op];
      assert trace + more == trace + front + [op];
      SincePut(maxSize, ttl, trace + front, op, k);
      assert PutKeys(more) == PutKeys(front) + {op.key};
      SubsetSize(PutKeys(front), PutKeys(more));
    }
  }

  // A key put and followed by puts of others is still held exactly if those were fewer than maxSize
  // distinct ones.
  lemma HeldIffFewPuts(maxSize: nat, ttl: real, trace: seq<Op>, k: string, more: seq<Op>)
    requires |trace| > 0 && trace[|trace| - 1].Put? && trace[|trace| - 1].key == k
    requires forall i :: 0 <= i < |more| ==> more[i].Put? && more[i].key != k
    ensures HasKey(Run(maxSize, ttl, trace + more), k) <==> |PutKeys(more)| < maxSize
  {
    SinceAfterPuts(maxSize, ttl, trace, k, more);
    SinceIsBehind(maxSize, ttl, trace + more, k);
  }
}
