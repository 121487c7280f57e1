// The LRU + TTL cache for inference results, as a list of entries from least to most
// recently used, and what running it with different capacities on one trace has in common.
module ResultCache {
  import opened Outcomes

  // make_key hashes this text; two requests with the same text share a cache slot.
  function RawKey(modelName: string, prompt: string): string {
    modelName + ":" + prompt
  }

  datatype Entry = Entry(key: string, text: string, createdAt: real)

  type Entries = seq<Entry>

  predicate HasKey(c: Entries, k: string) {
    exists e :: e in c && e.key == k
  }

  predicate DistinctKeys(c: Entries) {
    forall i, j :: 0 <= i < j < |c| ==> c[i].key != c[j].key
  }

  // The list without the entry for k.
  function Without(c: Entries, k: string): Entries {
    if |c| == 0 then []
    else if c[0].key == k then Without(c[1..], k)
    else [c[0]] + Without(c[1..], k)
  }

  function Lookup(c: Entries, k: string): Option<Entry> {
    if |c| == 0 then None
    else if c[0].key == k then Some(c[0])
    else Lookup(c[1..], k)
  }

  // ----- the operations, on the list -----

  function GetEntries(c: Entries, ttl: real, k: string, now: real): Entries {
    match Lookup(c, k)
    case None => c
    case Some(e) => if now - e.createdAt > ttl then Without(c, k) else Without(c, k) + [e]
  }

  function GetText(c: Entries, ttl: real, k: string, now: real): Option<string> {
    match Lookup(c, k)
    case None => None
    case Some(e) => if now - e.createdAt > ttl then None else Some(e.text)
  }

  // Inserting into a full cache of capacity 0 has nothing to evict: popitem raises KeyError.
  function PutEntries(c: Entries, maxSize: nat, k: string, text: string, now: real): Entries {
    if HasKey(c, k) then Without(c, k) + [Entry(k, text, now)]
    else if |c| >= maxSize then if |c| == 0 then c else c[1..] + [Entry(k, text, now)]
    else c + [Entry(k, text, now)]
  }

  datatype Op =
    | Get(key: string, now: real)
    | Put(key: string, text: string, now: real)
    | Invalidate(key: string)
    | Clear

  function Step(c: Entries, maxSize: nat, ttl: real, op: Op): Entries {
    match op
    case Get(k, now) => GetEntries(c, ttl, k, now)
    case Put(k, text, now) => PutEntries(c, maxSize, k, text, now)
    case Invalidate(k) => Without(c, k)
    case Clear => []
  }

  // What a whole trace of calls leaves in a cache that starts out empty.
  function Run(maxSize: nat, ttl: real, trace: seq<Op>): Entries {
    if |trace| == 0 then []
    else Step(Run(maxSize, ttl, trace[..|trace| - 1]), maxSize, ttl, trace[|trace| - 1])
  }

  // ----- facts about the list -----

  lemma {:induction false} LookupIs(c: Entries, k: string)
    ensures Lookup(c, k).Some? <==> HasKey(c, k)
    ensures Lookup(c, k).Some? ==> Lookup(c, k).value in c && Lookup(c, k).value.key == k
  {
    if |c| == 0 {
    } else {
      LookupIs(c[1..], k);
      assert c == [c[0]] + c[1..];
    }
  }

  lemma {:induction false} LookupDistinct(c: Entries, e: Entry)
    requires DistinctKeys(c) && e in c
    ensures Lookup(c, e.key) == Some(e)
  {
    if c[0] == e {
    } else {
      var i :| 0 <= i < |c| && c[i] == e;
      assert c[1..][i - 1] == e;
      LookupDistinct(c[1..], e);
    }
  }

  lemma {:induction false} WithoutMembers(c: Entries, k: string)
    ensures forall e :: e in Without(c, k) <==> e in c && e.key != k
    ensures |Without(c, k)| <= |c|
  {
    if |c| == 0 {
    } else {
      WithoutMembers(c[1..], k);
      assert c == [c[0]] + c[1..];
    }
  }

  lemma {:induction false} WithoutAbsent(c: Entries, k: string)
    requires !HasKey(c, k)
    ensures Without(c, k) == c
  {
    if |c| == 0 {
    } else {
      assert c == [c[0]] + c[1..];
      WithoutAbsent(c[1..], k);
    }
  }

  lemma {:induction false} WithoutDistinct(c: Entries, k: string)
    requires DistinctKeys(c)
    ensures DistinctKeys(Without(c, k))
  {
    if |c| == 0 {
    } else {
      WithoutDistinct(c[1..], k);
      WithoutMembers(c[1..], k);
      var rest := Without(c[1..], k);
      forall i | 0 <= i < |rest| ensures rest[i].key != c[0].key {
        assert rest[i] in rest;
        assert rest[i] in c[1..];
      }
    }
  }

  lemma {:induction false} WithoutShrinks(c: Entries, k: string)
    requires DistinctKeys(c) && HasKey(c, k)
    ensures |Without(c, k)| == |c| - 1
  {
    if c[0].key == k {
      assert !HasKey(c[1..], k);
      WithoutAbsent(c[1..], k);
    } else {
      assert c == [c[0]] + c[1..];
      WithoutShrinks(c[1..], k);
    }
  }

  lemma AppendDistinct(c: Entries, e: Entry)
    requires DistinctKeys(c) && !HasKey(c, e.key)
    ensures DistinctKeys(c + [e])
  {
    forall i | 0 <= i < |c| ensures c[i].key != e.key {
      assert c[i] in c;
    }
  }

  // ----- every run keeps the keys distinct and the capacity -----

  lemma StepKeeps(c: Entries, maxSize: nat, ttl: real, op: Op)
    requires DistinctKeys(c) && |c| <= maxSize
    ensures DistinctKeys(Step(c, maxSize, ttl, op)) && |Step(c, maxSize, ttl, op)| <= maxSize
  {
    if !op.Clear? {
      var k := op.key;
      LookupIs(c, k);
      WithoutMembers(c, k);
      WithoutDistinct(c, k);
      if HasKey(c, k) {
        WithoutShrinks(c, k);
      }
      match op
      case Get(_, now) =>
        if Lookup(c, k).Some? {
          AppendDistinct(Without(c, k), Lookup(c, k).value);
        }
      case Put(_, text, now) =>
        if HasKey(c, k) {
          AppendDistinct(Without(c, k), Entry(k, text, now));
        } else if |c| >= maxSize && |c| > 0 {
          AppendDistinct(c[1..], Entry(k, text, now));
        } else {
          AppendDistinct(c, Entry(k, text, now));
        }
      case Invalidate(_) =>
    }
  }

  lemma {:induction false} RunKeeps(maxSize: nat, ttl: real, trace: seq<Op>)
    ensures DistinctKeys(Run(maxSize, ttl, trace)) && |Run(maxSize, ttl, trace)| <= maxSize
  {
    if |trace| == 0 {
    } else {
      RunKeeps(maxSize, ttl, trace[..|trace| - 1]);
      StepKeeps(Run(maxSize, ttl, trace[..|trace| - 1]), maxSize, ttl, trace[|trace| - 1]);
    }
  }

  // ----- inclusion: a bigger cache holds everything a smaller one does -----

  // small's entries all occur in large, with the same texts and times and in the same order.
  predicate Sublist(small: Entries, large: Entries) {
    if |small| == 0 then true
    else if |large| == 0 then false
    else if small[0] == large[0] then Sublist(small[1..], large[1..])
    else Sublist(small, large[1..])
  }

  lemma {:induction false} SublistMembers(a: Entries, b: Entries)
    requires Sublist(a, b)
    ensures forall e :: e in a ==> e in b
    ensures |a| <= |b|
  {
    if |a| == 0 {
    } else {
      assert a == [a[0]] + a[1..] && b == [b[0]] + b[1..];
      if a[0] == b[0] {
        SublistMembers(a[1..], b[1..]);
      } else {
        SublistMembers(a, b[1..]);
      }
    }
  }

  lemma {:induction false} SublistReflexive(a: Entries)
    ensures Sublist(a, a)
  {
    if |a| == 0 {
    } else {
      SublistReflexive(a[1..]);
    }
  }

  lemma {:induction false} SublistTail(a: Entries, b: Entries)
    requires Sublist(a, b) && |a| > 0
    ensures Sublist(a[1..], b)
    decreases |a| + |b|
  {
    if a[0] == b[0] {
      SublistWider(a[1..], b);
    } else {
      SublistTail(a, b[1..]);
      SublistWider(a[1..], b);
    }
  }

  // Adding entries in front of the longer list.
  lemma {:induction false} SublistWider(a: Entries, b: Entries)
    requires |b| > 0 && Sublist(a, b[1..])
    ensures Sublist(a, b)
    decreases |a| + |b|
  {
    if |a| > 0 && a[0] == b[0] {
      SublistTail(a, b[1..]);
    }
  }

  lemma {:induction false} SublistAppend(a: Entries, b: Entries, e: Entry)
    requires Sublist(a, b)
    ensures Sublist(a, b + [e])
    ensures Sublist(a + [e], b + [e])
  {
    if |b| == 0 {
      SublistReflexive([e]);
      assert a == [] && a + [e] == [e] && b + [e] == [e];
    } else {
      assert (b + [e])[1..] == b[1..] + [e];
      if |a| == 0 {
        SublistAppend(a, b[1..], e);
        assert a + [e] == [e];
        SublistWider([e], b + [e]);
      } else {
        assert (a + [e])[1..] == a[1..] + [e];
        if a[0] == b[0] {
          SublistAppend(a[1..], b[1..], e);
        } else {
          SublistAppend(a, b[1..], e);
        }
      }
    }
  }

  lemma {:induction false} SublistWithout(a: Entries, b: Entries, k: string)
    requires Sublist(a, b)
    ensures Sublist(Without(a, k), Without(b, k))
  {
    if |a| == 0 {
    } else {
      if a[0] == b[0] {
        SublistWithout(a[1..], b[1..], k);
        if a[0].key != k {
          assert Without(a, k)[1..] == Without(a[1..], k) && Without(b, k)[1..] == Without(b[1..], k);
        }
      } else {
        SublistWithout(a, b[1..], k);
        if b[0].key != k {
          assert Without(b, k)[1..] == Without(b[1..], k);
          SublistWider(Without(a, k), Without(b, k));
        }
      }
    }
  }

  // The two caches agree, and the larger one has at most its extra capacity in extra entries.
  ghost predicate Included(small: Entries, m: nat, large: Entries, n: nat) {
    && DistinctKeys(small) && |small| <= m
    && DistinctKeys(large) && |large| <= n
    && Sublist(small, large)
    && |large| - |small| <= n - m
  }

  lemma LookupAgrees(a: Entries, b: Entries, k: string)
    requires DistinctKeys(b) && Sublist(a, b)
    ensures Lookup(a, k).Some? ==> Lookup(b, k) == Lookup(a, k)
  {
    LookupIs(a, k);
    SublistMembers(a, b);
    if Lookup(a, k).Some? {
      LookupDistinct(b, Lookup(a, k).value);
    }
  }

  // Inclusion survives every call, and the larger cache hits whenever the smaller one does.
  lemma StepIncluded(small: Entries, m: nat, large: Entries, n: nat, ttl: real, op: Op)
    requires 1 <= m <= n && Included(small, m, large, n)
    ensures Included(Step(small, m, ttl, op), m, Step(large, n, ttl, op), n)
  {
    StepKeeps(small, m, ttl, op);
    StepKeeps(large, n, ttl, op);
    match op
    case Get(k, now) => GetIncluded(small, m, large, n, ttl, k, now);
    case Put(k, text, now) => PutIncluded(small, m, large, n, k, text, now);
    case Invalidate(k) => WithoutIncluded(small, large, k);
    case Clear =>
  }

  lemma WithoutIncluded(small: Entries, large: Entries, k: string)
    requires DistinctKeys(small) && DistinctKeys(large) && Sublist(small, large)
    ensures Sublist(Without(small, k), Without(large, k))
    ensures |Without(large, k)| - |Without(small, k)| <= |large| - |small|
    ensures !HasKey(small, k) ==> Sublist(small, Without(large, k))
    ensures HasKey(small, k) ==> HasKey(large, k)
    ensures !HasKey(small, k) && HasKey(large, k) ==> |Without(large, k)| - |small| == |large| - |small| - 1
  {
    SublistWithout(small, large, k);
    LookupIs(small, k);
    LookupIs(large, k);
    LookupAgrees(small, large, k);
    if HasKey(small, k) {
      WithoutShrinks(small, k);
    } else {
      WithoutAbsent(small, k);
    }
    if HasKey(large, k) {
      WithoutShrinks(large, k);
    } else {
      WithoutAbsent(large, k);
    }
  }

  lemma GetIncluded(small: Entries, m: nat, large: Entries, n: nat, ttl: real, k: string, now: real)
    requires 1 <= m <= n && Included(small, m, large, n)
    ensures Sublist(GetEntries(small, ttl, k, now), GetEntries(large, ttl, k, now))
    ensures |GetEntries(large, ttl, k, now)| - |GetEntries(small, ttl, k, now)| <= n - m
  {
    LookupIs(small, k);
    LookupIs(large, k);
    LookupAgrees(small, large, k);
    WithoutIncluded(small, large, k);
    if Lookup(large, k).Some? {
      var e := Lookup(large, k).value;
      WithoutShrinks(large, k);
      if Lookup(small, k).Some? {
        WithoutShrinks(small, k);
        SublistAppend(Without(small, k), Without(large, k), e);
      } else {
        SublistAppend(small, Without(large, k), e);
      }
    }
  }

  lemma PutIncluded(small: Entries, m: nat, large: Entries, n: nat, k: string, text: string, now: real)
    requires 1 <= m <= n && Included(small, m, large, n)
    ensures Sublist(PutEntries(small, m, k, text, now), PutEntries(large, n, k, text, now))
    ensures |PutEntries(large, n, k, text, now)| - |PutEntries(small, m, k, text, now)| <= n - m
  {
    var e := Entry(k, text, now);
    WithoutIncluded(small, large, k);
    if HasKey(small, k) {
      WithoutShrinks(small, k);
      WithoutShrinks(large, k);
      SublistAppend(Without(small, k), Without(large, k), e);
    } else {
      var small' := if |small| >= m then small[1..] else small;
      var large' := if HasKey(large, k) then Without(large, k) else if |large| >= n then large[1..] else large;
      assert PutEntries(small, m, k, text, now) == small' + [e];
      assert PutEntries(large, n, k, text, now) == large' + [e];
      EvictIncluded(small, m, large, n, k);
      SublistAppend(small', large', e);
    }
  }

  // When the larger cache evicts an entry that the smaller one holds too, that entry is the
  // smaller one's oldest, and the smaller one is full and evicts it as well.
  lemma EvictIncluded(small: Entries, m: nat, large: Entries, n: nat, k: string)
    requires 1 <= m <= n && Included(small, m, large, n) && !HasKey(small, k)
    ensures var small' := if |small| >= m then small[1..] else small;
            var large' := if HasKey(large, k) then Without(large, k) else if |large| >= n then large[1..] else large;
            Sublist(small', large') && |large'| - |small'| <= n - m
  {
    WithoutIncluded(small, large, k);
    if HasKey(large, k) {
      WithoutShrinks(large, k);
      if |small| >= m {
        SublistTail(small, Without(large, k));
      }
    } else if |large| >= n {
      assert |small| >= m;
      if small[0] == large[0] {
        assert Sublist(small[1..], large[1..]);
      } else {
        SublistTail(small, large[1..]);
      }
    } else if |small| >= m {
      SublistTail(small, large);
    }
  }

  // LRU inclusion: run on the same trace, the larger cache always includes the smaller one.
  lemma {:induction false} RunIncluded(m: nat, n: nat, ttl: real, trace: seq<Op>)
    requires 1 <= m <= n
    ensures Included(Run(m, ttl, trace), m, Run(n, ttl, trace), n)
  {
    if |trace| == 0 {
    } else {
      var before := trace[..|trace| - 1];
      RunIncluded(m, n, ttl, before);
      StepIncluded(Run(m, ttl, before), m, Run(n, ttl, before), n, ttl, trace[|trace| - 1]);
    }
  }

  // A bigger cache never misses where a smaller one hits, and gives the same answer.
  lemma BiggerNeverMisses(m: nat, n: nat, ttl: real, trace: seq<Op>, k: string, now: real)
    requires 1 <= m <= n
    ensures GetText(Run(m, ttl, trace), ttl, k, now).Some? ==>
              GetText(Run(n, ttl, trace), ttl, k, now) == GetText(Run(m, ttl, trace), ttl, k, now)
  {
    RunIncluded(m, n, ttl, trace);
    LookupAgrees(Run(m, ttl, trace), Run(n, ttl, trace), k);
  }

  // ----- freshness: what a hit returns, from the trace alone -----

  // The last text stored for k and when, unless it has been invalidated or cleared since.
  function LastPut(trace: seq<Op>, k: string): Option<(string, real)> {
    if |trace| == 0 then None
    else match trace[|trace| - 1]
      case Put(k', text, now) => if k' == k then Some((text, now)) else LastPut(trace[..|trace| - 1], k)
      case Invalidate(k') => if k' == k then None else LastPut(trace[..|trace| - 1], k)
      case Clear => None
      case Get(_, _) => LastPut(trace[..|trace| - 1], k)
  }

  lemma PutMembers(c: Entries, maxSize: nat, k: string, text: string, now: real, e: Entry)
    requires DistinctKeys(c) && e in PutEntries(c, maxSize, k, text, now)
    ensures e == Entry(k, text, now) || (e in c && e.key != k) || (maxSize == 0 && e in c)
  {
    WithoutMembers(c, k);
  }

  lemma StepMembers(c: Entries, maxSize: nat, ttl: real, op: Op, e: Entry)
    requires DistinctKeys(c) && |c| <= maxSize && e in Step(c, maxSize, ttl, op)
    ensures match op
            case Put(k, text, now) => e == Entry(k, text, now) || (e in c && e.key != k)
            case Get(_, _) => e in c
            case Invalidate(k) => e in c && e.key != k
            case Clear => false
  {
    match op
    case Put(k, text, now) => PutMembers(c, maxSize, k, text, now, e);
    case Get(k, now) =>
      WithoutMembers(c, k);
      LookupIs(c, k);
    case Invalidate(k) => WithoutMembers(c, k);
    case Clear =>
  }

  // Every entry held is the latest put of its key.
  lemma {:induction false} RunHoldsLastPut(maxSize: nat, ttl: real, trace: seq<Op>, e: Entry)
    requires e in Run(maxSize, ttl, trace)
    ensures LastPut(trace, e.key) == Some((e.text, e.createdAt))
  {
    if |trace| == 0 {
    } else {
      var before := trace[..|trace| - 1];
      RunKeeps(maxSize, ttl, before);
      StepMembers(Run(maxSize, ttl, before), maxSize, ttl, trace[|trace| - 1], e);
      if e in Run(maxSize, ttl, before) {
        RunHoldsLastPut(maxSize, ttl, before, e);
      }
    }
  }

  // A hit returns the latest put that was not invalidated, and no older than the ttl.
  lemma HitIsLatestPut(maxSize: nat, ttl: real, trace: seq<Op>, k: string, now: real)
    ensures var hit := GetText(Run(maxSize, ttl, trace), ttl, k, now);
            hit.Some? ==>
              && LastPut(trace, k).Some? && LastPut(trace, k).value.0 == hit.value
              && now - LastPut(trace, k).value.1 <= ttl
  {
    var c := Run(maxSize, ttl, trace);
    LookupIs(c, k);
    if Lookup(c, k).Some? {
      RunHoldsLastPut(maxSize, ttl, trace, Lookup(c, k).value);
    }
  }

  // ----- keys -----

  // Requests with different names or prompts share a slot only if a model name contains a colon
  // (or SHA-256 collides).
  lemma {:induction false} RawKeyInjective(m: string, p: string, m': string, p': string)
    requires ':' !in m && ':' !in m'
    requires RawKey(m, p) == RawKey(m', p')
    ensures m == m' && p == p'
  {
    FirstOfKey(m, p);
    FirstOfKey(m', p');
    if |m| == 0 || |m'| == 0 {
    } else {
      RawKeyInjective(m[1..], p, m'[1..], p');
      assert m == [m[0]] + m[1..] && m' == [m'[0]] + m'[1..];
    }
  }

  lemma FirstOfKey(m: string, p: string)
    ensures |RawKey(m, p)| > 0 && RawKey(m, p)[0] == (if |m| == 0 then ':' else m[0])
    ensures RawKey(m, p)[1..] == if |m| == 0 then p else RawKey(m[1..], p)
  {
    if |m| > 0 {
      assert RawKey(m, p)[1..] == RawKey(m[1..], p);
    } else {
      assert RawKey(m, p)[1..] == p;
    }
  }

  ghost predicate SharesSlot(m: string, p: string) {
    exists m': string, p': string :: SameSlot(m, p, m', p')
  }

  ghost predicate SameSlot(m: string, p: string, m': string, p': string) {
    (m', p') != (m, p) && RawKey(m', p') == RawKey(m, p)
  }

  // A text with a second colon splits in a second way.
  lemma ColonSplits(a: string, b: string, c: string)
    ensures SameSlot(a + ":" + b, c, a, b + ":" + c) && SameSlot(a, b + ":" + c, a + ":" + b, c)
  {
    assert |a + ":" + b| > |a|;
    assert a + ":" + b + ":" + c == a + ":" + (b + ":" + c);
  }

  lemma FirstColon(m: string, p: string, i: nat)
    requires ':' !in m && ':' !in p && i < |RawKey(m, p)|
    ensures RawKey(m, p)[i] == ':' <==> i == |m|
  {
    assert i < |m| ==> RawKey(m, p)[i] == m[i];
    assert i > |m| ==> RawKey(m, p)[i] == p[i - |m| - 1];
  }

  lemma ColonsAgree(m: string, p: string, m': string, p': string)
    requires RawKey(m, p) == RawKey(m', p') && ':' !in m && ':' !in p
    ensures m == m' && p == p'
  {
    FirstColon(m, p, |m'|);
    assert RawKey(m', p')[|m'|] == ':';
    assert m == RawKey(m, p)[..|m|] && m' == RawKey(m', p')[..|m'|];
    assert p == RawKey(m, p)[|m| + 1..] && p' == RawKey(m', p')[|m'| + 1..];
  }

  // A request shares its slot with another one exactly if its name or its prompt contains a colon.
  lemma SharesSlotIff(m: string, p: string)
    ensures SharesSlot(m, p) <==> ':' in m || ':' in p
  {
    if ':' in m {
      var i :| 0 <= i < |m| && m[i] == ':';
      assert m == m[..i] + ":" + m[i + 1..];
      ColonSplits(m[..i], m[i + 1..], p);
      assert SameSlot(m, p, m[..i], m[i + 1..] + ":" + p);
    } else if ':' in p {
      var i :| 0 <= i < |p| && p[i] == ':';
      assert p == p[..i] + ":" + p[i + 1..];
      ColonSplits(m, p[..i], p[i + 1..]);
      assert SameSlot(m, p, m + ":" + p[..i], p[i + 1..]);
    } else if SharesSlot(m, p) {
      var m', p' :| SameSlot(m, p, m', p');
      ColonsAgree(m, p, m', p');
    }
  }

  // ----- the cache object -----

  // What a get leaves: the entry asked for goes to the end, or is gone if it has expired; all others stay.
  lemma GetIs(c: Entries, ttl: real, k: string, now: real)
    requires DistinctKeys(c)
    ensures var after, text := GetEntries(c, ttl, k, now), GetText(c, ttl, k, now);
            && (forall e :: e in after && e.key != k <==> e in c && e.key != k)
            && if text.None? then !HasKey(after, k) && forall e :: e in c && e.key == k ==> now - e.createdAt > ttl
               else
                 && |after| > 0 && var e := after[|after| - 1];
                    e in c && e.key == k && e.text == text.value && now - e.createdAt <= ttl
  {
    LookupIs(c, k);
    WithoutMembers(c, k);
    forall e | e in c && e.key == k ensures Lookup(c, k) == Some(e) {
      LookupDistinct(c, e);
    }
  }

  // What a put leaves: the entry at the end, and all others, less the least recently used one if a new key
  // finds the cache full.
  lemma PutIs(c: Entries, maxSize: nat, k: string, text: string, now: real)
    requires DistinctKeys(c) && maxSize > 0
    ensures var after := PutEntries(c, maxSize, k, text, now);
            && |after| > 0 && after[|after| - 1] == Entry(k, text, now)
            && forall e :: e in after && e.key != k <==>
                 e in c && e.key != k && (HasKey(c, k) || |c| < maxSize || e != c[0])
  {
    WithoutMembers(c, k);
    if !HasKey(c, k) && |c| >= maxSize {
      assert c == [c[0]] + c[1..];
      forall e | e in c[1..] ensures e != c[0] {
        var i :| 0 <= i < |c[1..]| && c[1..][i] == e;
        assert c[i + 1].key != c[0].key;
      }
    }
  }

  class ResultCache {
    const maxSize: nat
    const ttl: real
    const hash: string -> string
    var cache: Entries

    ghost predicate Valid()
      reads this
    {
      DistinctKeys(cache) && |cache| <= maxSize
    }

    constructor (maxSize: nat, ttl: real, hash: string -> string)
      ensures Valid() && cache == [] && this.maxSize == maxSize && this.ttl == ttl && this.hash == hash
    {
      this.maxSize, this.ttl, this.hash := maxSize, ttl, hash;
      cache := [];
    }

    function MakeKey(modelName: string, prompt: string): string {
      hash(RawKey(modelName, prompt))
    }

    method Get(modelName: string, prompt: string, now: real) returns (text: Option<string>)
      requires Valid()
      modifies this
      ensures Valid()
      ensures text == GetText(old(cache), ttl, MakeKey(modelName, prompt), now)
      ensures cache == GetEntries(old(cache), ttl, MakeKey(modelName, prompt), now)
      ensures var key := hash(modelName + ":" + prompt);
              && (forall e :: e in cache && e.key != key <==> e in old(cache) && e.key != key)
              && if text.None? then
                   !HasKey(cache, key) && forall e :: e in old(cache) && e.key == key ==> now - e.createdAt > ttl
                 else
                   && |cache| > 0 && var e := cache[|cache| - 1];
                      e in old(cache) && e.key == key && e.text == text.value && now - e.createdAt <= ttl
    {
      var key := MakeKey(modelName, prompt);
      GetIs(cache, ttl, key, now);
      StepKeeps(cache, maxSize, ttl, Op.Get(key, now));
      var entry := Lookup(cache, key);
      if entry.None? {
        return None;
      }
      if now - entry.value.createdAt > ttl {
        cache := Without(cache, key);
        return None;
      }
      cache := Without(cache, key) + [entry.value];
      return Some(entry.value.text);
    }

    method Put(modelName: string, prompt: string, text: string, now: real) returns (r: Result<()>)
      requires Valid()
      modifies this
      ensures Valid()
      ensures r == (if maxSize == 0 then Err(KeyError) else Ok(()))
      ensures cache == PutEntries(old(cache), maxSize, MakeKey(modelName, prompt), text, now)
      ensures var key := hash(modelName + ":" + prompt);
              maxSize > 0 ==>
                && |cache| > 0 && cache[|cache| - 1] == Entry(key, text, now)
                && forall e :: e in cache && e.key != key <==>
                     && e in old(cache) && e.key != key
                     && (HasKey(old(cache), key) || |old(cache)| < maxSize || e != old(cache)[0])
    {
      var key := MakeKey(modelName, prompt);
      if maxSize > 0 {
        PutIs(cache, maxSize, key, text, now);
      }
      StepKeeps(cache, maxSize, ttl, Op.Put(key, text, now));
      if HasKey(cache, key) {
        cache := Without(cache, key) + [Entry(key, text, now)];
        return Ok(());
      }
      if |cache| >= maxSize {
        if |cache| == 0 {
          return Err(KeyError);
        }
        cache := cache[1..];
      }
      cache := cache + [Entry(key, text, now)];
      return Ok(());
    }

    method Invalidate(modelName: string, prompt: string) returns (existed: bool)
      requires Valid()
      modifies this
      ensures Valid()
      ensures existed == HasKey(old(cache), MakeKey(modelName, prompt))
      ensures cache == Without(old(cache), MakeKey(modelName, prompt))
    {
      var key := MakeKey(modelName, prompt);
      StepKeeps(cache, maxSize, ttl, Op.Invalidate(key));
      existed := HasKey(cache, key);
      if existed {
        cache := Without(cache, key);
      } else {
        WithoutAbsent(cache, key);
      }
    }

    method Clear()
      modifies this
      ensures Valid() && cache == []
    {
      cache := [];
    }
  }
}
