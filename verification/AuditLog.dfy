// The hash-chained audit log. Serialisation and hashing together are one parameter, the digest of an
// entry's content, of which only the fixed length is assumed.
module AuditLog {
  datatype EventType = JobClaimed | JobCompleted | JobFailed | PaymentReceived | SlashingApplied
                     | NodeRegistered | NodeDeregistered | GovernanceVote | ConfigChanged

  datatype Content<Payload> =
    Content(sequence: nat, eventType: EventType, actor: string, payload: Payload, timestamp: real, prevHash: string)

  datatype Entry<Payload> = Entry(content: Content<Payload>, entryHash: string)

  type Digest<!Payload> = Content<Payload> -> string

  const DIGEST_LENGTH: nat := 64

  ghost predicate FixedLength<Payload(!new)>(digest: Digest<Payload>) {
    forall c :: |digest(c)| == DIGEST_LENGTH
  }

  // AuditEntry(...): the hash is computed unless one is given.
  function NewEntry<Payload>(digest: Digest<Payload>, content: Content<Payload>,
                             entryHash: string := ""): Entry<Payload> {
    Entry(content, if entryHash == "" then digest(content) else entryHash)
  }

  // AuditEntry.verify
  predicate Verifies<Payload>(digest: Digest<Payload>, e: Entry<Payload>) {
    e.entryHash == digest(e.content)
  }

  // The hash an entry at position i has to refer to.
  function Previous<Payload>(entries: seq<Entry<Payload>>, i: nat): string
    requires i <= |entries|
  {
    if i > 0 then entries[i - 1].entryHash else ""
  }

  ghost predicate Chained<Payload>(digest: Digest<Payload>, entries: seq<Entry<Payload>>) {
    forall i :: 0 <= i < |entries| ==>
      Verifies(digest, entries[i]) && entries[i].content.prevHash == Previous(entries, i)
  }

  class AuditLog<Payload(==, !new)> {
    const digest: Digest<Payload>
    var entries: seq<Entry<Payload>>

    constructor (digest: Digest<Payload>)
      ensures this.digest == digest && entries == []
    {
      this.digest, entries := digest, [];
    }

    method Append(eventType: EventType, actor: string, payload: Payload, now: real) returns (entry: Entry<Payload>)
      modifies this
      ensures entries == old(entries) + [entry]
      ensures var n := |old(entries)|;
              && entry.content == Content(n, eventType, actor, payload, now,
                                          if n > 0 then old(entries)[n - 1].entryHash else "")
              && entry.entryHash == digest(entry.content)
      ensures old(Chained(digest, entries)) <==> Chained(digest, entries)
    {
      var prevHash := if |entries| > 0 then entries[|entries| - 1].entryHash else "";
      entry := NewEntry(digest, Content(|entries|, eventType, actor, payload, now, prevHash));
      AppendChained(digest, entries, entry);
      entries := entries + [entry];
    }

    method VerifyChain() returns (ok: bool)
      ensures ok <==> forall i :: 0 <= i < |entries| ==>
                && entries[i].entryHash == digest(entries[i].content)
                && entries[i].content.prevHash == if i > 0 then entries[i - 1].entryHash else ""
    {
      for i := 0 to |entries|
        invariant forall j :: 0 <= j < i ==>
                    && entries[j].entryHash == digest(entries[j].content)
                    && entries[j].content.prevHash == if j > 0 then entries[j - 1].entryHash else ""
      {
        if !Verifies(digest, entries[i]) {
          return false;
        }
        var expectedPrev := if i > 0 then entries[i - 1].entryHash else "";
        if entries[i].content.prevHash != expectedPrev {
          return false;
        }
      }
      return true;
    }
  }

  // What verify_chain decides is Chained.
  lemma ChainedIs<Payload(!new)>(digest: Digest<Payload>, entries: seq<Entry<Payload>>)
    ensures Chained(digest, entries) <==>
            forall i :: 0 <= i < |entries| ==>
              && entries[i].entryHash == digest(entries[i].content)
              && entries[i].content.prevHash == if i > 0 then entries[i - 1].entryHash else ""
  {
    forall i | 0 <= i < |entries|
      ensures Verifies(digest, entries[i]) && entries[i].content.prevHash == Previous(entries, i) <==>
              && entries[i].entryHash == digest(entries[i].content)
              && entries[i].content.prevHash == if i > 0 then entries[i - 1].entryHash else ""
    {
    }
  }

  lemma AppendChained<Payload(!new)>(digest: Digest<Payload>, entries: seq<Entry<Payload>>, e: Entry<Payload>)
    ensures Chained(digest, entries + [e]) <==>
            Chained(digest, entries) && Verifies(digest, e) && e.content.prevHash == Previous(entries, |entries|)
  {
    var more := entries + [e];
    assert more[|entries|] == e;
    forall i | 0 <= i < |entries| ensures more[i] == entries[i] && Previous(more, i) == Previous(entries, i) {
    }
    assert Previous(more, |entries|) == Previous(entries, |entries|);
    if Chained(digest, more) {
      forall i | 0 <= i < |entries|
        ensures Verifies(digest, entries[i]) && entries[i].content.prevHash == Previous(entries, i)
      {
        assert Verifies(digest, more[i]) && more[i].content.prevHash == Previous(more, i);
      }
    }
  }

  // ----- runs -----

  datatype Event<Payload> = Event(eventType: EventType, actor: string, payload: Payload, now: real)

  function Log<Payload>(digest: Digest<Payload>, events: seq<Event<Payload>>): seq<Entry<Payload>> {
    if |events| == 0 then []
    else
      var before := Log(digest, events[..|events| - 1]);
      var e := events[|events| - 1];
      before + [NewEntry(digest, Content(|before|, e.eventType, e.actor, e.payload, e.now, Previous(before, |before|)))]
  }

  // Every run of appends verifies, and nothing is left out or reordered.
  lemma {:induction false} AppendsVerify<Payload(!new)>(digest: Digest<Payload>, events: seq<Event<Payload>>)
    ensures Chained(digest, Log(digest, events))
    ensures |Log(digest, events)| == |events|
    ensures forall i :: 0 <= i < |events| ==>
              var c := Log(digest, events)[i].content;
              c.sequence == i && Event(c.eventType, c.actor, c.payload, c.timestamp) == events[i]
  {
    if |events| == 0 {
    } else {
      var before := events[..|events| - 1];
      AppendsVerify(digest, before);
      var log := Log(digest, events);
      AppendChained(digest, Log(digest, before), log[|before|]);
      forall i | 0 <= i < |events|
        ensures var c := log[i].content;
                c.sequence == i && Event(c.eventType, c.actor, c.payload, c.timestamp) == events[i]
      {
        if i < |before| {
          assert log[i] == Log(digest, before)[i] && events[i] == before[i];
        }
      }
    }
  }

  // Some content of one log and another of the other have the same digest.
  ghost predicate Collide<Payload>(digest: Digest<Payload>, a: seq<Entry<Payload>>, b: seq<Entry<Payload>>) {
    exists i, j :: 0 <= i < |a| && 0 <= j < |b| &&
      a[i].content != b[j].content && digest(a[i].content) == digest(b[j].content)
  }

  lemma CollideLonger<Payload>(digest: Digest<Payload>, a: seq<Entry<Payload>>, b: seq<Entry<Payload>>,
                               x: Entry<Payload>, y: Entry<Payload>)
    requires Collide(digest, a, b)
    ensures Collide(digest, a + [x], b + [y])
  {
    var i, j :| 0 <= i < |a| && 0 <= j < |b| &&
      a[i].content != b[j].content && digest(a[i].content) == digest(b[j].content);
    assert (a + [x])[i] == a[i] && (b + [y])[j] == b[j];
  }

  // Two logs that verify and end in the same hash are the same log: same length, same entries, or
  // else their contents collide.
  lemma {:induction false} HeadBinds<Payload(!new)>(digest: Digest<Payload>, a: seq<Entry<Payload>>,
                                             b: seq<Entry<Payload>>)
    requires FixedLength(digest) && Chained(digest, a) && Chained(digest, b) && |a| > 0 && |b| > 0
    requires a[|a| - 1].entryHash == b[|b| - 1].entryHash
    ensures a == b || Collide(digest, a, b)
    decreases |a|
  {
    var m, n := |a| - 1, |b| - 1;
    LastOf(digest, a);
    LastOf(digest, b);
    HashNotEmpty(digest, a[..m]);
    HashNotEmpty(digest, b[..n]);
    if a[m].content != b[n].content {
      assert Collide(digest, a, b);
    } else if m > 0 && n > 0 {
      hide Chained, Collide, FixedLength;
      HeadBinds(digest, a[..m], b[..n]);
      if a[..m] != b[..n] {
        CollideLonger(digest, a[..m], b[..n], a[m], b[n]);
      }
    }
  }

  lemma LastOf<Payload(!new)>(digest: Digest<Payload>, entries: seq<Entry<Payload>>)
    requires Chained(digest, entries) && |entries| > 0
    ensures var n := |entries| - 1;
            && entries == entries[..n] + [entries[n]] && Chained(digest, entries[..n])
            && Verifies(digest, entries[n]) && entries[n].content.prevHash == Previous(entries[..n], n)
  {
    var n := |entries| - 1;
    assert entries == entries[..n] + [entries[n]];
    AppendChained(digest, entries[..n], entries[n]);
  }

  // Only the first entry refers to nothing.
  lemma HashNotEmpty<Payload(!new)>(digest: Digest<Payload>, entries: seq<Entry<Payload>>)
    requires FixedLength(digest) && Chained(digest, entries)
    ensures Previous(entries, |entries|) == "" <==> |entries| == 0
  {
    if |entries| > 0 {
      assert Verifies(digest, entries[|entries| - 1]);
    }
  }

  // Every prefix of a log that verifies does.
  lemma PrefixVerifies<Payload>(digest: Digest<Payload>, entries: seq<Entry<Payload>>, n: nat)
    requires Chained(digest, entries) && n <= |entries|
    ensures Chained(digest, entries[..n])
  {
    forall i | 0 <= i < n
      ensures Verifies(digest, entries[..n][i]) && entries[..n][i].content.prevHash == Previous(entries[..n], i)
    {
      assert Previous(entries[..n], i) == Previous(entries, i);
    }
  }
}
