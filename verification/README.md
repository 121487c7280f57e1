# Verified model of the inference node and its on-chain programs

This project models the stateful parts of a decentralised inference node (`node/`) and two of its Solana
programs (`programs/`) in Dafny, and proves what they keep over whole runs. Code that updates objects in
place is a class with the same fields whose methods are proved against functions or relations on values;
the lemmas are about those.

* **Speculative decoding** (`Vectors`, `SpeculativeLaw`, `SpeculativePosition`, `SpeculativeLossless`,
  `SpeculativeDecoder`, `SpeculativeGuard`, `SpeculativeRules`, `SpeculativeProposals`,
  `SpeculativeTargets`, `SpeculativeEos`, `SpeculativeStop`). What the code does with random numbers is a
  finite tree of weighted draws and biased coins; `Expect` is the expectation of an observation of the
  tokens. The decode loop, with drafting, accept/reject, residual resampling, bonus token, clipping to
  the budget, the stop token and the 1e-10 guards, has the law of plain sampling up to `2 (V + 1) eps`
  per token. It has exactly that law for all models if and only if the guard is zero, and with a guard
  exactly for the models to which the guard is harmless. The methods consume a ghost tree step by step,
  which ties the loops of the code to the law.
* **Paged KV cache** (`KvHistory`, `KvCache`, `KvPairs`, `KvSharing`, `KvResidue`). Block tables,
  reference counts, free set and one shared store refine one independent map per sequence: what a read
  returns at a position that has been written, or inherited from the sequence the prefix was shared from,
  is the last pair written there, and no call changes what another sequence reads. A sequence written
  token after token on all layers reads back exactly its tokens; one that shares a prefix and writes into
  it reads its own pair there and the source's everywhere else.
* **Gossip** (`GossipFlood`, `GossipFanout`, `GossipReach`, `Gossip`). `receive` re-enters itself through
  the peers. Its outcome is a relation on who has got the message and with which ttl; safety,
  termination, fanout and delivery are proved on the relation and carried over to the recursive methods.
* **Result cache** (`ResultCache`, `ResultCacheResidency`). LRU with expiry: inclusion of a smaller cache
  in a bigger one on the same trace, agreement of every hit with the latest put, and from the trace alone
  exactly which keys are held.
* **Continuous batching** (`Scheduling`, `SchedulingProofs`, `SchedulingConditions`, `SchedulingTokens`,
  `SchedulingRaise`, `Batcher`). The scheduler as a function, the batcher as classes with the same
  effect. Two places of the code depart from its documented intent (below); the functions have a flag for
  them.
* **Hash-authenticated structures** (`ByteStrings`, `Merkle`, `VerificationPipeline`, `AuditLog`). The
  hash is a parameter of fixed output length. Soundness claims end in a collision between two inputs that
  were actually hashed.
* **Job market and governance** (`TokenLedger`, `Market`, `MarketParties`, `Governance`,
  `GovernanceVotes`, `GovernanceTally`, `GovernanceWallets`). Every instruction is a function to a new
  state or an abort that changes nothing; the invariants hold over all runs of instructions and of
  transfers between wallets, and who is paid, who may act and what the tallies are is stated in terms of
  the steps of a run that went through.
* **Rate limiter, sibling list, frames, shards** (`RateLimiter`, `SiblingList`, `Frame`,
  `ShardPipeline`).
* `Outcomes` (raised exceptions, Python's list indices and ceilings) and `Collections` are shared.

Conventions: exceptions are `Err`/`Abort` results; clock readings are parameters that never decrease;
`random.*` and `set.pop` are arbitrary choices; probabilities, tokens and times are reals; tensors are
opaque values. `dafny verify dfyconfig.toml` checks everything.

## Where the code and its documentation differ

* `node/continuous_batcher.py:296` rebuilds the waiting queue from the requests admission looked at, so
  those it preempted meanwhile (put in front of the queue by line 433) are in no queue any more. This
  happens exactly if somebody runs and the first waiting requests, as many as there is room for, lack
  more blocks than are free (`SchedulingConditions.AdmissionLosesIff`); `SchedulingProofs.LostRequest`
  gives a schedule.
* `node/continuous_batcher.py:304` iterates over a snapshot, so a request preempted earlier in the same
  loop is given blocks while waiting, or queued twice. If the free blocks cover what those requests and
  the running ones lack, nobody is preempted and schedule does what is intended
  (`SchedulingConditions.PreemptsNobodyIff`, `AsIntendedWithRoom`); if they run out at a request that
  runs before the one of the least priority, it does not (`DepartsWhenWeakestIsLater`). In between,
  `SchedulingProofs.GrowthAgreesIff` and `ScheduleAsIntendedIff` show that these two places are the only
  ones at which they can differ. Capacity is proved on the code as it is, conservation over runs on the
  intended form, and on the code for runs all of whose schedules start with room
  (`SchedulingConditions.RoomyRunAsIntended`).
* A request queued twice can be admitted twice and then preempt itself, so that a later `schedule` raises
  MemoryError: `SchedulingRaise.RunReachesARaise` is a run of the code with two requests that gets there.
  Or it can be finished while its other entry waits on (`SchedulingRaise.RunFinishesTheWaiting`). That
  finished requests, and no others, have all their tokens is proved on the intended form, and on the code
  for runs all of whose schedules start with room (`SchedulingTokens.TokensAsHanded`, `TokensAsWritten`).
* The guards against division by zero at `node/speculative_decoder.py:362` and `:395` make decoding lossy
  by a bounded amount. It is exact for all models if and only if they are zero
  (`SpeculativeGuard.LosslessIffNoGuard`), and with a guard exactly if the guard is harmless to the two
  laws in every context (`SpeculativeGuard.LosslessIffHarmless`), for instance where every token has no
  draft mass, no target mass, or a target mass that exceeds its draft mass by the guard
  (`SpeculativeGuard.ClearIsExact`). For a given draft model it is exact for every target if and only if
  there is no guard, or the draft is uniform and the guard at least 1 - 1/V
  (`SpeculativeTargets.LosslessForAllIff`).
* `top_k` restricts what is drafted but not the probabilities that are reported
  (`node/speculative_decoder.py:110-114` and `:120-128`). With it decoding is lossless for every target
  if and only if it is without it and `top_k` never drops a token that the draft law gives any mass
  (`SpeculativeTargets.TopKLosslessForAllIff`).
* Verification without draft probabilities is called conservative (`node/speculative_decoder.py:285`); it
  is lossless for every target if and only if there is no guard and the drafts are drawn uniformly
  (`SpeculativeTargets.UnclaimedLosslessForAllIff`).
* "Generation stops when this token is produced" (`node/speculative_decoder.py:218-219`): the decode loop
  looks for the stop token once per block and keeps what the block has after it. Nothing ever follows it
  if and only if after every context the draft, restricted to its `top_k`, or the target gives it no mass
  (`SpeculativeStop.CodeStopsIff`); `SpeculativeEos.PastEos` is an instance of the other case. Up to the
  first stop token the law is that of plain decoding (`SpeculativeEos.CutLaw`).
* `node/kv_cache.py`: the fill level is one number for all layers, and blocks are not cleared when they
  are allocated. Reading a position that was skipped, or a layer not yet written, can return what a freed
  sequence left there, whatever the gaps are (`KvResidue.ResidueAtEveryGap`).
* `node/gossip.py:46-48` drops duplicates for `seen_ttl_seconds` only: a copy that arrives later is
  accepted and forwarded again (`Gossip.GossipNode.ReceiveAgain`).
* `node/gossip.py`: "reached within ttl hops" fails, because the depth-first flood may go the long way
  round first (`GossipFlood.LongWayRoundBurnsTtl`). For networks of n nodes a ttl is enough, whatever the
  network, if and only if it is at least n (`GossipReach.EnoughTtlIff`).
* `node/result_cache.py:29`: two requests can share a slot, exactly if a name or a prompt contains a
  colon (`ResultCache.SharesSlotIff`).
* `node/merkle.py:60-62` promises an index range "unpadded"; the code accepts every index of the padded
  list. The root does not bind the number of leaves, and `verify_proof` does not compare the token count:
  what is accepted, of any length, is what pads to the same tokens (`VerificationPipeline.SameRootIff`,
  `RepeatedTokensAccepted`).
* `programs/governance/src/lib.rs:98-99` leaves out snapshots: voting power is the balance at vote time,
  so tokens paid on are voted again (`GovernanceTally.TokensCountTwice`). Tallies exceed the supply by no
  more than was paid from wallets that had voted to wallets that had not (`GovernanceTally.TallyBound`),
  and exceed it exactly if more came into wallets that had not voted than left them and is there still
  (`GovernanceWallets.MoreVotesThanTokensIff`).
* `programs/governance/src/lib.rs:14` says the bond of a failed proposal is burned; the code leaves it
  where it is for ever (`Governance.FailedKeepsBond`).
* `programs/inference-market/src/lib.rs`: disputed jobs, and claimed ones whose fee overflows a u64, keep
  their payment in escrow for ever; every other live job can be paid out (`Market.StuckForever`,
  `Market.PaidUnlessStuck`).

## Model

| member | source | states |
|---|---|---|
| SpeculativePosition.EmissionError | node/speculative_decoder.py:351-400 | one verified position (accept with min(1, q/(p+eps)), else resample the guarded residual) emits the target distribution q up to an L1 distance of 2(V+1)eps |
| SpeculativePosition.ResampledIs | node/speculative_decoder.py:381-397 | the weights the correction is drawn from are a distribution, the one of the guarded residual with its fallback to q |
| SpeculativeLossless.HoistFlip | node/speculative_decoder.py:351-400 | a coin whose bias does not depend on the draws before it may be flipped before them without changing any expectation |
| SpeculativeLossless.VerifyEarly | node/speculative_decoder.py:488-510 | verifying a position after the whole block was drafted is verifying it as soon as it is drafted |
| SpeculativeLossless.DecodeWithin | node/speculative_decoder.py:487-528 | if every position emits a law that values every bounded vector as the target does, up to some error, then the decode loop's expectation is that of plain sampling up to that error per token, by induction through blocks, bonus token and clipping |
| SpeculativeLossless.DecodeNear | node/speculative_decoder.py:487-528 | in particular, for every bounded observation it is so up to 2(V+1)eps per token |
| SpeculativeLossless.BonusClipped | node/speculative_decoder.py:402-407 | when the budget is spent by a block that was accepted whole, the bonus token is dropped and changes nothing |
| SpeculativeDecoder.PlainLaw | node/speculative_decoder.py:470-477 | plain sampling gives a token sequence the product of the target's conditional probabilities |
| SpeculativeDecoder.LossBound | node/speculative_decoder.py:416-536 | the probability of every outcome of speculative decoding differs from the target's chain probability by at most 2(V+1)eps per token |
| SpeculativeDecoder.Lossless | node/speculative_decoder.py:416-536 | without the guard, speculative and plain decoding agree on the expectation of every bounded observation |
| SpeculativeDecoder.LosslessChain | node/speculative_decoder.py:416-536 | without the guard, the joint law of the tokens is the target's |
| SpeculativeDecoder.ExactWithoutGuard | node/speculative_decoder.py:351-400 | without the guard, one position emits q itself |
| SpeculativeDecoder.GuardDistorts | node/speculative_decoder.py:362 | with any positive guard there are a draft and a target law for which a position does not emit the target |
| SpeculativeDecoder.ExactIffNoGuard | node/speculative_decoder.py:351-400 | exactness of a position for all laws holds if and only if the guard is zero |
| SpeculativeGuard.ExactAtIff | node/speculative_decoder.py:351-400 | with a guard, a position emits exactly the target if and only if what the guard takes from the accepted mass is proportional to the residual (or, if the residual counts as empty, the accepted mass to the target) |
| SpeculativeGuard.ClearIsExact | node/speculative_decoder.py:362-395 | it does so if each token has no draft mass, no target mass, or target mass exceeding its draft mass by the guard |
| SpeculativeGuard.OverlapDistorts | node/speculative_decoder.py:362-395 | and does not if the residual is not empty and some token has positive target mass no larger than its draft mass |
| SpeculativeGuard.OneTokenLaw | node/speculative_decoder.py:416-536 | with a budget of one token the decode loop appends each token with the probability of its position's emission |
| SpeculativeGuard.LosslessIffHarmless | node/speculative_decoder.py:416-536 | for given models and a positive guard, all outcomes of all runs have the target's probabilities if and only if the guard is harmless in every context |
| SpeculativeGuard.GuardDistortsDecoder | node/speculative_decoder.py:416-536 | models for which, with any positive guard, the decode loop gives an outcome another probability than the target does |
| SpeculativeGuard.LosslessIffNoGuard | node/speculative_decoder.py:416-536 | the decode loop is lossless for all models if and only if the guard is zero |
| SpeculativeRules.DecodeAgrees | node/speculative_decoder.py:416-536 | rules that draw, accept and resample alike on the models' laws, and stop alike, give every observation the same expectation |
| SpeculativeProposals.OneTokenMixture | node/speculative_decoder.py:130-410 | under any rule of drawing, accepting and resampling, the law of a single token: drawn and accepted, or resampled |
| SpeculativeProposals.TopKDistorts | node/speculative_decoder.py:110-114 | where target and draft are the same law, a token that top_k drops is emitted with less than its probability, for every guard |
| SpeculativeProposals.UnclaimedLosslessIff | node/speculative_decoder.py:363-387 | without the guard, for vocabularies of any size, verifying without draft probabilities is lossless for every target if and only if the drafts are drawn uniformly |
| SpeculativeTargets.HarmlessForAllIff | node/speculative_decoder.py:351-400 | at one position a guard is harmless for every target law if and only if the draft law is uniform and the guard at least 1 - 1/V |
| SpeculativeTargets.LosslessForAllIff | node/speculative_decoder.py:416-536 | for a given draft model and any guard, the decode loop is lossless for every target model if and only if there is no guard, or the draft is uniform in every context and the guard at least 1 - 1/V |
| SpeculativeTargets.TopKLosslessForAllIff | node/speculative_decoder.py:110-128 | for any guard, drafting with top_k is lossless for every target if and only if it drops nothing that has mass and drafting without it is lossless for every target |
| SpeculativeTargets.UnclaimedLosslessForAllIff | node/speculative_decoder.py:363-395 | for any guard, verifying without draft probabilities is lossless for every target if and only if there is no guard and the drafts are drawn uniformly |
| SpeculativeEos.PlainUntilSame | node/speculative_decoder.py:470-479 | stopping plain decoding at the stop token changes no observation that does not look beyond it |
| SpeculativeEos.DecodeNearUntil | node/speculative_decoder.py:487-528 | with the stop token, the decode loop values every bounded observation that does not look beyond its first occurrence as plain decoding that stops there does, up to the guard |
| SpeculativeEos.CodeNear | node/speculative_decoder.py:416-536 | so does the decode loop, up to 2(V+1) times 1e-10 per token, for a top_k that drops nothing, with or without a stop token |
| SpeculativeEos.CutLaw | node/speculative_decoder.py:524-528 | every text up to the first stop token has the probability it has under plain decoding, up to the guard |
| SpeculativeEos.CodeNearWithoutTopK | node/speculative_decoder.py:416-536 | in particular without top_k, for all models |
| SpeculativeEos.PastEos | node/speculative_decoder.py:524-528 | an instance: models for which plain decoding returns the stop token alone and the decode loop, with positive probability, more |
| SpeculativeStop.NothingFollowsIff | node/speculative_decoder.py:487-528 | under any rule of drawing, accepting and resampling: nothing follows the stop token, from no prompt and within no budget, if and only if after no context a draft of it can be both drawn and accepted |
| SpeculativeStop.CodeStopsIff | node/speculative_decoder.py:524-528 | in the decode loop of the code nothing ever follows the stop token if and only if after every context the draft, restricted to its top_k, or the target gives it no mass |
| SpeculativeStop.StopsWithoutTopKIff | node/speculative_decoder.py:524-528 | without top_k and for any positive guard: if and only if the two models never give it mass after the same context |
| SpeculativeDecoder.GenerateDraft | node/speculative_decoder.py:100-170 | k tokens, each drawn from the draft distribution of what precedes it restricted to its top_k, and the unrestricted distributions; follows the drafting part of the law |
| SpeculativeDecoder.VerifyAndAccept | node/speculative_decoder.py:351-410 | with and without draft probabilities: the accepted prefix of the draft and one token more, at most one rejection with its correction; follows the verifying part of the law |
| SpeculativeDecoder.ResidualWeights | node/speculative_decoder.py:381-395 | the normalised positive part of q - p, or of q if it sums to less than the guard; a proper weight vector |
| SpeculativeDecoder.DecodeSpeculative | node/speculative_decoder.py:416-536 | max_tokens tokens, or fewer if the stop token is among them, sampled by the tree of the law; accepted and rejected tokens are the coins that came out so, and the tokens generated are the accepted ones plus one per block, up to max_tokens |
| SpeculativeDecoder.DecodeBlock | node/speculative_decoder.py:488-528 | one iteration emits the accepted drafts and one token more, up to the remaining budget, and leaves the law of the rest, or nothing more if the stop token is among them |
| SpeculativeDecoder.DecodePlain | node/speculative_decoder.py:467-485 | the fallback samples by the plain law max_tokens tokens or until the stop token, which can only be the last |
| KvCache.PagedKVCache.Allocate | node/kv_cache.py:80-99 | ValueError if known, MemoryError exactly if too few blocks are free, both without effect; else a table of free blocks, and every other view kept |
| KvCache.PagedKVCache.Free | node/kv_cache.py:101-113 | the sequence is gone, unknown ids change nothing, other views are kept |
| KvCache.PagedKVCache.Write | node/kv_cache.py:115-146 | which error is raised, in the order of the checks; else the pair is at page tokenPos // block_size (counted from the end if negative) and slot tokenPos % block_size, whoever else holds the page, is what the history has at tokenPos, and everything else of the sequence and all other sequences read as before |
| KvCache.PagedKVCache.Read | node/kv_cache.py:148-179 | as many keys and values as the fill level, which is the level of the history; at every position with a logged or inherited write the last such pair, so exactly the logged pairs if the layer has no gaps; elsewhere what the block happens to hold |
| KvPairs.WritePair | node/kv_cache.py:115-146 | by token positions, in any cache: the sequence holds the pair at that position and what it held at every other; fails exactly if the page is shared and no block is free |
| KvSharing.ShareAndWrite | node/kv_cache.py:115-211 | a sequence that shares a prefix and writes at a position of it reads its own pair there and the source's at every other position, and the source reads what it did; fails exactly if no block is free for the copy |
| KvSharing.WriteInto | node/kv_cache.py:115-146 | a write changes one position of one layer of one sequence, in terms of what all sequences hold |
| KvResidue.ResidueAtEveryGap | node/kv_cache.py:80-179 | whatever positions of whatever layers a sequence writes, after another has filled the pool and been freed, a read returns the last pair written at each written position of the layer and the freed sequence's at each gap |
| KvResidue.ResidueIsRead | node/kv_cache.py:148-179 | an instance with one block of two slots |
| KvCache.PagedKVCache.SharePrefix | node/kv_cache.py:181-211 | the errors; else the new sequence holds what the source holds on the shared pages, and no view changes |
| KvCache.PagedKVCache.CowClone | node/kv_cache.py:222-246 | MemoryError without effect if no block is free; else a private copy of the page, and no view changes |
| KvCache.PagedKVCache.OwnPage | node/kv_cache.py:136-138 | afterwards the sequence is the page's only holder; fails without effect exactly if the page is shared and no block is free |
| KvCache.PagedKVCache.ReleaseBlocks | node/kv_cache.py:106-110 | each block has one holder fewer, and is free when it had one |
| KvCache.AccountingAdd | node/kv_cache.py:91-97 | a new table with its counts keeps refcount = number of holders, free = no holder, no repeats |
| KvCache.AccountingRemove | node/kv_cache.py:106-113 | so does removing a table |
| KvCache.AccountingClone | node/kv_cache.py:231-244 | so does moving one page to a fresh block |
| KvCache.PoolPartition | node/kv_cache.py:63-71 | free and held blocks partition the pool, and their numbers add up to it |
| KvCache.NoSequencesFullPool | node/kv_cache.py:101-113 | when every sequence has been freed the whole pool is free |
| KvCache.UniqueHolder | node/kv_cache.py:136-141 | a block with reference count one has a single holder, so writing it affects nobody else |
| KvHistory.AppendsHold | node/kv_cache.py:115-146 | writing whole tokens, one after the other from the fill level on, leaves on every layer exactly their pairs there and what was below |
| KvHistory.AppendedHolds | node/kv_cache.py:80-146 | a sequence that is allocated and then written token after token, whatever other sequences do meanwhile, has no gaps and holds exactly its tokens' pairs on every layer |
| KvHistory.SharedNoGaps | node/kv_cache.py:181-211 | sharing no more than the source has filled without gaps gives a sequence without gaps that holds the source's pairs |
| KvHistory.OnlyOwnWrites | node/kv_cache.py:80-211 | what a sequence holds after writes of its own, interleaved with any calls on others, depends on its own writes alone |
| KvHistory.OthersDoNotMatter | node/kv_cache.py:80-211 | calls on other sequences never change what a sequence reads |
| KvHistory.SharedPrefixIsASnapshot | node/kv_cache.py:181-211 | a shared prefix reads what the source had written then, whatever the source does afterwards |
| GossipFlood.FloodSpreads | node/gossip.py:72-104 | safety for any fanout and choice: nobody accepts twice, and who accepts with ttl t is ttl - t links from the origin, at most ttl - 1 |
| GossipFanout.PassesOn | node/gossip.py:89-104 | for any fanout, state and ttl above 1: a node that accepts passes the message to min(fanout, peers other than the sender) of them, which have all accepted when it is done; with two hops nobody else has come to |
| GossipFanout.AtLeastFanout | node/gossip.py:89-104 | so at least that many of its other peers have it |
| GossipFanout.TwoHopsCount | node/gossip.py:89-104 | a fresh message with ttl 2 is accepted by exactly one node more than that |
| GossipFlood.FloodCloses | node/gossip.py:72-104 | with full fanout and a ttl of at least the number of nodes left, whoever accepts has all neighbours accepting |
| GossipFlood.BroadcastReaches | node/gossip.py:106-112 | then a node gets the broadcast if and only if it is reachable |
| GossipFlood.LongWayRoundBurnsTtl | node/gossip.py:101-102 | a network in which a node within ttl links is not reached |
| GossipReach.EnoughTtlIff | node/gossip.py:72-112 | a ttl makes every broadcast in every full-fanout network of n nodes reach all reachable nodes if and only if it is at least n |
| GossipReach.FarEndMissed | node/gossip.py:72-104 | on a line of n nodes with a smaller ttl no flood from one end reaches the other, reachable as it is |
| GossipReach.FloodHappens | node/gossip.py:72-104 | every message has an outcome: there is a flood for every network, state and ttl |
| GossipFlood.FloodAllSnoc | node/gossip.py:101-102 | forwarding to one peer more extends the relation, as the loop does |
| Gossip.GossipNode.Receive | node/gossip.py:72-104 | terminates; in any case an accepted message had ttl > 0, was unseen or pruned, and is in the inbox, a refused one with ttl > 0 was seen within the window, and no inbox loses anything; if nothing stamped meanwhile expires, accepts exactly if unseen and ttl > 0, the cascade is a flood, every inbox grows by one copy exactly where it accepted, and min(fanout, peers other than the sender) of these peers have accepted or had before |
| Gossip.GossipNode.ReceiveAgain | node/gossip.py:72-118 | a copy that arrives more than seen_ttl_seconds after the first was accepted is accepted and recorded again |
| Gossip.GossipNode.Forward | node/gossip.py:101-102 | the loop over the chosen peers is the flood along that order |
| Gossip.GossipNode.Broadcast | node/gossip.py:106-112 | if nothing stamped meanwhile expires, every node gets at most one copy, along a walk of at most ttl - 1 links; min(fanout, peers) peers get one, and with ttl 2 nobody else but the node itself; with full fanout and enough ttl exactly the reachable ones get one |
| Gossip.GossipNode.PruneSeen | node/gossip.py:114-118 | keeps exactly the ids stamped within the window |
| Gossip.GossipNode.AddPeer | node/gossip.py:65-67 | adds a peer, never the node itself |
| Gossip.Sample | node/gossip.py:89-90 | min(fanout, candidates) distinct candidates |
| ResultCache.BiggerNeverMisses | node/result_cache.py:32-68 | on the same trace a cache of capacity n >= m >= 1 hits, with the same text, wherever one of capacity m does |
| ResultCache.RunIncluded | node/result_cache.py:32-68 | the small cache's entries are at all times among the large one's, in the same order and with equal texts and times |
| ResultCache.StepIncluded | node/result_cache.py:32-68 | every call keeps that inclusion |
| ResultCache.EvictIncluded | node/result_cache.py:54-56 | evicting from either or both keeps it |
| ResultCache.HitIsLatestPut | node/result_cache.py:32-64 | a hit returns the latest put of that key, which has neither expired nor been invalidated |
| ResultCacheResidency.SinceIsBehind | node/result_cache.py:32-68 | a key is held exactly if the trace has not crowded it out: from the trace alone, the set of other keys used since and still held, of which a put makes fewer than the capacity |
| ResultCacheResidency.HitIff | node/result_cache.py:32-44 | a get hits if and only if the key is held in that sense and its latest put has not expired, and then returns that put |
| ResultCacheResidency.RoomyHits | node/result_cache.py:32-56 | if no more than max_size distinct keys are put in the whole trace, however often, every unexpired, uninvalidated put is hit |
| ResultCacheResidency.HeldIffFewPuts | node/result_cache.py:46-56 | a key put and followed by puts of others is held if and only if those were fewer than max_size distinct keys |
| ResultCache.RunKeeps | node/result_cache.py:46-56 | over every run keys stay distinct and the size within capacity; with capacity 0 nothing is ever stored |
| ResultCache.RawKeyInjective | node/result_cache.py:27-30 | model names without a colon never share a slot |
| ResultCache.SharesSlotIff | node/result_cache.py:29 | another request with the same key text exists if and only if the name or the prompt contains a colon |
| ResultCache.ResultCache.Get | node/result_cache.py:32-44 | a hit gives the text of the entry and makes it the last, a missing or expired entry is gone afterwards, all others stay; the entries are those of the list operation |
| ResultCache.ResultCache.Put | node/result_cache.py:46-56 | KeyError at capacity zero; else the entry is the last, and of the others only the least recently used goes, if a new key finds the cache full; the entries are those of the list operation |
| ResultCache.ResultCache.Invalidate | node/result_cache.py:58-64 | removes the entry and says whether there was one |
| SchedulingProofs.ScheduleCapacity | node/continuous_batcher.py:255-341 | on the code as it is, whatever the queues hold: the batch is in FCFS order, has at most min(batch size, token budget) members, all running, and every running request owns the blocks for its next token |
| SchedulingProofs.ScheduleNeverRaises | node/continuous_batcher.py:272-293 | from distinct ids no allocation of a schedule fails |
| SchedulingProofs.RunAsWrittenBounded | node/continuous_batcher.py:249-392 | over every run of the code as written, whatever is added, no more than max_batch_size requests run and no batch exceeds it or the token budget |
| SchedulingProofs.AdmissionFits | node/continuous_batcher.py:272-293 | unless an id is both waiting and running, admission never raises MemoryError |
| SchedulingProofs.GrowNeverRunsOut | node/continuous_batcher.py:308-318 | the except branch of growth is never taken |
| SchedulingProofs.GrowOneProvides | node/continuous_batcher.py:305-318 | growing one request leaves it provided for or preempted and takes nothing from those that stay |
| SchedulingProofs.StepAllocatesNothing | node/continuous_batcher.py:366-383 | a step whose batch is provided for takes no block |
| SchedulingProofs.BatchThenStep | node/continuous_batcher.py:255-383 | so a step after a schedule takes none |
| SchedulingProofs.AdmissionConserves | node/continuous_batcher.py:272-300 | as written the requests that leave waiting and running in admission are exactly its victims; as intended nobody leaves |
| SchedulingConditions.AdmissionLosesIff | node/continuous_batcher.py:272-296 | admission as written keeps all requests if and only if nobody runs or the free blocks cover what the first waiting requests, as many as there is room for, lack |
| SchedulingConditions.AdmissionPreemptsIff | node/continuous_batcher.py:272-293 | under the same condition admission preempts nobody |
| SchedulingConditions.PreemptsNobodyIff | node/continuous_batcher.py:255-341 | schedule as written preempts nobody if and only if nobody runs or the free blocks cover what those and the running requests lack; then growth visits nobody who was preempted |
| SchedulingConditions.AsIntendedWithRoom | node/continuous_batcher.py:255-341 | under that condition schedule does what is intended; it does not if blocks are short for the admissions alone while somebody runs |
| SchedulingConditions.DepartsWhenWeakestIsLater | node/continuous_batcher.py:304-318 | nor if the blocks run out at a running request and the request of least priority runs after it |
| SchedulingConditions.RoomyRunAsIntended | node/continuous_batcher.py:249-392 | a run of the code in which every schedule starts with room is the intended run, has each added request in exactly one place, and reaches no schedule that raises |
| SchedulingProofs.GrowthAgreesIff | node/continuous_batcher.py:304-318 | growth as written differs from growth as intended through visits to preempted requests and in no other way |
| SchedulingProofs.ScheduleAsIntendedIff | node/continuous_batcher.py:255-341 | schedule as written differs from schedule as intended through victims of admission and such visits, each of which makes a difference, and in no other way |
| SchedulingProofs.ScheduleLoses | node/continuous_batcher.py:272-318 | a victim of admission is in no queue after schedule as written, and in one as intended |
| SchedulingProofs.ScheduleKeeps | node/continuous_batcher.py:255-341 | intended scheduling neither loses nor doubles a request and leaves blocks only with running ones |
| SchedulingProofs.RunConserves | node/continuous_batcher.py:249-392 | over every run of add_request, schedule (as intended), step and get_finished each added request is in exactly one of waiting, running, finished, drained, and only running ones own blocks |
| SchedulingProofs.LostRequest | node/continuous_batcher.py:296 | a concrete schedule that loses a request |
| SchedulingProofs.NobodyLeftRunning | node/continuous_batcher.py:304 | a concrete schedule after which nobody runs and a waiting request owns all blocks |
| SchedulingRaise.RunReachesARaise | node/continuous_batcher.py:249-392 | a run of the code as written, two requests added once each, after which schedule raises MemoryError |
| SchedulingProofs.PreemptToFreeFacts | node/continuous_batcher.py:437-459 | preemption frees what it says, touches only running requests, and spares the excluded one |
| SchedulingProofs.PreemptLoopPrefix | node/continuous_batcher.py:453-458 | preemption takes the candidates in order and stops only when enough is freed or none is left |
| SchedulingProofs.VictimsAreWeakest | node/continuous_batcher.py:437-459 | a victim has at most the priority of any request spared, and arrived no earlier on a tie |
| SchedulingProofs.BatchIsEarliest | node/continuous_batcher.py:320-334 | a running request that is left out of the batch arrived no earlier than its members, with at most their priority on a tie |
| SchedulingProofs.BatchSize | node/continuous_batcher.py:320-334 | the batch has min(running, max_tokens_per_step) members, all running, each once |
| SchedulingProofs.SlotForTheNext | node/continuous_batcher.py:255-341 | whoever runs after a schedule owns blocks with a slot for each of its tokens and the next one |
| SchedulingConditions.AdmissionIsEarliest | node/continuous_batcher.py:268-300 | if the free blocks suffice, admission takes as many waiting requests as the batch size allows, and none that arrived after one it leaves |
| SchedulingTokens.StepAdvances | node/continuous_batcher.py:366-383 | a running request of a batch of distinct ids has its token appended; with all its tokens it is finished, no longer runs and owns nothing, else it runs on |
| SchedulingTokens.StepOrigin | node/continuous_batcher.py:366-383 | and nothing else runs or has been finished after a step |
| SchedulingTokens.TokensAsHanded | node/continuous_batcher.py:249-392 | over every intended run: waiting and running requests have the tokens handed to them, in order, and fewer than max_tokens; finished and drained ones have the tokens handed to them, exactly max_tokens |
| SchedulingTokens.TokensAsWritten | node/continuous_batcher.py:249-392 | the same on the code as written, for runs all of whose schedules start with room |
| SchedulingRaise.RunFinishesTheWaiting | node/continuous_batcher.py:249-392 | without that it can fail: a run of the code after which a request is finished, and waits |
| Batcher.BlockTable.Allocate | node/continuous_batcher.py:102-122 | all or nothing: distinct free blocks appended to the list, or MemoryError; lists and pool keep partitioning the blocks |
| Batcher.BlockTable.Free | node/continuous_batcher.py:124-132 | all blocks of the request return to the pool |
| Batcher.PartitionAfterAllocate | node/continuous_batcher.py:116-122 | taking free blocks keeps every block in the pool or in one list, once |
| Batcher.PartitionAfterFree | node/continuous_batcher.py:130-132 | so does returning a list |
| Batcher.NewBatcher | node/continuous_batcher.py:221-243 | ValueError unless all four sizes are positive; else an empty batcher with all blocks free |
| Batcher.ContinuousBatcher.AddRequest | node/continuous_batcher.py:249-253 | ValueError unless WAITING, else appended to the queue |
| Batcher.ContinuousBatcher.EnsureCapacity | node/continuous_batcher.py:153-166 | takes exactly the missing blocks, or fails without effect |
| Batcher.ContinuousBatcher.Preempt | node/continuous_batcher.py:427-435 | releases the blocks and moves the request from the running ones to the front of the waiting queue |
| Batcher.ContinuousBatcher.PreemptToFree | node/continuous_batcher.py:437-459 | the loop over the victims is the preemption function |
| Batcher.ContinuousBatcher.AdmitOne | node/continuous_batcher.py:272-293 | one round of admission, with the MemoryError that ends it |
| Batcher.ContinuousBatcher.GrowOne | node/continuous_batcher.py:304-318 | one round of growth |
| Batcher.ContinuousBatcher.Schedule | node/continuous_batcher.py:255-341 | the three loops are the scheduling function as written and its batch, or MemoryError in the state admission was in |
| Batcher.ContinuousBatcher.Step | node/continuous_batcher.py:343-383 | ValueError on different lengths, else the step function; for distinct ids each running request of the batch has its token appended, is finished, owns nothing and does not run if it has max_tokens with it, and runs on otherwise |
| Batcher.ContinuousBatcher.Finish | node/continuous_batcher.py:420-425 | releases the blocks and moves the request to the finished list |
| Batcher.ContinuousBatcher.GetFinished | node/continuous_batcher.py:388-392 | returns and clears the finished list |
| Merkle.PaddedLength | node/merkle.py:41-43 | the loop finds the least power of two not below the length |
| Merkle.Build | node/merkle.py:47-53 | the loops build the levels bottom-up |
| Merkle.NewTree | node/merkle.py:37-45 | ValueError for no leaves, else the tree over the padded leaves, with the root on top |
| Merkle.BottomUpIsTopDown | node/merkle.py:47-57 | the root is the hash of the roots of the two halves, recursively |
| Merkle.RootOfOne | node/merkle.py:47-57 | the root of one leaf is its hash |
| Merkle.RootOfHalves | node/merkle.py:47-57 | the root of two lists of equal length, a power of two, is the hash of the two roots, the first one's first |
| Merkle.GetProof | node/merkle.py:59-83 | IndexError exactly outside the padded list; else a proof of full depth whose directions spell the index and which verifies |
| Merkle.Siblings | node/merkle.py:66-76 | the loop collects the siblings; the clamp on the sibling index never binds |
| Merkle.PathFacts | node/merkle.py:64-76 | completeness: climbing from any position along its siblings gives the root |
| Merkle.Verify | node/merkle.py:20-28 | the loop decides whether climbing from the leaf hash gives the root |
| Merkle.ProofSound | node/merkle.py:20-28 | a proof of full depth with directions spelling i that verifies carries the hash of leaf i, or collides with the tree |
| Merkle.Binding | node/merkle.py:37-57 | equal lengths and equal roots mean equal leaves, or a collision among what the two trees hashed |
| Merkle.PaddedBinding | node/merkle.py:37-57 | the same for lists of equal padded length and their padded lists |
| Merkle.DepthBound | node/merkle.py:37-57 | lists of different depth do not share a root unless the first leaf of the shallower is as long as two digests, or there is a collision |
| Merkle.BindingOfAnyLength | node/merkle.py:37-57 | for lists of any lengths whose first leaves are not as long as two digests, equal roots mean equal padded lists or a collision |
| Merkle.PaddingNotBound | node/merkle.py:44 | a list and its padded list have the same root |
| Merkle.InnerNodeAsLeaf | node/merkle.py:5-10 | leaves and inner nodes are not told apart across different depths |
| ByteStrings.ReadBack | node/activation_stream.py:232 | big-endian fields read back as what was written |
| ByteStrings.ByteAt | node/activation_stream.py:232 | byte i of n in width bytes is n / 256^(width-1-i) modulo 256 |
| VerificationPipeline.BuildProof | node/verification_pipeline.py:73-126 | OverflowError for a token that is no u32, ValueError for none, else the commitment with the job's fields and the hashes of input and output, signed over their concatenation, the root of the token leaves and the token count |
| VerificationPipeline.OutputIdsAt | node/verification_pipeline.py:102 | the bytes hashed as output are four per token, the most significant first |
| VerificationPipeline.VerifyProof | node/verification_pipeline.py:194-211 | true, false or OverflowError, for every commitment, expected input, key and token list |
| VerificationPipeline.BuildAndVerify | node/verification_pipeline.py:73-211 | a proof as built is accepted for its tokens with the input hash and key it was built for, and with no other input hash or key |
| VerificationPipeline.PayloadBinds | node/zk_verifier.py:258-277 | with fixed lengths of hashes, sketch and timestamp, and no zero byte in a job id, the signed bytes determine every field |
| VerificationPipeline.VerifyTokenAtIndex | node/verification_pipeline.py:235-246 | true exactly if the index is in range and not negative, the token there is the claimed one and the root is the proof's; OverflowError is not caught |
| VerificationPipeline.SameRootIff | node/verification_pipeline.py:203-211 | collision-free, token lists of any lengths have the same root if and only if they pad to the same tokens |
| VerificationPipeline.AcceptedTokens | node/verification_pipeline.py:203-211 | whatever list is accepted, of any length, pads to the same tokens as the committed one, or there is a collision |
| VerificationPipeline.AcceptedAsMany | node/verification_pipeline.py:203-211 | of as many tokens as were committed to, only the committed ones are accepted, or there is a collision |
| VerificationPipeline.RepeatedTokensAccepted | node/verification_pipeline.py:203-211 | repeating the last token up to the padded length is accepted |
| AuditLog.AuditLog.Append | node/audit_log.py:62-74 | appends an entry with the event, its position, the last hash and the digest of all that; the log verifies afterwards if and only if it did before |
| AuditLog.AuditLog.VerifyChain | node/audit_log.py:76-87 | true exactly if every hash is recomputed and every link holds |
| AuditLog.AppendsVerify | node/audit_log.py:62-87 | every run of appends verifies and records the events in order |
| AuditLog.HeadBinds | node/audit_log.py:34-87 | two logs that verify and end in the same hash are the same in length and content, or two of their contents collide |
| AuditLog.PrefixVerifies | node/audit_log.py:76-87 | every prefix of a log that verifies does |
| TokenLedger.TransferFacts | programs/inference-market/src/lib.rs:51-60 | a covered transfer goes through, moves the amount and keeps the total |
| Market.ApplyKeeps | programs/inference-market/src/lib.rs:34-321 | every instruction keeps the escrow invariant, all tokens, and the job's terms, and moves a status only along its edges |
| Market.PaidOnce | programs/inference-market/src/lib.rs:34-321 | over every run escrows equal the payments of live jobs, tokens are constant, and what ever left a job's escrow is its payment once if it was completed or refunded, else nothing |
| Market.SettleFacts | programs/inference-market/src/lib.rs:151-189 | settlement goes through if and only if payment * 500 fits a u64; node and treasury get the payment between them, the treasury a twentieth rounded down |
| Market.DisputeOrSettle | programs/inference-market/src/lib.rs:202-289 | the time guards of dispute and auto_settle exclude each other and leave no gap |
| Market.ClaimOrRefund | programs/inference-market/src/lib.rs:94-321 | an open job can at any time be either claimed or refunded |
| Market.StuckForever | programs/inference-market/src/lib.rs:202-229 | disputed jobs, and claimed ones whose fee overflows, keep their payment in escrow whatever follows |
| Market.PaidUnlessStuck | programs/inference-market/src/lib.rs:116-321 | any other live job can be paid out by the next steps of its client and node |
| MarketParties.PostRecords | programs/inference-market/src/lib.rs:34-91 | post_job goes through exactly under its guards; the client's wallet pays, and the job has the client and terms posted |
| MarketParties.RecordedAlways | programs/inference-market/src/lib.rs:34-113 | over every run a job has the client and terms of the step that posted it and, exactly if it is neither open nor refunded, was claimed and has the node and the time of the claim |
| MarketParties.OneClaim | programs/inference-market/src/lib.rs:94-113 | no job is claimed twice |
| MarketParties.WhoActs | programs/inference-market/src/lib.rs:94-321 | over every run only the node of a job's claim submits, only the client that posted it accepts or disputes, the latter within 300 seconds of the claim, and auto_settle comes later than that |
| MarketParties.WhoIsPaid | programs/inference-market/src/lib.rs:142-289 | over every run the step that completes a job pays the node that claimed it the posted payment less a twentieth, which the treasury gets, and no other wallet anything |
| MarketParties.WhoIsRefunded | programs/inference-market/src/lib.rs:292-321 | and the one that refunds it pays the client that posted it |
| Market.RefundKeeps | programs/inference-market/src/lib.rs:292-321 | refund_expired succeeds exactly for an open job past its deadline and gives the client the payment |
| Market.Program.PostJob | programs/inference-market/src/lib.rs:34-91 | the instruction as written, aborts included, is the transition; a job posted has the client, the terms and the deadline of the instruction |
| Market.Program.ClaimJob | programs/inference-market/src/lib.rs:94-113 | the same for claim_job; the job has the claiming node and the time of the claim, and nothing else changes |
| Market.Program.SubmitResult | programs/inference-market/src/lib.rs:116-139 | the same for submit_result; only the job's node gets through |
| Market.Program.AcceptResult | programs/inference-market/src/lib.rs:142-199 | the same for accept_result; only the job's client gets through |
| Market.Program.DisputeResult | programs/inference-market/src/lib.rs:202-229 | the same for dispute_result; only the job's client gets through, within 300 seconds of the claim |
| Market.Program.AutoSettle | programs/inference-market/src/lib.rs:232-289 | the same for auto_settle; only later than 300 seconds after the claim |
| Market.Program.RefundExpired | programs/inference-market/src/lib.rs:292-321 | the same for refund_expired; only from the deadline on, and of an open job |
| Governance.RunKeeps | programs/governance/src/lib.rs:43-237 | over every run tallies are the sums of the recorded votes, a passed proposal met quorum and super-majority, bonds are held until execution, tokens are constant |
| Governance.ApplyKeeps | programs/governance/src/lib.rs:43-237 | every instruction keeps this, keeps all vote records, freezes tallies outside the active state and moves a status only along its edges and in its time |
| Governance.FinalizeFacts | programs/governance/src/lib.rs:154-186 | finalisation passes a proposal if and only if 10000(total+1) > 400 supply and 10000(for+1) > 6000 total, and goes through if and only if no product overflows |
| Governance.ExecuteKeeps | programs/governance/src/lib.rs:201-237 | execution succeeds exactly for a passed proposal past its time lock and returns the bond |
| Governance.ExecutedAfterNineDays | programs/governance/src/lib.rs:201-228 | an executed proposal was so more than nine days after its creation |
| Governance.FinalForever | programs/governance/src/lib.rs:144-237 | a finalised proposal keeps its tallies; a failed or executed one its status |
| Governance.FailedKeepsBond | programs/governance/src/lib.rs:168-186 | the bond of a failed proposal is never returned or burned |
| Governance.LargeSupplyNeverFinalises | programs/governance/src/lib.rs:161-166 | with a supply above U64_MAX / 400 no proposal is ever finalised |
| Governance.TallyOneMore | programs/governance/src/lib.rs:112-130 | one record more adds its power to the tally of its proposal and choice, and to no other |
| GovernanceVotes.CreateRecords | programs/governance/src/lib.rs:43-96 | create_proposal goes through exactly under its guards; the proposer's wallet pays 1000 tokens and is recorded with the times |
| GovernanceVotes.CastRecords | programs/governance/src/lib.rs:100-140 | cast_vote goes through exactly under its guards; it adds the voter's balance to the tally of the choice, leaves the other two alone and records choice and balance |
| GovernanceVotes.TalliesAreVotesGiven | programs/governance/src/lib.rs:100-140 | over every run each of the three tallies is the sum, over the cast_vote steps for that choice that went through, of the voter's balance at the step |
| GovernanceVotes.VotesRecorded | programs/governance/src/lib.rs:112-130 | over every run the vote records are those of the cast_vote steps that went through, with choice and balance |
| GovernanceVotes.RecordedAlways | programs/governance/src/lib.rs:43-196 | over every run a proposal has the proposer and times of the step that created it, was finalised exactly if it is not active, and is executable two days after that if it passed |
| GovernanceVotes.WhenThingsHappen | programs/governance/src/lib.rs:100-237 | over every run votes are cast within a week of the creation, finalisation comes later, execution two days after that at the earliest and pays the proposer 1000 tokens |
| GovernanceTally.StepBounded | programs/governance/src/lib.rs:43-237 | votes on a proposal plus the tokens of those who have not voted grow by no more than a payment moves from those who have to those who have not |
| GovernanceTally.TallyBound | programs/governance/src/lib.rs:100-140 | over every run the votes on a proposal are at most the supply plus what was paid from wallets that had voted on it to wallets that had not |
| GovernanceTally.TallyWithinSupply | programs/governance/src/lib.rs:100-140 | if wallets pay one another only while nobody has voted on it, the votes on a proposal are at most the supply |
| GovernanceTally.TokensCountTwice | programs/governance/src/lib.rs:98-109 | a run in which one holder's tokens are paid on and voted twice |
| GovernanceWallets.VotesAreSettled | programs/governance/src/lib.rs:43-237 | over every run the votes on a proposal and the tokens of the wallets that have not voted on it add up to the supply, plus what came into such wallets from voted ones or returned bonds, less what left them for voted ones or bonds |
| GovernanceWallets.MoreVotesThanTokensIff | programs/governance/src/lib.rs:98-140 | there are more votes than tokens if and only if more came into wallets that had not voted than left them and is there still |
| Governance.Program.CreateProposal | programs/governance/src/lib.rs:43-96 | the instruction as written, aborts included, is the transition; the proposal has the proposer, the time and the end of the vote a week later |
| Governance.Program.CastVote | programs/governance/src/lib.rs:100-140 | the same for cast_vote; the voter's balance is added to the tally of the choice and to no other, and both are recorded |
| Governance.Program.FinalizeProposal | programs/governance/src/lib.rs:144-196 | the same for finalize_proposal, with quorum and majority written out |
| Governance.Program.ExecuteProposal | programs/governance/src/lib.rs:201-237 | the same for execute_proposal; only of a passed proposal, from its time on |
| RateLimiter.WindowBound | node/rate_limiter.py:28-48 | in any run without reset and any window a key is allowed at most burst + length * rpm / 60 requests |
| RateLimiter.RefusedIff | node/rate_limiter.py:28-48 | a request is refused if and only if over some window that ends with it more than burst - 1 + length * rpm / 60 requests of its key were allowed |
| RateLimiter.TokensInBounds | node/rate_limiter.py:42-48 | tokens stay between 0 and the burst size |
| RateLimiter.FirstBurst | node/rate_limiter.py:28-40 | a request of a key that has been asked for fewer than burst_size times is allowed, whenever it comes and whatever other keys do |
| RateLimiter.AllowedAfterWaiting | node/rate_limiter.py:28-48 | a key that has waited for one token is allowed |
| RateLimiter.OtherKeys | node/rate_limiter.py:28-40 | over every run a key's bucket, the decisions on its requests and how many are allowed depend on its own requests alone |
| RateLimiter.RateLimiter.IsAllowed | node/rate_limiter.py:28-40 | the decision and the new buckets |
| SiblingList.AddAllNearest | node/p2p.py:153-167 | after any insertions, repeats and re-adds included, the list is the k nearest of all ids ever inserted, in order of XOR distance |
| SiblingList.OrderIrrelevant | node/p2p.py:153-167 | with distinct prefixes the list depends only on the set of ids inserted |
| SiblingList.XorInjective | node/p2p.py:161-164 | distinct prefixes have distinct distances |
| SiblingList.XorBit | node/p2p.py:161-164 | bit k of the distance is set exactly if it is set in one of the two prefixes |
| SiblingList.SybilResistantDht.AddToSiblingList | node/p2p.py:153-167 | one insertion keeps the list the k nearest of all seen |
| Frame.RoundTrip | node/activation_stream.py:171-179 | a framed job and payload are read back, and no byte beyond the frame is consumed |
| Frame.FrameBytes | node/activation_stream.py:231-233 | a frame byte by byte: the magic number, eight bytes of job id, four of length, the most significant first, and the payload |
| Frame.StrictPrefixFails | node/activation_stream.py:69-77 | a connection closed before the end of the frame gives EOFError |
| Frame.OnlyFramesParse | node/activation_stream.py:171-179 | a stream that reads as a job and payload starts with their frame |
| Frame.ReadExactly | node/activation_stream.py:69-77 | the first n bytes for every way the stream is split into chunks, or EOFError |
| Frame.ReadFrame | node/activation_stream.py:171-179 | reads what parsing the whole stream gives, for every chunking |
| ShardPipeline.SlicesPartition | node/shard_manager.py:518-523 | the slices follow one another from the first layer to the last, each with the quotient of layers by shards and the first ones with one more, as many as the remainder |
| ShardPipeline.Call | node/shard_manager.py:594-598 | the loop applies the shard's layers in order, taking the first component of a tuple |
| ShardPipeline.PipelineIsModel | node/shard_manager.py:518-598 | the shards one after the other compute what the whole model computes |

## Left out

- Speculative decoding: batches of more than one sequence, `draft_steps` below 1, negative `max_tokens` and floating-point rounding; `torch.multinomial` is taken to normalise its weights, a row of the verifier to depend only on the tokens before it, the temperature is part of the two models, and the logits are compared for `top_k` as the probabilities that they become.
- SpeculativeDecoder.VerifyAndAccept: for a batch of one sequence.
- SpeculativeDecoder.DecodeSpeculative: the verifier rows are computed from the prefixes, not sliced out of one tensor of logits; for a batch of one sequence.
- SpeculativeProposals.UnclaimedLosslessIff: at guard zero; for any guard, and at least two tokens, see SpeculativeTargets.UnclaimedLosslessForAllIff.
- SpeculativeTargets.UnclaimedLosslessForAllIff: for a vocabulary of at least two tokens.
- KV cache: `utilization`, a block size of 0, tensor shapes and devices; token counts are divided exactly, not as floats.
- Gossip: `remove_peer`, the hashing that makes message ids (a fresh id is assumed), counters, and Python's recursion limit.
- Gossip.GossipNode.Forward: like Receive, the outcome under the condition that nothing stamped expires in the cascade.
- Gossip.GossipNode.Receive: the outcome of the whole cascade, as opposed to the decision of one node, is stated under the condition that nothing stamped during the cascade expires in it.
- Result cache: hit counters and `stats`, a negative `max_size`.
- Batcher: the state field of a request is the queue it is in, and requests are values: a step updates the entry in the running map and those in the waiting queue, not copies in finished or drained lists or batches handed out before; throughput statistics and the `PREEMPTED` state, which lasts only inside `_preempt`, are left out.
- Scheduling: `sorted` is a stable insertion sort.
- SchedulingTokens.TokensAsHanded: on the intended form of schedule; for the code as written, TokensAsWritten asks for schedules that start with room.
- Merkle trees: SHA-256 itself, and the hex text of roots, which are compared as bytes.
- VerificationPipeline.BuildAndVerify: signatures are ideal: one made with a key verifies under its public key and under no other; `spot_check` and peer aggregation are not part of this model.
- Audit log: the JSON text and SHA-256 together are one function of an entry's content; filters are left out.
- Market and governance: account constraints, `initialize`, inert text and hash fields, events, and transfers by outsiders into an escrow or bond account; intended accounts are wired.
- RateLimiter.WindowBound: for a burst size and rate that are not negative; floating point is not modelled.
- RateLimiter.RefusedIff: likewise.
- SiblingList.AddAllNearest: ids whose prefix is no hexadecimal number, and a negative k, are not modelled; `detect_eclipse` and lookups are left out.
- Frame.ReadFrame: the msgpack or JSON payload, tensors and the futures of waiting jobs are left out.
- ShardPipeline.PipelineIsModel: embedding, final norm and head are left out; a layer is a function.
- Network, RPC, IPFS, gateway, command line, provisioning, metrics, LoRA, training, registry and settlement code are not part of this model.
