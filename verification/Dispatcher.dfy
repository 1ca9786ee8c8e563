/** The dispatcher thread (src/dispatcher.c) as it runs without interleaved deletions: parsing a
    burst, one bulk lookup, the per-packet loop over the resolved_* entries, replacement when the
    table is full, and the hand-over to the worker rings. */
module Dispatcher {
  import opened FlowTypes
  import opened Generation
  import opened FlowPacket
  import opened HashTable
  import opened FlowTableSpec
  import opened DispatcherSpec
  import FlowTable
  import Pipeline = FlowPipeline

  /** The dispatcher's part of struct lcore_stats. */
  datatype Stats = Stats(
    rxPkts: nat, rxBytes: nat, rxFiltered: nat, ringDrop: nat,
    hashAddFailures: nat, flowsCreated: nat, flowsDeleted: nat,
    replacementAttempts: nat, replacementSuccess: nat, replacementFailures: nat,
    victimEvicted: nat, victimCacheEmpty: nat, retrySuccess: nat, retryFailures: nat, agingReclaimed: nat)
  {
    /** Packets dropped because no slot could be had. */
    function Unplaced(): int { hashAddFailures - retrySuccess }

    /** Every attempt succeeds or fails; every success is followed by one retry. */
    predicate ReplacementBooks() {
      && replacementAttempts == replacementSuccess + replacementFailures
      && replacementSuccess == retrySuccess + retryFailures
    }
  }

  /** The names of the counters. */
  datatype Counter =
    | RxPkts | RxBytes | RxFiltered | RingDrop | HashAddFailures | FlowsCreated | FlowsDeleted
    | ReplacementAttempts | ReplacementSuccess | ReplacementFailures | VictimEvicted | VictimCacheEmpty
    | RetrySuccess | RetryFailures | AgingReclaimed

  function Value(s: Stats, c: Counter): nat {
    match c
    case RxPkts => s.rxPkts
    case RxBytes => s.rxBytes
    case RxFiltered => s.rxFiltered
    case RingDrop => s.ringDrop
    case HashAddFailures => s.hashAddFailures
    case FlowsCreated => s.flowsCreated
    case FlowsDeleted => s.flowsDeleted
    case ReplacementAttempts => s.replacementAttempts
    case ReplacementSuccess => s.replacementSuccess
    case ReplacementFailures => s.replacementFailures
    case VictimEvicted => s.victimEvicted
    case VictimCacheEmpty => s.victimCacheEmpty
    case RetrySuccess => s.retrySuccess
    case RetryFailures => s.retryFailures
    case AgingReclaimed => s.agingReclaimed
  }

  /** The counters of a thread that has not started. */
  ghost predicate AllZero(s: Stats) {
    forall c: Counter :: Value(s, c) == 0
  }

  method ZeroStats() returns (s: Stats)
    ensures AllZero(s)
  {
    s := Stats(0, 0, 0, 0, 0, 0, 0, 0, 0, 0, 0, 0, 0, 0, 0);
  }

  lemma BooksAtZero(s: Stats)
    requires AllZero(s)
    ensures s.ReplacementBooks() && s.rxPkts == 0 && s.rxPkts == s.rxFiltered + s.Unplaced() + s.ringDrop
  {
    assert Value(s, RxPkts) == 0 && Value(s, RxFiltered) == 0 && Value(s, RingDrop) == 0;
    assert Value(s, HashAddFailures) == 0 && Value(s, RetrySuccess) == 0 && Value(s, RetryFailures) == 0;
    assert Value(s, ReplacementAttempts) == 0 && Value(s, ReplacementSuccess) == 0;
    assert Value(s, ReplacementFailures) == 0;
  }

  function Attempted(s: Stats, cacheEmpty: bool): Stats {
    s.(replacementAttempts := s.replacementAttempts + 1,
       victimCacheEmpty := s.victimCacheEmpty + (if cacheEmpty then 1 else 0))
  }

  /** A replacement is counted as one deletion, however many flows it removed. */
  function Replaced(s: Stats): Stats {
    s.(replacementSuccess := s.replacementSuccess + 1, victimEvicted := s.victimEvicted + 1,
       flowsDeleted := s.flowsDeleted + 1)
  }

  function Reclaimed(s: Stats, n: nat): Stats {
    s.(agingReclaimed := s.agingReclaimed + n)
  }

  function Refused(s: Stats): Stats {
    s.(replacementFailures := s.replacementFailures + 1)
  }

  function FlowCreated(s: Stats): Stats {
    s.(flowsCreated := s.flowsCreated + 1)
  }

  function AddFailed(s: Stats): Stats {
    s.(hashAddFailures := s.hashAddFailures + 1)
  }

  function Retried(s: Stats, placed: bool): Stats {
    if placed then s.(retrySuccess := s.retrySuccess + 1) else s.(retryFailures := s.retryFailures + 1)
  }

  /** The counters after a replacement attempt that freed `reclaimed` slots or failed. */
  function Evicted(s: Stats, cacheEmpty: bool, ok: bool, reclaimed: nat): Stats {
    var a := Attempted(s, cacheEmpty);
    if ok then Reclaimed(Replaced(a), reclaimed) else Refused(a)
  }

  /** The counters of the receive and ring side, which adding flows does not touch. */
  predicate SameTraffic(a: Stats, b: Stats) {
    a.rxPkts == b.rxPkts && a.rxBytes == b.rxBytes && a.rxFiltered == b.rxFiltered && a.ringDrop == b.ringDrop
  }

  /** The counters after an attempt to add a flow, before flows_created is bumped; the table grew
      by `grown`. */
  ghost predicate AddBooks(a: Stats, b: Stats, placed: bool, grown: int) {
    && SameTraffic(a, b)
    && b.Unplaced() == a.Unplaced() + (if placed then 0 else 1)
    && (a.ReplacementBooks() ==> b.ReplacementBooks())
    && a.replacementSuccess <= b.replacementSuccess && a.flowsCreated == b.flowsCreated
    && grown + b.flowsDeleted - a.flowsDeleted <= (if placed then 1 else 0)
    && (a.replacementSuccess == b.replacementSuccess ==> a.flowsDeleted == b.flowsDeleted)
  }

  /** The counters and the slack before and after one packet. */
  ghost predicate CountedOne(a: Stats, b: Stats, placed: bool, slack: int, slack': int) {
    && SameTraffic(a, b)
    && b.Unplaced() == a.Unplaced() + (if placed then 0 else 1)
    && (a.ReplacementBooks() ==> b.ReplacementBooks())
    && a.replacementSuccess <= b.replacementSuccess && slack' <= slack
  }

  lemma AddIsCounted(a: Stats, mid: Stats, b: Stats, placed: bool, n: nat, n': nat)
    requires AddBooks(a, mid, placed, n' - n)
    requires b == if placed then FlowCreated(mid) else mid
    ensures CountedOne(a, b, placed, n + a.flowsDeleted - a.flowsCreated, n' + b.flowsDeleted - b.flowsCreated)
  {
  }

  /** The books of a failed add with its replacement and retry; the table had n flows, then mid,
      then n'. */
  lemma ReplacementBooksHold(s: Stats, cacheEmpty: bool, ok: bool, reclaimed: nat, placed: bool, n: nat, mid: nat,
                             n': nat)
    requires if ok then mid < n && n' <= mid + (if placed then 1 else 0) else n' == n && !placed
    ensures var e := Evicted(AddFailed(s), cacheEmpty, ok, reclaimed);
      var r := if ok then Retried(e, placed) else e;
      AddBooks(s, r, placed, n' - n) && (r.replacementSuccess == s.replacementSuccess <==> !ok)
  {
  }

  /** What a replacement does to the counters, one by one: whatever number of flows went, one
      deletion is counted. */
  lemma EvictedCounters(s: Stats, cacheEmpty: bool, ok: bool, reclaimed: nat)
    ensures var r := Evicted(s, cacheEmpty, ok, reclaimed);
      && r.replacementAttempts == s.replacementAttempts + 1
      && r.victimCacheEmpty == s.victimCacheEmpty + (if cacheEmpty then 1 else 0)
      && r.replacementSuccess == s.replacementSuccess + (if ok then 1 else 0)
      && r.replacementFailures == s.replacementFailures + (if ok then 0 else 1)
      && r.victimEvicted == s.victimEvicted + (if ok then 1 else 0)
      && r.flowsDeleted == s.flowsDeleted + (if ok then 1 else 0)
      && r.agingReclaimed == s.agingReclaimed + (if ok then reclaimed else 0)
      && SameTraffic(s, r) && r.hashAddFailures == s.hashAddFailures && r.flowsCreated == s.flowsCreated
      && r.retrySuccess == s.retrySuccess && r.retryFailures == s.retryFailures
  {
  }

  /** The resolved_* entries name earlier packets and usable slots and workers. */
  ghost predicate EntriesSafe(rs: seq<Resolved>, i: nat, slots: nat) {
    |rs| <= i && forall r | 0 <= r < |rs| ::
      rs[r].index < i && rs[r].flow.position < slots && rs[r].flow.worker < NUM_WORKERS
  }

  /** A burst as it was after the bulk lookup: the table, the keys, what the lookup returned. */
  datatype Burst = Burst(t0: Table, keys: seq<Key>, positions: seq<int>, tsc: nat)

  /** The burst loop so far: its packets, what each one got, the entries, the packets still in
      flight and the stages it went through; the counters and slack it started from. */
  datatype Loop = Loop(
    b: Burst, ms: seq<Mbuf>, flows: seq<Option<Flow>>, rs: seq<Resolved>, k: multiset<nat>, stages: seq<Stage>,
    before: Stats, slack: int)
  {
    ghost predicate HasNext() { |flows| < |b.keys| == |b.positions| == |ms| }

    ghost function Key(): Key
      requires HasNext()
    {
      b.keys[|flows|]
    }

    /** After the next packet, which got `flow` and left `stage`. */
    ghost function Next(flow: Option<Flow>, stage: Stage): Loop
      requires HasNext()
    {
      Loop(b, ms, flows + [flow], Remembered(b.keys, rs, |flows|, flow), Settled(k, ms[|flows|].id, flow),
           stages + [stage], before, slack)
    }

    ghost predicate Chained(e: Env) {
      && |flows| <= |b.keys| == |ms| && rs == EntriesOf(b.keys, flows) && InHand(k, ms, flows)
      && Chain(stages, b.keys, b.positions, flows, e)
    }
  }

  lemma ChainedNext(g: Loop, e: Env, flow: Option<Flow>, stage: Stage)
    requires g.HasNext() && g.Chained(e)
    requires Resolves(g.stages[|g.flows|], stage, g.b.keys, |g.flows|, g.b.positions[|g.flows|], g.rs, flow, e)
    ensures g.Next(flow, stage).Chained(e)
  {
    ChainNext(g.stages, g.b.keys, g.b.positions, g.flows, e, stage, flow);
    InHandNext(g.k, g.ms, g.flows, flow);
  }

  /** The local arrays of a burst. */
  datatype Locals = Locals(
    keys: array<Key>, mbufs: array<Mbuf>, positions: array<int>, resolved: array<Resolved>, buffers: array<seq<Mbuf>>)

  class DispatcherThread {
    const ft: FlowTable.FlowTable
    const flowHash: Key -> u32
    var stats: Stats
    /** What was enqueued to each worker's ring so far, and the fate of every packet. */
    ghost var sent: seq<seq<Mbuf>>
    ghost var received: multiset<nat>
    ghost var enqueued: multiset<nat>
    ghost var freed: multiset<nat>

    ghost predicate Valid()
      reads `sent, ft, ft.hot
    {
      ft.Valid() && |sent| == NUM_WORKERS && WorkersInRange()
    }

    ghost predicate WorkersInRange()
      reads ft.hot
    {
      forall p | 0 <= p < ft.hot.Length :: ft.hot[p].worker < NUM_WORKERS
    }

    /** The enqueued packets are those in the rings' histories. */
    ghost predicate Tracked()
      reads `sent, `enqueued
    {
      InRings(enqueued, sent)
    }

    ghost function T(): Table
      reads ft, ft.hot, ft.cold
    {
      Table(ft.hash, ft.hot[..], ft.cold[..])
    }

    ghost function S(): Stage
      reads ft, ft.hot, ft.cold
    {
      Stage(T(), ft.victims)
    }

    ghost function E(tsc: nat): Env {
      Env(tsc, flowHash, ft.reclaimBatch)
    }

    /** The thread starts: it registers with RCU and goes online. */
    constructor (ft: FlowTable.FlowTable, flowHash: Key -> u32)
      requires ft.Valid() && forall p | 0 <= p < ft.hot.Length :: ft.hot[p].worker < NUM_WORKERS
      modifies ft`hash
      ensures Valid() && this.ft == ft && this.flowHash == flowHash
      ensures ft.hash == Quiescent(old(ft.hash), DispatcherActor)
      ensures AllZero(stats) && AllEmpty(sent) && received == enqueued == freed == multiset{} && AtRest()
    {
      this.ft, this.flowHash := ft, flowHash;
      var zero := ZeroStats();
      stats := zero;
      sent := seq(NUM_WORKERS, w => []);
      received, enqueued, freed := multiset{}, multiset{}, multiset{};
      new;
      NewIsAtRest();
      ft.ReportQuiescent(DispatcherActor);
    }

    lemma NewIsAtRest()
      requires AllZero(stats) && AllEmpty(sent) && received == enqueued == freed == multiset{}
      ensures AtRest()
    {
      NothingInRings(sent);
      BooksAtZero(stats);
    }

    /** The grace period after a replacement: report quiescent, then reclaim. */
    method Settle() returns (reclaimed: nat)
      requires ft.Valid()
      modifies ft`hash
      ensures ft.Valid() && ft.hash.mapped == old(ft.hash.mapped)
      ensures ft.hash == AfterGrace(old(ft.hash), ft.reclaimBatch)
    {
      ft.ReportQuiescent(DispatcherActor);
      RoundsKeepMapped(ft.hash, RECLAIM_REPLACEMENT_BUDGET, ft.reclaimBatch);
      reclaimed := ft.ReclaimRounds(RECLAIM_REPLACEMENT_BUDGET);
    }

    /** The candidates a replacement with these sampled batches tries. */
    ghost function Tried(batches: seq<seq<nat>>): seq<Candidate>
      reads ft, ft.hot, ft.cold
      requires ft.Valid()
    {
      ft.CachedFor(REPLACEMENT_RETRIES) + SampleCandidates(ft.hot[..], ft.cold[..], batches)
    }

    /** The keys a replacement with these sampled batches validly names. */
    ghost function Named(batches: seq<seq<nat>>): set<Key>
      reads ft, ft.hot, ft.cold
      requires ft.Valid()
    {
      NamedKeys(ft.hash, ft.hot[..], Tried(batches))
    }

    /** The ring without the cached candidates, and the batches sampled after them. */
    ghost predicate TakenFromRing(h: Hash, cached: seq<Candidate>, ring: seq<nat>, batches: seq<seq<nat>>)
      reads ft, ft.hot
    {
      && |cached| <= |ring| && ft.victims == ring[|cached|..]
      && SampledAfter(h, ft.hot[..], cached, EMERGENCY_SCAN_BUDGET, batches)
    }

    /** The flow table's replacement; a failed one leaves the hash as it was. */
    method Evict(now: nat) returns (evicted: nat, ghost batches: seq<seq<nat>>)
      requires ft.Valid()
      modifies ft`hash, ft`victims
      ensures ft.Valid() && ft.hash == EvictAll(old(ft.hash), ft.hot[..], old(Tried(batches)))
      ensures TakenFromRing(old(ft.hash), old(ft.CachedFor(REPLACEMENT_RETRIES)), old(ft.victims), batches)
      ensures evicted > 0 <==> |ft.hash.mapped| < |old(ft.hash).mapped|
      ensures evicted == 0 ==> ft.hash == old(ft.hash)
      ensures |old(ft.hash).mapped| - |ft.hash.mapped| == |old(Named(batches))|
    {
      evicted, batches := ft.EvictForReplacement(REPLACEMENT_RETRIES, EMERGENCY_SCAN_BUDGET, now);
      EvictAllExactly(old(ft.hash), ft.hot[..], old(Tried(batches)));
      EvictedCount(old(ft.hash), ft.hot[..], old(Tried(batches)));
    }

    /** Evict and, if a flow went, settle. */
    method EvictAndSettle(now: nat) returns (ok: bool, reclaimed: nat, ghost batches: seq<seq<nat>>)
      requires ft.Valid()
      modifies ft`hash, ft`victims
      ensures ft.Valid()
      ensures TakenFromRing(old(ft.hash), old(ft.CachedFor(REPLACEMENT_RETRIES)), old(ft.victims), batches)
      ensures ok <==> |ft.hash.mapped| < |old(ft.hash).mapped|
      ensures |old(ft.hash).mapped| - |ft.hash.mapped| == |old(Named(batches))|
      ensures !ok ==> ft.hash == old(ft.hash)
      ensures ok ==> ft.hash == AfterGrace(EvictAll(old(ft.hash), ft.hot[..], old(Tried(batches))), ft.reclaimBatch)
    {
      var evicted;
      evicted, batches := Evict(now);
      ok, reclaimed := evicted > 0, 0;
      if ok {
        reclaimed := Settle();
      }
    }

    /** dispatcher_evict_for_replacement: the books stay exact if and only if the candidates tried
        name at most one flow validly. */
    method EvictForReplacement(now: nat) returns (ok: bool, reclaimed: nat, ghost batches: seq<seq<nat>>)
      requires Valid()
      modifies `stats, ft`hash, ft`victims
      ensures Valid()
      ensures TakenFromRing(old(ft.hash), old(ft.CachedFor(REPLACEMENT_RETRIES)), old(ft.victims), batches)
      ensures ok <==> |ft.hash.mapped| < |old(ft.hash).mapped|
      ensures ok <==> old(Named(batches)) != {}
      ensures !ok ==> ft.hash == old(ft.hash)
      ensures ok ==> ft.hash == AfterGrace(EvictAll(old(ft.hash), ft.hot[..], old(Tried(batches))), ft.reclaimBatch)
      ensures stats == Evicted(old(stats), old(ft.victims) == [], ok, reclaimed)
      ensures old(Slack()) - Slack() == if ok then |old(Named(batches))| - 1 else 0
      ensures Slack() == old(Slack()) <==> |old(Named(batches))| <= 1
    {
      stats := Attempted(stats, ft.victims == []);
      ok, reclaimed, batches := EvictAndSettle(now);
      stats := if ok then Reclaimed(Replaced(stats), reclaimed) else Refused(stats);
    }

    /** publish_new_flow: generation first, then the cold record, the worker and last_seen. */
    method PublishNewFlow(key: Key, position: nat, tsc: nat) returns (flow: Option<Flow>)
      requires Valid()
      modifies ft.hot, ft.cold
      ensures Valid() && DispatcherSpec.Step(T(), flow) == Placing(old(T()), position, key, E(tsc))
      ensures flow.Some? <==> position < ft.hot.Length
      ensures flow.Some? ==> flow.value.worker == Pipeline.WorkerOf(flowHash, key)
    {
      if position >= ft.Capacity() {
        return None;
      }
      var gen := GenerationNext(ft.hot, position);
      ft.cold[position] := ColdFromKey(key, tsc);
      var worker := Pipeline.WorkerOf(flowHash, key);
      ft.hot[position] := ft.hot[position].(worker := worker);
      ft.hot[position] := ft.hot[position].(lastSeen := tsc);
      flow := Some(Flow(position, gen, worker));
    }

    /** The key sits in the slot an add returned, or is absent after a failed one. */
    ghost predicate Mapped(key: Key, position: int)
      reads ft
    {
      if position >= 0 then key in ft.hash.mapped && ft.hash.mapped[key] == position else key !in ft.hash.mapped
    }

    /** The retry that follows a successful replacement. */
    method Retry(key: Key) returns (position: int)
      requires Valid()
      modifies `stats, ft`hash
      ensures Valid() && -1 <= position < ft.hot.Length && stats == Retried(old(stats), position >= 0)
      ensures |ft.hash.mapped| <= |old(ft.hash).mapped| + (if position >= 0 then 1 else 0)
      ensures Mapped(key, position) && Added(ft.hash, position) == AddedKey(old(ft.hash), key, ft.reclaimBatch)
    {
      position := ft.AddKey(key);
      stats := Retried(stats, position >= 0);
    }

    /** The replacement, in terms of the table and the ring. */
    method ReplaceOnce(now: nat) returns (ok: bool, reclaimed: nat, ghost batches: seq<seq<nat>>)
      requires Valid()
      modifies `stats, ft`hash, ft`victims
      ensures Valid() && stats == Evicted(old(stats), old(ft.victims) == [], ok, reclaimed)
      ensures ok <==> |ft.hash.mapped| < |old(ft.hash).mapped|
      ensures Evicts(old(S()), ok, ft.hash, ft.victims, ft.reclaimBatch, batches)
    {
      ok, reclaimed, batches := EvictForReplacement(now);
      assert old(Named(batches)) == NamedKeys(old(ft.hash), ft.hot[..], old(Tried(batches)));
    }

    /** After a failed add: one replacement and, if it succeeded, one retry. */
    method ReplaceAndRetry(key: Key, now: nat) returns (position: int)
      requires Valid() && key !in ft.hash.mapped && AddedKey(ft.hash, key, ft.reclaimBatch).position < 0
      modifies `stats, ft`hash, ft`victims
      ensures Valid() && -1 <= position < ft.hot.Length
      ensures Mapped(key, position)
      ensures AddBooks(old(stats), stats, position >= 0, |ft.hash.mapped| - |old(ft.hash).mapped|)
      ensures Gained(old(S()), ft.hash, ft.victims, position, key, ft.reclaimBatch)
      ensures stats.replacementSuccess == old(stats).replacementSuccess ==> position == -1 && ft.hash == old(ft.hash)
    {
      stats := AddFailed(stats);
      var ok, reclaimed, batches := ReplaceOnce(now);
      position := -1;
      ghost var mid := ft.hash;
      if ok {
        position := Retry(key);
      }
      ReplacementGains(old(S()), ok, mid, ft.hash, ft.victims, position, key, ft.reclaimBatch, batches);
      ReplacementBooksHold(old(stats), old(ft.victims == []), ok, reclaimed, position >= 0,
                           old(|ft.hash.mapped|), |mid.mapped|, |ft.hash.mapped|);
    }

    /** The miss branch up to publication. */
    method AddWithReplacement(key: Key, now: nat) returns (position: int)
      requires Valid()
      modifies `stats, ft`hash, ft`victims
      ensures Valid() && -1 <= position < ft.hot.Length
      ensures Mapped(key, position)
      ensures AddBooks(old(stats), stats, position >= 0, |ft.hash.mapped| - |old(ft.hash).mapped|)
      ensures Gained(old(S()), ft.hash, ft.victims, position, key, ft.reclaimBatch)
      ensures stats.replacementSuccess == old(stats).replacementSuccess ==>
        && Added(ft.hash, position) == AddedKey(old(ft.hash), key, ft.reclaimBatch)
        && (key !in old(ft.hash).mapped ==>
            |ft.hash.mapped| == |old(ft.hash).mapped| + (if position >= 0 then 1 else 0))
    {
      position := ft.AddKey(key);
      if position < 0 {
        position := ReplaceAndRetry(key, now);
      }
    }

    /** Mapped flows plus counted deletions minus created flows. */
    ghost function Slack(): int
      reads `stats, ft
    {
      |ft.hash.mapped| + stats.flowsDeleted - stats.flowsCreated
    }

    /** The burst so far is what one-by-one handling gives. */
    ghost predicate Follows(g: Loop)
      reads ft, ft.hot, ft.cold
    {
      Agrees(g.b.t0, g.b.keys, E(g.b.tsc), g.b.positions, |g.flows|, T(), g.flows, g.rs)
    }

    /** The loop goes on with `flow` where one-by-one handling would. */
    twostate predicate FollowsOn(g: Loop, flow: Option<Flow>)
      reads ft, ft.hot, ft.cold
      requires g.HasNext()
    {
      old(Follows(g)) ==> Follows(g.Next(flow, S()))
    }

    /** What handling one packet does to the counters. */
    twostate predicate CountsOne(placed: bool)
      reads `stats, ft
    {
      CountedOne(old(stats), stats, placed, old(Slack()), Slack())
    }

    /** A packet of a flow this burst has already resolved. */
    method ReuseResolved(entry: Resolved, tsc: nat, ghost g: Loop, ghost r: nat)
      requires Valid() && entry.flow.position < ft.hot.Length && g.HasNext() && g.b.tsc == tsc
      requires r < |g.rs| && g.rs[r] == entry && entry.index < |g.b.keys| && g.b.keys[entry.index] == g.Key()
      modifies ft.hot
      ensures Valid() && UsedKnown(old(S()), S(), entry.flow, Some(entry.flow), E(tsc))
      ensures FollowsOn(g, Some(entry.flow))
    {
      assert InResolved(g.b.keys, g.rs, g.Key());
      if Follows(g) {
        AgreesReuse(g.b.t0, g.b.keys, E(tsc), g.b.positions, |g.flows|, T(), g.flows, g.rs, r);
      }
      Touch(entry.flow.position, tsc);
    }

    /** The store of last_seen. */
    method Touch(p: nat, tsc: nat)
      requires Valid() && p < ft.hot.Length
      modifies ft.hot
      ensures Valid() && T() == Touched(old(T()), p, tsc)
    {
      ft.hot[p] := ft.hot[p].(lastSeen := tsc);
    }

    /** A packet whose flow the bulk lookup found in slot p. */
    method UseHit(p: nat, tsc: nat, ghost g: Loop) returns (flow: Flow)
      requires Valid() && p < ft.hot.Length && g.HasNext() && g.b.tsc == tsc
      requires g.b.positions[|g.flows|] == p && !InResolved(g.b.keys, g.rs, g.Key())
      modifies ft.hot
      ensures Valid() && flow == old(FlowAt(ft.hot[..], p)) && UsedKnown(old(S()), S(), flow, Some(flow), E(tsc))
      ensures FollowsOn(g, Some(flow))
    {
      if Follows(g) {
        AgreesHit(g.b.t0, g.b.keys, E(tsc), g.b.positions, |g.flows|, T(), g.flows, g.rs);
      }
      flow := Flow(p, ft.hot[p].gen, ft.hot[p].worker);
      Touch(p, tsc);
    }

    /** A flow's slot and worker are in range. */
    ghost predicate Usable(flow: Option<Flow>) {
      flow.Some? ==> flow.value.position < ft.hot.Length && flow.value.worker < NUM_WORKERS
    }

    /** Add a flow and publish its slot; without a replacement, exactly as one-by-one handling. */
    method PlaceNew(key: Key, tsc: nat, now: nat) returns (flow: Option<Flow>)
      requires Valid()
      modifies `stats, ft`hash, ft`victims, ft.hot, ft.cold
      ensures Valid() && CountsOne(flow.Some?) && PlacedNew(old(S()), S(), key, flow, E(tsc))
      ensures Usable(flow)
      ensures stats.replacementSuccess == old(stats).replacementSuccess && key !in old(ft.hash).mapped ==>
        LookupOrAdd(old(T()), key, E(tsc)) == DispatcherSpec.Step(T(), flow) && Slack() == old(Slack())
    {
      var position := AddWithReplacement(key, now);
      ghost var mid, counted := T(), stats;
      PlacingHolds(old(S()), mid, ft.victims, position, key, E(tsc));
      flow := PublishCounted(key, position, tsc);
      AddIsCounted(old(stats), counted, stats, position >= 0, old(|ft.hash.mapped|), |ft.hash.mapped|);
    }

    /** What follows an add: publication, counted as a created flow, or a drop. */
    method PublishCounted(key: Key, position: int, tsc: nat) returns (flow: Option<Flow>)
      requires Valid()
      modifies `stats, ft.hot, ft.cold
      ensures Valid() && Usable(flow) && (flow.Some? <==> 0 <= position < ft.hot.Length)
      ensures DispatcherSpec.Step(T(), flow) == Placing(old(T()), position, key, E(tsc))
      ensures stats == if flow.Some? then FlowCreated(old(stats))
                       else if position >= 0 then AddFailed(old(stats)) else old(stats)
    {
      flow := None;
      if position >= 0 {
        flow := PublishNewFlow(key, position, tsc);
        stats := if flow.Some? then FlowCreated(stats) else AddFailed(stats);
      }
    }

    /** A packet whose flow the bulk lookup did not find. */
    method AddNew(key: Key, tsc: nat, now: nat, ghost g: Loop) returns (flow: Option<Flow>)
      requires Valid() && g.HasNext() && g.b.tsc == tsc && g.Key() == key
      requires g.b.positions[|g.flows|] < 0 && !InResolved(g.b.keys, g.rs, key)
      modifies `stats, ft`hash, ft`victims, ft.hot, ft.cold
      ensures Valid() && CountsOne(flow.Some?) && PlacedNew(old(S()), S(), key, flow, E(tsc)) && Usable(flow)
      ensures old(Follows(g)) && stats.replacementSuccess == old(stats).replacementSuccess ==>
        Follows(g.Next(flow, S())) && Slack() == old(Slack())
    {
      if Follows(g) {
        AgreesAdd(g.b.t0, g.b.keys, E(tsc), g.b.positions, |g.flows|, T(), g.flows, g.rs);
      }
      flow := PlaceNew(key, tsc, now);
    }

    /** A packet that is the first of its flow in this burst. */
    method PlacePacket(key: Key, position: int, tsc: nat, now: nat, ghost g: Loop) returns (flow: Option<Flow>)
      requires Valid() && g.HasNext() && g.b.tsc == tsc && g.Key() == key
      requires g.b.positions[|g.flows|] == position && !InResolved(g.b.keys, g.rs, key)
      modifies `stats, ft`hash, ft`victims, ft.hot, ft.cold
      ensures Valid() && CountsOne(flow.Some?) && Places(old(S()), S(), key, position, flow, E(tsc)) && Usable(flow)
      ensures old(Follows(g)) && stats.replacementSuccess == old(stats).replacementSuccess ==>
        Follows(g.Next(flow, S())) && Slack() == old(Slack())
    {
      if position < 0 {
        flow := AddNew(key, tsc, now, g);
      } else if position >= ft.Capacity() {
        DropHit(g);
        flow := None;
      } else {
        var f := UseHit(position, tsc, g);
        flow := Some(f);
      }
    }

    /** A hit beyond the side arrays; one-by-one handling never has one. */
    method DropHit(ghost g: Loop)
      requires Valid() && g.HasNext() && g.b.positions[|g.flows|] >= ft.hot.Length
      modifies `stats
      ensures Valid() && S() == old(S()) && stats == AddFailed(old(stats)) && !old(Follows(g))
    {
      if Follows(g) {
        AgreesRange(g.b.t0, g.b.keys, E(g.b.tsc), g.b.positions, |g.flows|, T(), g.flows, g.rs);
      }
      stats := AddFailed(stats);
    }

    /** find_resolved_duplicate */
    method FindResolvedDuplicate(keys: array<Key>, resolved: array<Resolved>, count: nat, keyIndex: nat)
      returns (r: int)
      requires count <= resolved.Length && keyIndex < keys.Length
      requires forall j | 0 <= j < count :: resolved[j].index < keys.Length
      ensures -1 <= r < count
      ensures r >= 0 ==> keys[resolved[r].index] == keys[keyIndex]
      ensures forall j | 0 <= j < (if r < 0 then count else r) :: keys[resolved[j].index] != keys[keyIndex]
    {
      for i := 0 to count
        invariant forall j | 0 <= j < i :: keys[resolved[j].index] != keys[keyIndex]
      {
        if keys[keyIndex] == keys[resolved[i].index] {
          return i;
        }
      }
      return -1;
    }

    /** The arrays hold the burst's packets and entries. */
    ghost predicate Loaded(l: Locals, count: nat, g: Loop)
      reads l.keys, l.mbufs, l.positions, l.resolved
    {
      && |g.ms| == |g.b.keys| <= BURST_SIZE && l.buffers.Length == NUM_WORKERS
      && |g.ms| <= l.keys.Length && |g.ms| <= l.mbufs.Length && |g.ms| <= l.positions.Length
      && l.resolved.Length == BURST_SIZE
      && l.keys[..|g.ms|] == g.b.keys && l.mbufs[..|g.ms|] == g.ms && l.positions[..|g.ms|] == g.b.positions
      && |g.flows| <= |g.ms| && count <= |g.flows| && l.resolved[..count] == g.rs
    }

    /** The search for a duplicate, in terms of the burst. */
    method FindEntry(l: Locals, count: nat, i: nat, ghost g: Loop) returns (r: int, entry: Option<Resolved>)
      requires Loaded(l, count, g) && g.HasNext() && i == |g.flows| && EntriesSafe(g.rs, i, ft.hot.Length)
      ensures entry.Some? ==> FirstWith(g.b.keys, g.rs, g.Key(), r) && g.rs[r] == entry.value
      ensures entry.None? ==> !InResolved(g.b.keys, g.rs, g.Key())
    {
      assert forall j | 0 <= j < count :: l.resolved[j] == g.rs[j];
      assert forall j | 0 <= j < |g.b.keys| :: l.keys[j] == g.b.keys[j];
      r := FindResolvedDuplicate(l.keys, l.resolved, count, i);
      entry := if r >= 0 then Some(l.resolved[r]) else None;
    }

    /** Reuse, hit or add. */
    method Decide(key: Key, position: int, entry: Option<Resolved>, tsc: nat, now: nat, ghost g: Loop, ghost r: int)
      returns (flow: Option<Flow>)
      requires Valid() && g.HasNext() && g.b.tsc == tsc && g.Key() == key
      requires g.b.positions[|g.flows|] == position && EntriesSafe(g.rs, |g.flows|, ft.hot.Length)
      requires if entry.Some? then FirstWith(g.b.keys, g.rs, key, r) && g.rs[r] == entry.value
               else !InResolved(g.b.keys, g.rs, key)
      modifies `stats, ft`hash, ft`victims, ft.hot, ft.cold
      ensures Valid() && CountsOne(flow.Some?) && Usable(flow) && (entry.Some? ==> flow.Some?)
      ensures entry.Some? <==> InResolved(g.b.keys, g.rs, key)
      ensures Resolves(old(S()), S(), g.b.keys, |g.flows|, position, g.rs, flow, E(tsc))
      ensures old(Follows(g)) && stats.replacementSuccess == old(stats).replacementSuccess ==>
        Follows(g.Next(flow, S())) && Slack() == old(Slack())
    {
      if entry.Some? {
        ReuseResolved(entry.value, tsc, g, r);
        FirstIsUnique(g.b.keys, g.rs, key, r);
        flow := Some(entry.value.flow);
      } else {
        flow := PlacePacket(key, position, tsc, now, g);
      }
    }

    /** A packet that was not a duplicate and got a flow becomes an entry. */
    method Remember(l: Locals, count: nat, i: nat, entry: Option<Resolved>, flow: Option<Flow>, ghost g: Loop)
      returns (count': nat)
      requires Loaded(l, count, g) && g.HasNext() && i == |g.flows| && EntriesSafe(g.rs, i, ft.hot.Length)
      requires Usable(flow)
      requires entry.Some? <==> InResolved(g.b.keys, g.rs, g.Key())
      modifies l.resolved
      ensures forall stage :: Loaded(l, count', g.Next(flow, stage))
      ensures EntriesSafe(Remembered(g.b.keys, g.rs, i, flow), i + 1, ft.hot.Length)
    {
      count' := count;
      if entry.None? && flow.Some? {
        l.resolved[count] := Resolved(i, flow.value);
        count' := count + 1;
        assert l.resolved[..count'] == g.rs + [Resolved(i, flow.value)];
      }
    }

    /** The decision for packet i; a packet with a flow of its own is remembered in the
        resolved_* entries. */
    method ResolvePacket(l: Locals, count: nat, i: nat, tsc: nat, now: nat, ghost g: Loop)
      returns (flow: Option<Flow>, count': nat)
      requires Valid() && Loaded(l, count, g) && g.HasNext() && i == |g.flows| && g.b.tsc == tsc
      requires EntriesSafe(g.rs, i, ft.hot.Length)
      modifies `stats, ft`hash, ft`victims, ft.hot, ft.cold, l.resolved
      ensures Valid() && CountsOne(flow.Some?) && Usable(flow) && Loaded(l, count', g.Next(flow, S()))
      ensures Resolves(old(S()), S(), g.b.keys, i, g.b.positions[i], g.rs, flow, E(tsc))
      ensures EntriesSafe(g.Next(flow, S()).rs, i + 1, ft.hot.Length)
      ensures old(Follows(g)) && stats.replacementSuccess == old(stats).replacementSuccess ==>
        Follows(g.Next(flow, S())) && Slack() == old(Slack())
    {
      var duplicate, entry := FindEntry(l, count, i, g);
      flow := Decide(l.keys[i], l.positions[i], entry, tsc, now, g, duplicate);
      count' := Remember(l, count, i, entry, flow, g);
    }

    /** Every received packet was freed, enqueued, or is one of `ids`. */
    ghost predicate Owned(ids: multiset<nat>)
      reads `received, `freed, `enqueued
    {
      received == freed + enqueued + ids
    }

    /** The conservation law of the counters, with n packets in flight. */
    ghost predicate Conserved(n: nat)
      reads `stats, `received, `enqueued
    {
      && stats.ReplacementBooks() && stats.rxPkts == |received|
      && stats.rxPkts == stats.rxFiltered + stats.Unplaced() + stats.ringDrop + |enqueued| + n
    }

    /** No packet is in flight. */
    ghost predicate AtRest()
      reads `stats, `sent, `received, `freed, `enqueued
    {
      Owned(multiset{}) && Conserved(0) && Tracked()
    }

    /** A placed packet is stamped and buffered for its worker; the others are freed. */
    method Route(m: Mbuf, flow: Option<Flow>, buffers: array<seq<Mbuf>>, ghost g: Loop)
      requires buffers.Length == NUM_WORKERS && Placed(g.ms, g.flows, buffers[..])
      requires |g.flows| < |g.ms| && g.ms[|g.flows|] == m && (flow.Some? ==> flow.value.worker < NUM_WORKERS)
      requires Owned(g.k) && m.id in g.k
      modifies `freed, buffers
      ensures Placed(g.ms, g.flows + [flow], buffers[..]) && Owned(Settled(g.k, m.id, flow))
    {
      PlacedNext(g.ms, g.flows, buffers[..], flow);
      if flow.None? {
        freed := freed + multiset{m.id};
      } else {
        var w := flow.value.worker;
        buffers[w] := buffers[w] + [Stamped(m, flow.value)];
      }
    }

    /** The loop's state after some packets of a burst: what holds in any case, and, as long as
        no replacement succeeded in it, the agreement with one-by-one handling. */
    ghost predicate InBurst(g: Loop)
      reads `sent, `stats, ft, ft.hot, ft.cold
    {
      && Valid() && |g.flows| <= |g.b.keys| == |g.b.positions|
      && EntriesSafe(g.rs, |g.flows|, ft.hot.Length)
      && SameTraffic(g.before, stats) && g.before.replacementSuccess <= stats.replacementSuccess && Slack() <= g.slack
      && (stats.replacementSuccess == g.before.replacementSuccess ==> Follows(g) && Slack() == g.slack)
      && g.Chained(E(g.b.tsc)) && g.stages[|g.flows|] == S()
    }

    /** The decision for the next packet, in terms of the loop's state: a packet without a flow
        leaves the balance at once. */
    method ResolveNext(l: Locals, count: nat, i: nat, tsc: nat, now: nat, ghost g: Loop, ghost n: nat)
      returns (flow: Option<Flow>, count': nat, ghost g': Loop)
      requires InBurst(g) && Loaded(l, count, g) && i == |g.flows| < |g.ms| && g.b.tsc == tsc && Conserved(n) && n > 0
      modifies `stats, ft`hash, ft`victims, ft.hot, ft.cold, l.resolved
      ensures g' == g.Next(flow, S()) && InBurst(g') && Loaded(l, count', g')
      ensures (flow.Some? ==> flow.value.worker < NUM_WORKERS) && Conserved(if flow.Some? then n else n - 1)
    {
      flow, count' := ResolvePacket(l, count, i, tsc, now, g);
      g' := g.Next(flow, S());
      ChainedNext(g, E(tsc), flow, S());
    }

    /** The worker buffers hold the packets placed so far, and every packet is accounted for. */
    ghost predicate Balanced(l: Locals, g: Loop)
      reads `stats, `received, `enqueued, `freed, l.buffers
    {
      Placed(g.ms, g.flows, l.buffers[..]) && Owned(g.k) && Conserved(|g.k|)
    }

    /** Routing leaves the state of the loop alone. */
    method RouteNext(l: Locals, count: nat, i: nat, flow: Option<Flow>, ghost g: Loop, ghost g': Loop)
      requires InBurst(g') && Loaded(l, count, g') && i == |g.flows| < |g.ms| && g'.ms == g.ms
      requires g'.flows == g.flows + [flow]
      requires Placed(g.ms, g.flows, l.buffers[..]) && (flow.Some? ==> flow.value.worker < NUM_WORKERS)
      requires Owned(g.k) && g.ms[i].id in g.k && g'.k == Settled(g.k, g.ms[i].id, flow)
      requires Conserved(if flow.Some? then |g.k| else |g.k| - 1)
      modifies `freed, l.buffers
      ensures InBurst(g') && Loaded(l, count, g') && Balanced(l, g')
    {
      Route(l.mbufs[i], flow, l.buffers, g);
    }

    /** One packet of the burst loop. */
    method HandlePacket(l: Locals, count: nat, i: nat, tsc: nat, now: nat, ghost g: Loop)
      returns (count': nat, ghost g': Loop)
      requires InBurst(g) && Loaded(l, count, g) && Balanced(l, g) && i == |g.flows| < |g.ms| && g.b.tsc == tsc
      modifies `stats, `freed, ft`hash, ft`victims, ft.hot, ft.cold, l.resolved, l.buffers
      ensures InBurst(g') && Loaded(l, count', g') && Balanced(l, g')
      ensures SameBurst(g, g') && |g'.flows| == |g.flows| + 1
    {
      NextInHand(g.k, g.ms, g.flows);
      var flow;
      flow, count', g' := ResolveNext(l, count, i, tsc, now, g, |g.k|);
      RouteNext(l, count', i, flow, g, g');
    }

    lemma BurstEnds(g: Loop)
      requires InBurst(g) && |g.flows| == |g.b.keys|
      ensures Ended(g)
    {
      assert g.b.keys[..|g.b.keys|] == g.b.keys;
    }

    /** The loop over the parsed packets of a burst. */
    method ResolveBurst(l: Locals, n: nat, tsc: nat, now: nat, ghost g0: Loop) returns (ghost g: Loop)
      requires InBurst(g0) && Loaded(l, 0, g0) && Balanced(l, g0) && n == |g0.ms| && g0.flows == [] && g0.b.tsc == tsc
      modifies `stats, `freed, ft`hash, ft`victims, ft.hot, ft.cold, l.resolved, l.buffers
      ensures Ended(g) && SameBurst(g0, g) && Balanced(l, g)
    {
      var count: nat := 0;
      g := g0;
      for i := 0 to n
        invariant |g.flows| == i && SameBurst(g0, g) && InBurst(g) && Loaded(l, count, g) && Balanced(l, g)
      {
        count, g := HandlePacket(l, count, i, tsc, now, g);
      }
      BurstEnds(g);
    }

    /** What remains of InBurst when the arrays go out of scope. */
    ghost predicate Ended(g: Loop)
      reads `sent, `stats, ft, ft.hot, ft.cold
    {
      && Valid() && |g.flows| == |g.b.keys|
      && SameTraffic(g.before, stats) && g.before.replacementSuccess <= stats.replacementSuccess && Slack() <= g.slack
      && (stats.replacementSuccess == g.before.replacementSuccess ==>
            OneByOne(g.b.t0, g.b.keys, E(g.b.tsc)) == Trace(T(), g.flows) && Slack() == g.slack)
      && Chain(g.stages, g.b.keys, g.b.positions, g.flows, E(g.b.tsc)) && g.stages[|g.flows|] == S()
      && InHand(g.k, g.ms, g.flows)
    }

    /** The ring was full: the packets it did not take are counted and freed. */
    method DropRest(left: seq<Mbuf>, ghost rest: multiset<nat>)
      requires Owned(IdSet(left) + rest) && Conserved(|left| + |rest|)
      modifies `stats, `freed
      ensures Owned(rest) && Conserved(|rest|)
      ensures stats == old(stats).(ringDrop := old(stats).ringDrop + |left|)
    {
      stats := stats.(ringDrop := stats.ringDrop + |left|);
      freed := freed + IdSet(left);
    }

    /** rte_ring_enqueue_burst for one worker: the ring takes a prefix, the rest is freed. */
    method EnqueueWorker(w: nat, buffers: array<seq<Mbuf>>, ghost rest: multiset<nat>) returns (taken: nat)
      requires w < NUM_WORKERS == buffers.Length == |sent|
      requires Owned(IdSet(buffers[w]) + rest) && Conserved(|buffers[w]| + |rest|)
      modifies `stats, `sent, `enqueued, `freed
      ensures taken <= |buffers[w]| && Owned(rest) && Conserved(|rest|)
      ensures enqueued == old(enqueued) + IdSet(buffers[w][..taken])
      ensures sent == old(sent)[w := old(sent)[w] + buffers[w][..taken]]
      ensures stats == old(stats).(ringDrop := stats.ringDrop)
    {
      taken :| taken <= |buffers[w]|;
      var accepted, left := buffers[w][..taken], buffers[w][taken..];
      SplitBuffer(freed, enqueued, accepted, left, rest);
      assert accepted + left == buffers[w];
      sent := sent[w := sent[w] + accepted];
      enqueued := enqueued + IdSet(accepted);
      assert |enqueued| == old(|enqueued|) + taken;
      if |left| > 0 {
        DropRest(left, rest);
      } else {
        assert IdSet(left) + rest == rest;
      }
    }

    /** One worker's share of the hand-over. */
    method EnqueueNext(w: nat, buffers: array<seq<Mbuf>>, ghost sent0: seq<seq<Mbuf>>, ghost taken: seq<nat>)
      returns (ghost taken': seq<nat>)
      requires w == |taken| < NUM_WORKERS == buffers.Length && Tracked() && Handed(sent0, sent, buffers[..], taken)
      requires Owned(BufferIds(buffers[w..])) && Conserved(|BufferIds(buffers[w..])|)
      modifies `stats, `sent, `enqueued, `freed
      ensures |taken'| == w + 1 && Tracked() && Handed(sent0, sent, buffers[..], taken')
      ensures Owned(BufferIds(buffers[w + 1..])) && Conserved(|BufferIds(buffers[w + 1..])|)
      ensures stats == old(stats).(ringDrop := stats.ringDrop)
    {
      ghost var bufs, before, enqueued0 := buffers[..], sent, enqueued;
      BufferIdsNext(bufs, w);
      var k := EnqueueWorker(w, buffers, BufferIds(bufs[w + 1..]));
      HandedNext(sent0, before, bufs, taken, k);
      RingGrows(enqueued0, before, w, bufs[w][..k]);
      taken' := taken + [k];
    }

    /** The hand-over to the rings: the loop over the worker buffers. */
    method EnqueueAll(buffers: array<seq<Mbuf>>, ghost ms: seq<Mbuf>, ghost flows: seq<Option<Flow>>)
      returns (ghost taken: seq<nat>)
      requires Valid() && buffers.Length == NUM_WORKERS && Tracked() && |flows| == |ms|
      requires Placed(ms, flows, buffers[..])
      requires Owned(InFlight(ms, flows)) && Conserved(|InFlight(ms, flows)|)
      modifies `stats, `sent, `enqueued, `freed
      ensures Valid() && AtRest() && Delivered(old(sent), sent, ms, flows, taken)
      ensures stats == old(stats).(ringDrop := stats.ringDrop)
    {
      taken := [];
      PlacedIds(ms, flows, buffers[..]);
      assert buffers[0..] == buffers[..];
      for w := 0 to NUM_WORKERS
        invariant |taken| == w && Tracked() && Handed(old(sent), sent, buffers[..], taken)
        invariant Owned(BufferIds(buffers[w..])) && Conserved(|BufferIds(buffers[w..])|)
        invariant stats == old(stats).(ringDrop := stats.ringDrop)
      {
        taken := EnqueueNext(w, buffers, old(sent), taken);
      }
    }

    /** A packet without a 5-tuple is counted as filtered and freed. */
    method Filter(m: Mbuf, ghost rest: multiset<nat>)
      requires Owned(rest + multiset{m.id}) && Conserved(|rest| + 1)
      modifies `stats, `freed
      ensures Owned(rest) && Conserved(|rest|)
      ensures stats == old(stats).(rxFiltered := old(stats).rxFiltered + 1)
    {
      stats := stats.(rxFiltered := stats.rxFiltered + 1);
      freed := freed + multiset{m.id};
    }

    method Keep(m: Mbuf, key: Key, keys: array<Key>, mbufs: array<Mbuf>, n: nat)
      requires n < keys.Length && n < mbufs.Length
      modifies keys, mbufs
      ensures mbufs[..n + 1] == old(mbufs[..n]) + [m] && keys[..n + 1] == old(keys[..n]) + [key]
    {
      mbufs[n], keys[n] := m, key;
    }

    /** One packet of the parse loop; k and k' are the packets in flight before and after. */
    method ParseOne(m: Mbuf, keys: array<Key>, mbufs: array<Mbuf>, n: nat, ghost k: multiset<nat>,
                    ghost k': multiset<nat>)
      returns (n': nat)
      requires n < keys.Length && n < mbufs.Length && ParseStep(m, k, k') && Owned(k) && Conserved(|k|)
      modifies `stats, `freed, keys, mbufs
      ensures Owned(k') && Conserved(|k'|)
      ensures n' == if ParseOf(m).ParseOk? then n + 1 else n
      ensures mbufs[..n'] == if ParseOf(m).ParseOk? then old(mbufs[..n]) + [m] else old(mbufs[..n])
      ensures keys[..n'] == if ParseOf(m).ParseOk? then old(keys[..n]) + [ParseOf(m).key] else old(keys[..n])
      ensures stats == old(stats).(rxBytes := old(stats).rxBytes + m.len, rxFiltered := stats.rxFiltered)
    {
      stats := stats.(rxBytes := stats.rxBytes + m.len);
      var parsed := ExtractKey(m.data, |m.data|);
      if !parsed.ParseOk? {
        Filter(m, k');
        return n;
      }
      Keep(m, parsed.key, keys, mbufs, n);
      return n + 1;
    }

    /** The parse loop keeps the packets that have a 5-tuple, in order, with their keys. */
    method ParseBurst(rx: seq<Mbuf>, keys: array<Key>, mbufs: array<Mbuf>) returns (n: nat)
      requires |rx| <= keys.Length && |rx| <= mbufs.Length && Owned(IdSet(rx)) && Conserved(|rx|)
      modifies `stats, `freed, keys, mbufs
      ensures n <= |rx| && mbufs[..n] == Parsable(rx) && keys[..n] == KeysOf(Parsable(rx))
      ensures Owned(IdSet(Parsable(rx))) && Conserved(|IdSet(Parsable(rx))|)
      ensures stats == old(stats).(rxBytes := old(stats).rxBytes + BytesOf(rx), rxFiltered := stats.rxFiltered)
    {
      n := 0;
      ghost var stages := KeptStages(rx);
      for i := 0 to |rx|
        invariant n <= i && mbufs[..n] == Parsable(rx[..i]) && keys[..n] == KeysOf(Parsable(rx[..i]))
        invariant Owned(stages[i]) && Conserved(|stages[i]|)
        invariant stats == old(stats).(rxBytes := old(stats).rxBytes + BytesOf(rx[..i]), rxFiltered := stats.rxFiltered)
      {
        ParsableNext(rx, i);
        assert rx[..i + 1][..i] == rx[..i];
        n := ParseOne(rx[i], keys, mbufs, n, stages[i], stages[i + 1]);
      }
      assert rx[..|rx|] == rx;
    }

    /** rte_hash_lookup_bulk */
    method BulkLookup(keys: array<Key>, n: nat, positions: array<int>)
      requires Valid() && n <= keys.Length && n <= positions.Length
      modifies positions
      ensures positions[..n] == LookupBulk(ft.hash, keys[..n])
    {
      for i := 0 to n
        invariant forall j | 0 <= j < i :: positions[j] == Lookup(ft.hash, keys[j])
      {
        positions[i] := Lookup(ft.hash, keys[i]);
      }
    }

    /** What a burst is compared by. */
    ghost function V(): View
      reads `stats, ft, ft.hot, ft.cold
    {
      View(stats.replacementSuccess, Slack(), S())
    }

    /** The state of the loop right after the bulk lookup. */
    ghost function LoopStart(ms: seq<Mbuf>, tsc: nat): Loop
      reads `stats, ft, ft.hot, ft.cold
    {
      Loop(Burst(T(), KeysOf(ms), LookupBulk(ft.hash, KeysOf(ms)), tsc), ms, [], [], IdSet(ms), [S()], stats, Slack())
    }

    /** The arrays before the bulk lookup: the parsed packets with their keys, nothing else. */
    ghost predicate Prepared(l: Locals, n: nat, ms: seq<Mbuf>)
      reads l.keys, l.mbufs, l.buffers
    {
      && n == |ms| <= BURST_SIZE && n <= l.keys.Length && n <= l.mbufs.Length && n <= l.positions.Length
      && l.resolved.Length == BURST_SIZE && l.buffers.Length == NUM_WORKERS && AllEmpty(l.buffers[..])
      && l.keys[..n] == KeysOf(ms) && l.mbufs[..n] == ms
    }

    /** The bulk lookup and the per-packet loop. */
    method LookupAndResolve(l: Locals, n: nat, tsc: nat, now: nat, ghost ms: seq<Mbuf>) returns (ghost g: Loop)
      requires Valid() && Prepared(l, n, ms) && Owned(IdSet(ms)) && Conserved(|IdSet(ms)|)
      modifies `stats, `freed, ft`hash, ft`victims, ft.hot, ft.cold, l.positions, l.resolved, l.buffers
      ensures Valid() && g.ms == ms && |g.flows| == |ms| && Placed(ms, g.flows, l.buffers[..])
      ensures Owned(InFlight(ms, g.flows)) && Conserved(|InFlight(ms, g.flows)|)
      ensures Refines(old(V()), V(), E(tsc), ms, g.flows, g.stages, false)
    {
      BulkLookup(l.keys, n, l.positions);
      AgreesStart(T(), KeysOf(ms), E(tsc));
      PlacedStart(ms, l.buffers[..]);
      InHandStart(ms);
      g := ResolveBurst(l, n, tsc, now, LoopStart(ms, tsc));
      EndRefines(g, old(V()));
      InHandIs(g.k, g.ms, g.flows);
    }

    /** The end of the loop, in terms of the table before the burst. */
    lemma EndRefines(g: Loop, v: View)
      requires Ended(g) && |g.stages| > 0 && g.stages[0].table == g.b.t0
      requires v == View(g.before.replacementSuccess, g.slack, g.stages[0])
      requires g.b.keys == KeysOf(g.ms) && g.b.positions == LookupBulk(g.b.t0.hash, g.b.keys)
      ensures Refines(v, V(), E(g.b.tsc), g.ms, g.flows, g.stages, false)
    {
    }

    /** The arrays at the start of a turn. */
    ghost predicate Blank(l: Locals)
      reads l.buffers
    {
      && l.keys.Length == l.mbufs.Length == l.positions.Length == l.resolved.Length == BURST_SIZE
      && l.buffers.Length == NUM_WORKERS && AllEmpty(l.buffers[..])
    }

    /** The local arrays of the thread. */
    method Allocate() returns (l: Locals)
      ensures Blank(l)
      ensures fresh(l.keys) && fresh(l.mbufs) && fresh(l.positions) && fresh(l.resolved) && fresh(l.buffers)
    {
      var keys := new Key[BURST_SIZE](i => ZERO_KEY);
      var mbufs := new Mbuf[BURST_SIZE](i => Mbuf(0, 0, 0, 0, []));
      var positions := new int[BURST_SIZE](i => -1);
      var resolved := new Resolved[BURST_SIZE](i => Resolved(0, Flow(0, 0, 0)));
      var buffers := new seq<Mbuf>[NUM_WORKERS](i => []);
      l := Locals(keys, mbufs, positions, resolved, buffers);
    }

    /** The parsed packets of a burst, up to the quiescent report. */
    method HandleParsed(l: Locals, n: nat, tsc: nat, now: nat, ghost ms: seq<Mbuf>)
      returns (ghost g: Loop, ghost taken: seq<nat>)
      requires Valid() && Prepared(l, n, ms) && Owned(IdSet(ms)) && Conserved(|IdSet(ms)|) && Tracked()
      modifies `stats, `sent, `enqueued, `freed, ft`hash, ft`victims, ft.hot, ft.cold, l.positions, l.resolved,
        l.buffers
      ensures Valid() && AtRest()
      ensures Delivered(old(sent), sent, ms, g.flows, taken)
      ensures Refines(old(V()), V(), E(tsc), ms, g.flows, g.stages, false)
    {
      g := LookupAndResolve(l, n, tsc, now, ms);
      ghost var v := V();
      taken := EnqueueAll(l.buffers, ms, g.flows);
      RefinesSame(old(V()), old(V()), V(), v, E(tsc), ms, g.flows, g.stages);
    }

    /** Count the received packets and parse them. */
    method Receive(rx: seq<Mbuf>, keys: array<Key>, mbufs: array<Mbuf>) returns (n: nat)
      requires |rx| <= keys.Length && |rx| <= mbufs.Length && Owned(multiset{}) && Conserved(0)
      modifies `stats, `received, `freed, keys, mbufs
      ensures n <= |rx| && mbufs[..n] == Parsable(rx) && keys[..n] == KeysOf(Parsable(rx))
      ensures received == old(received) + IdSet(rx)
      ensures Owned(IdSet(Parsable(rx))) && Conserved(|IdSet(Parsable(rx))|)
      ensures stats.replacementSuccess == old(stats).replacementSuccess && Slack() == old(Slack())
    {
      stats := stats.(rxPkts := stats.rxPkts + |rx|);
      received := received + IdSet(rx);
      n := ParseBurst(rx, keys, mbufs);
    }

    /** A non-empty burst, up to the quiescent report; without parsed packets there is no lookup. */
    method HandleBurst(l: Locals, rx: seq<Mbuf>, tsc: nat, now: nat)
      returns (ghost flows: seq<Option<Flow>>, ghost stages: seq<Stage>, ghost taken: seq<nat>)
      requires Valid() && |rx| <= BURST_SIZE && AtRest() && Blank(l)
      modifies this, ft`hash, ft`victims, ft.hot, ft.cold, l.keys, l.mbufs, l.positions, l.resolved, l.buffers
      ensures Valid() && AtRest() && received == old(received) + IdSet(rx)
      ensures Delivered(old(sent), sent, Parsable(rx), flows, taken)
      ensures Refines(old(V()), V(), E(tsc), Parsable(rx), flows, stages, false)
    {
      var n := Receive(rx, l.keys, l.mbufs);
      ghost var v := V();
      if n > 0 {
        ghost var g;
        g, taken := HandleParsed(l, n, tsc, now, Parsable(rx));
        flows, stages := g.flows, g.stages;
      } else {
        flows, stages, taken := [], [S()], [0, 0, 0, 0];
        NothingRefines(V(), E(tsc));
        DeliverNothing(sent);
      }
      RefinesSame(old(V()), v, V(), V(), E(tsc), Parsable(rx), flows, stages);
    }

    /** One turn of dispatcher_thread's loop with the packets the port delivered. */
    method Poll(rx: seq<Mbuf>, tsc: nat, now: nat)
      returns (ghost flows: seq<Option<Flow>>, ghost stages: seq<Stage>, ghost taken: seq<nat>)
      requires Valid() && |rx| <= BURST_SIZE && AtRest()
      modifies this, ft`hash, ft`victims, ft.hot, ft.cold
      ensures Valid() && AtRest() && received == old(received) + IdSet(rx)
      ensures Delivered(old(sent), sent, Parsable(rx), flows, taken)
      ensures CarriedOver(old(sent), sent, Parsable(rx), flows, taken)
      ensures Refines(old(V()), V(), E(tsc), Parsable(rx), flows, stages, true)
      ensures ft.hash.dispatcherCnt == ft.hash.token
      ensures forall i | 0 <= i < |ft.hash.dq| :: ft.hash.dq[i].token <= ft.hash.dispatcherCnt
    {
      flows, stages, taken := [], [S()], [0, 0, 0, 0];
      if |rx| > 0 {
        var l := Allocate();
        flows, stages, taken := HandleBurst(l, rx, tsc, now);
      } else {
        NothingRefines(V(), E(tsc));
        DeliverNothing(sent);
      }
      ghost var mid := V();
      BurstCarries(old(V()), mid, E(tsc), Parsable(rx), flows, stages, false, old(sent), sent, taken);
      ft.ReportQuiescent(DispatcherActor);
      ReportRefines(old(V()), mid, E(tsc), Parsable(rx), flows, stages);
    }

    /** A turn within a run that began at v; `after` is what will have been received. */
    method Turn(rx: Rx, ghost v: View, ghost after: multiset<nat>)
      requires Valid() && AtRest() && |rx.packets| <= BURST_SIZE && SlackShrinks(v, V())
      requires after == received + IdSet(rx.packets)
      modifies this, ft`hash, ft`victims, ft.hot, ft.cold
      ensures Valid() && AtRest() && SlackShrinks(v, V()) && received == after
    {
      ghost var flows, stages, taken := Poll(rx.packets, rx.tsc, rx.now);
    }

    /** Any number of turns. */
    method Turns(polls: seq<Rx>)
      requires Valid() && AtRest()
      requires forall i | 0 <= i < |polls| :: |polls[i].packets| <= BURST_SIZE
      modifies this, ft`hash, ft`victims, ft.hot, ft.cold
      ensures Valid() && AtRest() && received == old(received) + ReceivedIn(polls)
      ensures SlackShrinks(old(V()), V())
    {
      ghost var v := V();
      ghost var stages := ReceivedStages(received, polls);
      for i := 0 to |polls|
        invariant Valid() && AtRest() && SlackShrinks(v, V()) && received == stages[i]
      {
        Turn(polls[i], v, stages[i + 1]);
      }
    }

    /** The thread: any number of turns, then it leaves RCU. At the end no packet is in flight:
        each one received was freed or sits in exactly one ring, and the counters add up. */
    method Run(polls: seq<Rx>)
      requires Valid() && AtRest()
      requires forall i | 0 <= i < |polls| :: |polls[i].packets| <= BURST_SIZE
      modifies this, ft`hash, ft`victims, ft.hot, ft.cold
      ensures Valid() && received == old(received) + ReceivedIn(polls) && received == freed + BufferIds(sent)
      ensures stats.rxPkts
           == stats.rxFiltered + (stats.hashAddFailures - stats.retrySuccess) + stats.ringDrop + |BufferIds(sent)|
      ensures stats.ReplacementBooks() && SlackShrinks(old(V()), V())
    {
      Turns(polls);
      InRingsIs(enqueued, sent);
      ft.GoOffline(DispatcherActor);
    }
  }

  /** One poll of the port: the packets it delivered and the clock readings of the turn. */
  datatype Rx = Rx(packets: seq<Mbuf>, tsc: nat, now: nat)

  function ReceivedIn(polls: seq<Rx>): multiset<nat> {
    if polls == [] then multiset{} else ReceivedIn(polls[..|polls| - 1]) + IdSet(polls[|polls| - 1].packets)
  }

  /** The packet lengths of a burst together. */
  function BytesOf(ms: seq<Mbuf>): nat {
    if ms == [] then 0 else BytesOf(ms[..|ms| - 1]) + ms[|ms| - 1].len
  }

  lemma ReceivedLast(before: multiset<nat>, polls: seq<Rx>, i: nat)
    requires i < |polls|
    ensures before + ReceivedIn(polls[..i + 1]) == before + ReceivedIn(polls[..i]) + IdSet(polls[i].packets)
  {
    assert polls[..i + 1][..i] == polls[..i];
  }

  /** What has been received before each poll, and at the end. */
  lemma ReceivedStages(before: multiset<nat>, polls: seq<Rx>) returns (stages: seq<multiset<nat>>)
    ensures |stages| == |polls| + 1 && stages[0] == before && stages[|polls|] == before + ReceivedIn(polls)
    ensures forall i | 0 <= i < |polls| :: stages[i + 1] == stages[i] + IdSet(polls[i].packets)
  {
    stages := seq(|polls| + 1, i requires 0 <= i <= |polls| => before + ReceivedIn(polls[..i]));
    assert polls[..|polls|] == polls;
    forall i | 0 <= i < |polls| ensures stages[i + 1] == stages[i] + IdSet(polls[i].packets) {
      ReceivedLast(before, polls, i);
    }
  }

  /** The first |taken| workers have their packets. */
  ghost predicate Handed(sent: seq<seq<Mbuf>>, sent': seq<seq<Mbuf>>, bufs: seq<seq<Mbuf>>, taken: seq<nat>) {
    && |taken| <= NUM_WORKERS == |sent| == |sent'| == |bufs|
    && (forall v | 0 <= v < |taken| :: taken[v] <= |bufs[v]| && sent'[v] == sent[v] + bufs[v][..taken[v]])
    && (forall v | |taken| <= v < NUM_WORKERS :: sent'[v] == sent[v])
  }

  lemma HandedNext(sent: seq<seq<Mbuf>>, sent': seq<seq<Mbuf>>, bufs: seq<seq<Mbuf>>, taken: seq<nat>, k: nat)
    requires Handed(sent, sent', bufs, taken) && |taken| < NUM_WORKERS && k <= |bufs[|taken|]|
    ensures var w := |taken|;
      Handed(sent, sent'[w := sent'[w] + bufs[w][..k]], bufs, taken + [k])
  {
  }

  /** g is a later state of the loop over the same burst. */
  ghost predicate SameBurst(g0: Loop, g: Loop) {
    && g == g0.(flows := g.flows, rs := g.rs, k := g.k, stages := g.stages)
    && |g0.stages| > 0 && |g.stages| > 0 && g.stages[0] == g0.stages[0]
  }

  /** k are the packets in these buffers. */
  ghost predicate InRings(k: multiset<nat>, bufs: seq<seq<Mbuf>>) {
    forall id {:trigger BufferIds(bufs)[id]} :: k[id] == BufferIds(bufs)[id]
  }

  lemma InRingsIs(k: multiset<nat>, bufs: seq<seq<Mbuf>>)
    requires InRings(k, bufs)
    ensures k == BufferIds(bufs)
  {
    assert forall id :: k[id] == BufferIds(bufs)[id];
  }

  lemma RingGrows(k: multiset<nat>, bufs: seq<seq<Mbuf>>, w: nat, more: seq<Mbuf>)
    requires InRings(k, bufs) && w < |bufs|
    ensures InRings(k + IdSet(more), bufs[w := bufs[w] + more])
  {
    InRingsIs(k, bufs);
    BufferIdsGrow(bufs, w, more);
  }

  lemma NothingInRings(bufs: seq<seq<Mbuf>>)
    requires AllEmpty(bufs)
    ensures InRings(multiset{}, bufs)
  {
    assert bufs[0..] == bufs;
    BufferIdsNext(bufs, 0);
    BufferIdsNext(bufs, 1);
    BufferIdsNext(bufs, 2);
    BufferIdsNext(bufs, 3);
  }

  lemma DeliverNothing(sent: seq<seq<Mbuf>>)
    requires |sent| == NUM_WORKERS
    ensures Delivered(sent, sent, [], [], [0, 0, 0, 0])
  {
  }

  /** Every packet of ms that got a flow is stamped with it and, in arrival order, enqueued to
      its worker up to what the ring took. */
  ghost predicate Delivered(sent: seq<seq<Mbuf>>, sent': seq<seq<Mbuf>>, ms: seq<Mbuf>, flows: seq<Option<Flow>>,
                            taken: seq<nat>) {
    && |flows| == |ms| && |taken| == NUM_WORKERS == |sent| == |sent'| && WorkersInRange(flows)
    && forall w | 0 <= w < NUM_WORKERS ::
         taken[w] <= |Routed(ms, flows, w)| && sent'[w] == sent[w] + Routed(ms, flows, w)[..taken[w]]
  }

  /** Every packet that got a flow goes to that flow's worker behind the worker's earlier packets,
      up to what its ring took, and carries the slot and the generation of the flow. */
  ghost predicate CarriedOver(sent: seq<seq<Mbuf>>, sent': seq<seq<Mbuf>>, ms: seq<Mbuf>, flows: seq<Option<Flow>>,
                              taken: seq<nat>) {
    && |flows| == |ms| && |taken| == NUM_WORKERS == |sent| == |sent'|
    && (forall w | 0 <= w < NUM_WORKERS ::
          sent[w] <= sent'[w] && |sent'[w]| == |sent[w]| + taken[w] && taken[w] <= RankOf(flows, |flows|, w))
    && forall i | 0 <= i < |flows| && flows[i].Some? :: PacketCarried(sent, sent', ms, flows, taken, i)
  }

  ghost predicate PacketCarried(sent: seq<seq<Mbuf>>, sent': seq<seq<Mbuf>>, ms: seq<Mbuf>, flows: seq<Option<Flow>>,
                                taken: seq<nat>, i: nat)
    requires i < |flows| == |ms| && |taken| == |sent| == |sent'| && flows[i].Some?
  {
    var w := flows[i].value.worker;
    && w < |sent|
    && (RankOf(flows, i, w) < taken[w] ==>
          && |sent[w]| + RankOf(flows, i, w) < |sent'[w]|
          && Carries(sent'[w][|sent[w]| + RankOf(flows, i, w)], ms[i], flows[i].value))
  }

  lemma DeliveredCarries(sent: seq<seq<Mbuf>>, sent': seq<seq<Mbuf>>, ms: seq<Mbuf>, flows: seq<Option<Flow>>,
                         taken: seq<nat>)
    requires Delivered(sent, sent', ms, flows, taken)
    requires forall i | 0 <= i < |flows| && flows[i].Some? :: flows[i].value.position < U32_MODULUS
    ensures CarriedOver(sent, sent', ms, flows, taken)
  {
    forall w | 0 <= w < NUM_WORKERS ensures |Routed(ms, flows, w)| == RankOf(flows, |flows|, w) {
      RoutedLength(ms, flows, w);
    }
    forall i | 0 <= i < |flows| && flows[i].Some? ensures PacketCarried(sent, sent', ms, flows, taken, i) {
      RoutedPacket(ms, flows, flows[i].value.worker, i);
    }
  }

  /** What a burst enqueues, over the stages it went through. */
  lemma BurstCarries(v: View, v': View, e: Env, ms: seq<Mbuf>, flows: seq<Option<Flow>>, stages: seq<Stage>,
                     report: bool, sent: seq<seq<Mbuf>>, sent': seq<seq<Mbuf>>, taken: seq<nat>)
    requires Refines(v, v', e, ms, flows, stages, report) && |v.at.table.hot| < U32_MODULUS
    requires Delivered(sent, sent', ms, flows, taken)
    ensures CarriedOver(sent, sent', ms, flows, taken)
  {
    BurstTouches(stages, KeysOf(ms), LookupBulk(v.at.table.hash, KeysOf(ms)), flows, e, |flows|);
    DeliveredCarries(sent, sent', ms, flows, taken);
  }

  /** The count of successful replacements, the gap between mapped and created flows, and the
      table with the victim ring. */
  datatype View = View(replaced: nat, slack: int, at: Stage)

  /** Mapped flows plus counted deletions fall behind the created flows only through successful
      replacements. */
  ghost predicate SlackShrinks(v: View, v': View) {
    v.replaced <= v'.replaced && v'.slack <= v.slack && (v'.replaced == v.replaced ==> v'.slack == v.slack)
  }

  /** Packet by packet the table and the ring go through `stages`; unless a replacement succeeded
      in between, flows and table are those of one-by-one handling. */
  ghost predicate Refines(v: View, v': View, e: Env, ms: seq<Mbuf>, flows: seq<Option<Flow>>, stages: seq<Stage>,
                          report: bool) {
    && SlackShrinks(v, v')
    && |flows| == |ms| && Chain(stages, KeysOf(ms), LookupBulk(v.at.table.hash, KeysOf(ms)), flows, e)
    && stages[0] == v.at && v'.at == Reported(stages[|ms|], report)
    && (v'.replaced == v.replaced ==> OneByOne(v.at.table, KeysOf(ms), e) == Trace(stages[|ms|].table, flows))
  }

  lemma RefinesSame(v: View, w: View, v': View, w': View, e: Env, ms: seq<Mbuf>, flows: seq<Option<Flow>>,
                    stages: seq<Stage>)
    requires v == w && v' == w' && Refines(w, w', e, ms, flows, stages, false)
    ensures Refines(v, v', e, ms, flows, stages, false)
  {
  }

  lemma NothingRefines(v: View, e: Env)
    ensures Refines(v, v, e, [], [], [v.at], false)
  {
  }

  lemma ReportRefines(v: View, mid: View, e: Env, ms: seq<Mbuf>, flows: seq<Option<Flow>>, stages: seq<Stage>)
    requires Refines(v, mid, e, ms, flows, stages, false)
    ensures Refines(v, mid.(at := Reported(mid.at, true)), e, ms, flows, stages, true)
  {
  }

  /** The stage before or after the dispatcher's quiescent report at the end of a burst. */
  function Reported(s: Stage, report: bool): Stage {
    if report then s.(table := s.table.(hash := Quiescent(s.table.hash, DispatcherActor))) else s
  }
}
