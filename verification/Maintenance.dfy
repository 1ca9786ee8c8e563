/** The maintenance part of the stats thread (src/stats.c): each tick goes offline and online
    again, ages, evicts under pressure, reports quiescent and reclaims. */
module Maintenance {
  import opened FlowTypes
  import opened HashTable
  import opened AgingScan
  import opened FlowTableSpec
  import opened PressureSpec
  import opened FlowTableLaws
  import FlowTable

  const RECLAIM_ROUNDS := 1024

  /** The thread's part of struct lcore_stats. */
  datatype Stats = Stats(agingScanned: nat, agingExpired: nat, agingDeleted: nat, flowsDeleted: nat,
                         victimEvicted: nat, agingReclaimed: nat)

  /** rte_hash_count: every slot that is not free, so slots awaiting reclaim count as well. */
  function CountOf(h: Hash): nat {
    if |h.free| <= |h.keyStore| then |h.keyStore| - |h.free| else 0
  }

  lemma CountIncludesDeferred(h: Hash)
    requires HashTable.Valid(h)
    ensures CountOf(h) == |h.mapped| + |h.dq|
  {
  }

  /** What a tick starts from; `raced` is what other threads do to the pressure pass. */
  datatype Inputs = Inputs(h: Hash, victims: seq<nat>, hot: seq<Hot>, agingIter: nat, pressureIter: nat,
                           agingNow: nat, pressureNow: nat, timeout: nat, batch: nat, raced: set<nat>)

  ghost predicate InputsValid(t: Inputs) {
    HashTable.Valid(t.h) && t.agingIter <= |t.h.keyStore| <= |t.hot| && t.pressureIter <= |t.h.keyStore|
  }

  /** The table when the thread is back online. */
  function Online(t: Inputs): Hash {
    Quiescent(Offline(t.h, MaintenanceActor), MaintenanceActor)
  }

  function AgedSlots(t: Inputs): seq<nat>
    requires t.agingIter <= |t.h.keyStore|
  {
    Scan(Occupancy(Online(t)), t.agingIter, ScanBudget(|t.hot|)).0
  }

  /** The table after the aging tick. */
  function Aged(t: Inputs): Hash
    requires t.agingIter <= |t.h.keyStore|
  {
    AgeAll(Online(t), t.hot, AgedSlots(t), t.agingNow, t.timeout)
  }

  function ModeOf(t: Inputs): Mode
    requires t.agingIter <= |t.h.keyStore|
  {
    if CountOf(Aged(t)) > 0 then ModeFor(|t.hot|, CountOf(Aged(t))) else Normal
  }

  lemma {:induction false} AgeAllKeepsStore(h: Hash, hot: seq<Hot>, visited: seq<nat>, now: nat, timeout: nat)
    ensures AgeAll(h, hot, visited, now, timeout).keyStore == h.keyStore
    decreases |visited|
  {
    if visited != [] { AgeAllKeepsStore(h, hot, visited[..|visited| - 1], now, timeout); }
  }

  /** The limits of the pressure pass. */
  function PassLimits(t: Inputs): Limits
    requires t.agingIter <= |t.h.keyStore|
  {
    LimitsFor(|t.hot|, ModeOf(t), CountOf(Aged(t)), t.pressureNow, t.timeout, t.raced)
  }

  /** The slots the pressure pass visits. */
  function PressedSlots(t: Inputs): seq<nat>
    requires t.agingIter <= |t.h.keyStore| && t.pressureIter <= |t.h.keyStore|
  {
    AgeAllKeepsStore(Online(t), t.hot, AgedSlots(t), t.agingNow, t.timeout);
    PassSlots(Aged(t), |t.hot|, t.pressureIter, ModeOf(t))
  }

  /** The table and the victim cache after the pressure pass; in normal mode there is none. */
  function Pressed(t: Inputs): PressureRun
    requires t.agingIter <= |t.h.keyStore| && t.pressureIter <= |t.h.keyStore|
  {
    AgeAllKeepsStore(Online(t), t.hot, AgedSlots(t), t.agingNow, t.timeout);
    if ModeOf(t) == Normal then StartRun(Aged(t), t.victims)
    else PressureAll(StartRun(Aged(t), t.victims), t.hot, PressedSlots(t), PassLimits(t))
  }

  /** The table after the tick. */
  function Ticked(t: Inputs): Hash
    requires t.agingIter <= |t.h.keyStore| && t.pressureIter <= |t.h.keyStore|
  {
    Rounds(Quiescent(Pressed(t).hash, MaintenanceActor), RECLAIM_ROUNDS, t.batch)
  }

  /** A flow may go only if it was published and idle: past the timeout for aging, past what the
      mode asks for under pressure. */
  ghost predicate MayGo(t: Inputs, k: Key)
    requires t.agingIter <= |t.h.keyStore|
  {
    && k in t.h.mapped && t.h.mapped[k] < |t.hot|
    && (LongIdle(t.hot, t.h.mapped[k], t.agingNow, t.timeout)
        || (ModeOf(t) != Normal && ModeAdmits(ModeOf(t), t.hot[t.h.mapped[k]].lastSeen, t.pressureNow, t.timeout)))
  }

  lemma OnlineValid(t: Inputs)
    requires InputsValid(t)
    ensures HashTable.Valid(Online(t)) && Online(t).mapped == t.h.mapped && Online(t).keyStore == t.h.keyStore
    ensures Online(t).dq == t.h.dq && Online(t).free == t.h.free && Online(t).dispatcherCnt == t.h.dispatcherCnt
  {
    ReportKeepsValid(t.h, MaintenanceActor);
    ReportKeepsValid(Offline(t.h, MaintenanceActor), MaintenanceActor);
  }

  /** The aging part: what is left of the table. */
  lemma AgedFacts(t: Inputs)
    requires InputsValid(t)
    ensures HashTable.Valid(Aged(t)) && Aged(t).keyStore == t.h.keyStore
    ensures AgedRightly(t.h, t.hot, AgedSlots(t), t.agingNow, t.timeout, Aged(t))
  {
    OnlineValid(t);
    AgeAllKeepsValid(Online(t), t.hot, AgedSlots(t), t.agingNow, t.timeout);
    AgeAllKeepsStore(Online(t), t.hot, AgedSlots(t), t.agingNow, t.timeout);
    ScannedFlowsWereIdle(Online(t), t.hot, t.agingIter, ScanBudget(|t.hot|), t.agingNow, t.timeout);
  }

  lemma PressedFacts(t: Inputs)
    requires InputsValid(t)
    ensures HashTable.Valid(Pressed(t).hash) && Pressed(t).hash.keyStore == t.h.keyStore
    ensures |Pressed(t).hash.mapped| + Pressed(t).evicted == |Aged(t).mapped|
    ensures forall k | k in Pressed(t).hash.mapped ::
      k in Aged(t).mapped && Pressed(t).hash.mapped[k] == Aged(t).mapped[k]
    ensures forall k | k in Aged(t).mapped && k !in Pressed(t).hash.mapped ::
      ModeOf(t) != Normal && EligibleAt(t.hot, Aged(t).mapped[k], PassLimits(t))
    ensures Pressed(t).evicted <= EvictBudget(ModeOf(t), |t.hot|, |Aged(t).mapped| + |Aged(t).dq|)
  {
    AgedFacts(t);
    CountIncludesDeferred(Aged(t));
    if ModeOf(t) != Normal {
      PressurePassRespectsLimits(Aged(t), t.victims, t.hot, t.pressureIter, ModeOf(t), CountOf(Aged(t)), t.pressureNow,
                                 t.timeout, t.raced);
      PressureAllKeeps(StartRun(Aged(t), t.victims), t.hot, PressedSlots(t), PassLimits(t));
    }
  }

  /** Over a whole tick: every flow that goes was idle, the others keep their slots; every visited
      flow that is idle past the timeout goes. */
  lemma TickDeletesOnlyIdle(t: Inputs)
    requires InputsValid(t)
    ensures HashTable.Valid(Ticked(t))
    ensures forall k | k in Ticked(t).mapped :: k in t.h.mapped && Ticked(t).mapped[k] == t.h.mapped[k]
    ensures forall k | k in t.h.mapped && k !in Ticked(t).mapped :: MayGo(t, k)
    ensures forall k | k in t.h.mapped && t.h.mapped[k] in AgedSlots(t)
                       && LongIdle(t.hot, t.h.mapped[k], t.agingNow, t.timeout) :: k !in Ticked(t).mapped
  {
    AgedFacts(t);
    TickedIsPressed(t);
    PressedTakesIdle(t);
  }

  /** Reporting and reclaiming remove no flow and move none. */
  lemma TickedIsPressed(t: Inputs)
    requires InputsValid(t)
    ensures HashTable.Valid(Ticked(t)) && Ticked(t).mapped == Pressed(t).hash.mapped
  {
    PressedFacts(t);
    ReportKeepsValid(Pressed(t).hash, MaintenanceActor);
    var q := Quiescent(Pressed(t).hash, MaintenanceActor);
    RoundsKeepMapped(q, RECLAIM_ROUNDS, t.batch);
    RoundsAreOneReclaim(q, RECLAIM_ROUNDS, t.batch);
    ReclaimKeepsValid(q, RECLAIM_ROUNDS * t.batch);
  }

  /** What the pressure part takes, by what the mode admits. */
  lemma PressedTakesIdle(t: Inputs)
    requires InputsValid(t)
    ensures forall k | k in Pressed(t).hash.mapped ::
      k in Aged(t).mapped && Pressed(t).hash.mapped[k] == Aged(t).mapped[k]
    ensures forall k | k in Aged(t).mapped && k !in Pressed(t).hash.mapped ::
      && ModeOf(t) != Normal && Aged(t).mapped[k] < |t.hot|
      && ModeAdmits(ModeOf(t), t.hot[Aged(t).mapped[k]].lastSeen, t.pressureNow, t.timeout)
  {
    PressedFacts(t);
    forall p | 0 <= p < |t.hot|
      ensures EligibleAt(t.hot, p, PassLimits(t))
         <==> ModeAdmits(ModeOf(t), t.hot[p].lastSeen, t.pressureNow, t.timeout)
    {
      EligibleIff(ModeOf(t), t.hot[p].lastSeen, t.pressureNow, t.timeout);
    }
  }

  /** Because the count includes deferred slots, a pass that evicts stops at the target for
      mapped and deferred slots together: the mapped flows alone can fall short of the target by
      as many slots as were still awaiting reclaim, and by no more. */
  lemma PressureTarget(t: Inputs)
    requires InputsValid(t) && Pressed(t).evicted > 0
    ensures |Pressed(t).hash.mapped| + |Aged(t).dq| >= Percent(|t.hot|, TARGET_PCT)
  {
    PressedFacts(t);
  }

  /** Exactly when the mapped flows stay at or above the target after the pass: they were there
      before it, and either no slot awaited reclaim or the visited flows it could evict were no
      more than the mapped flows above the target. */
  lemma PressureTargetIff(t: Inputs)
    requires InputsValid(t)
    ensures var target, mapped := Percent(|t.hot|, TARGET_PCT), |Aged(t).mapped|;
      |Pressed(t).hash.mapped| >= target
      <==> mapped >= target && (ModeOf(t) == Normal || Aged(t).dq == []
                                || EvictableCount(t.hot, PressedSlots(t), PassLimits(t)) <= mapped - target)
  {
    PressedFacts(t);
    AgedFacts(t);
    CountIncludesDeferred(Aged(t));
    EvictedExactly(StartRun(Aged(t), t.victims), t.hot, PressedSlots(t), PassLimits(t));
  }

  /** After a tick the maintenance thread has passed every deletion, and no deferred slot is left
      unless the dispatcher has not passed the oldest one or the rounds ran out; in particular an
      offline dispatcher leaves nothing behind. */
  lemma TickReclaimsAllItCan(t: Inputs)
    requires InputsValid(t)
    ensures Ticked(t).maintenanceCnt == Ticked(t).token && Ticked(t).dispatcherCnt == t.h.dispatcherCnt
    ensures var h := Ticked(t);
      || h.dq == [] || 0 < h.dispatcherCnt < h.dq[0].token
      || |Pressed(t).hash.dq| - |h.dq| == 1024 * t.batch
    ensures t.h.dispatcherCnt == 0 && |Pressed(t).hash.dq| < 1024 * t.batch ==> Ticked(t).dq == []
  {
    var q := Quiescent(Pressed(t).hash, MaintenanceActor);
    RoundsAreOneReclaim(q, RECLAIM_ROUNDS, t.batch);
    ReclaimCount(q, RECLAIM_ROUNDS * t.batch);
    ReclaimKeepsCounters(q, RECLAIM_ROUNDS * t.batch);
    PressedKeepsCounters(t);
    TickDeletesOnlyIdle(t);
    PressedFacts(t);
  }

  lemma {:induction false} ReclaimKeepsCounters(h: Hash, n: nat)
    ensures var r := Reclaim(h, n);
      r.token == h.token && r.dispatcherCnt == h.dispatcherCnt && r.maintenanceCnt == h.maintenanceCnt
    decreases n
  {
    if n != 0 && CanReclaim(h) { ReclaimKeepsCounters(ReclaimOne(h), n - 1); }
  }

  lemma {:induction false} AgeAllKeepsCounter(h: Hash, hot: seq<Hot>, visited: seq<nat>, now: nat, timeout: nat)
    ensures AgeAll(h, hot, visited, now, timeout).dispatcherCnt == h.dispatcherCnt
    decreases |visited|
  {
    if visited != [] { AgeAllKeepsCounter(h, hot, visited[..|visited| - 1], now, timeout); }
  }

  lemma PressedKeepsCounters(t: Inputs)
    requires InputsValid(t)
    ensures Pressed(t).hash.dispatcherCnt == t.h.dispatcherCnt
  {
    AgedFacts(t);
    AgeAllKeepsCounter(Online(t), t.hot, AgedSlots(t), t.agingNow, t.timeout);
    if ModeOf(t) != Normal {
      PressureAllKeeps(StartRun(Aged(t), t.victims), t.hot, PressedSlots(t), PassLimits(t));
    }
  }

  class MaintenanceThread {
    const ft: FlowTable.FlowTable
    var stats: Stats

    /** The thread starts: it registers with RCU and goes online. */
    constructor (ft: FlowTable.FlowTable)
      requires ft.Valid()
      modifies ft`hash
      ensures ft.Valid() && this.ft == ft && stats == Stats(0, 0, 0, 0, 0, 0)
      ensures ft.hash == Quiescent(old(ft.hash), MaintenanceActor)
    {
      this.ft := ft;
      stats := Stats(0, 0, 0, 0, 0, 0);
      new;
      ft.ReportQuiescent(MaintenanceActor);
    }

    ghost function InputsOf(agingNow: nat, pressureNow: nat, timeout: nat, raced: set<nat>): Inputs
      reads ft, ft.hot
    {
      Inputs(ft.hash, ft.victims, ft.hot[..], ft.agingIter, ft.pressureIter,
             agingNow, pressureNow, timeout, ft.reclaimBatch, raced)
    }

    /** Offline while it sleeps, online again, then the aging tick. */
    method Age(agingNow: nat, timeout: nat, ghost t: Inputs)
      requires ft.Valid() && t == InputsOf(agingNow, t.pressureNow, timeout, t.raced)
      modifies `stats, ft`hash, ft`agingIter
      ensures ft.Valid() && ft.hash == Aged(t)
      ensures |ft.hash.mapped| + stats.flowsDeleted == |t.h.mapped| + old(stats).flowsDeleted
      ensures stats.agingScanned == old(stats).agingScanned + |AgedSlots(t)|
      ensures stats.agingDeleted - old(stats).agingDeleted == stats.flowsDeleted - old(stats).flowsDeleted
      ensures stats.agingExpired == old(stats).agingExpired + |ExpiredOf(t.hot, AgedSlots(t), agingNow, timeout)|
      ensures stats.victimEvicted == old(stats).victimEvicted && stats.agingReclaimed == old(stats).agingReclaimed
    {
      ft.GoOffline(MaintenanceActor);
      ft.ReportQuiescent(MaintenanceActor);
      assert ft.hash == Online(t);
      var aged := ft.AgingTick(agingNow, timeout);
      stats := stats.(agingScanned := stats.agingScanned + aged.scanned,
                      agingExpired := stats.agingExpired + aged.expired,
                      agingDeleted := stats.agingDeleted + aged.deleted,
                      flowsDeleted := stats.flowsDeleted + aged.deleted);
    }

    /** The pressure pass, unless the mode is normal. */
    method Press(pressureNow: nat, timeout: nat, raced: set<nat>, ghost t: Inputs)
      requires ft.Valid() && InputsValid(t) && ft.hash == Aged(t) && ft.victims == t.victims && ft.hot[..] == t.hot
      requires ft.pressureIter == t.pressureIter && t.pressureNow == pressureNow && t.timeout == timeout
      requires t.raced == raced
      modifies `stats, ft`hash, ft`pressureIter, ft`victims
      ensures ft.Valid() && ft.hash == Pressed(t).hash && ft.victims == Pressed(t).victims
      ensures |ft.hash.mapped| + stats.flowsDeleted == |old(ft.hash).mapped| + old(stats).flowsDeleted
      ensures stats.victimEvicted - old(stats).victimEvicted == stats.flowsDeleted - old(stats).flowsDeleted
        == Pressed(t).evicted
      ensures stats.agingDeleted == old(stats).agingDeleted && stats.agingReclaimed == old(stats).agingReclaimed
      ensures stats.agingExpired == old(stats).agingExpired
      ensures stats.agingScanned == old(stats).agingScanned + if ModeOf(t) == Normal then 0 else |PressedSlots(t)|
    {
      PressedFacts(t);
      var active := CountOf(ft.hash);
      if active > 0 {
        var mode := ModeFor(ft.Capacity(), active);
        if mode != Normal {
          var pressure := ft.PressureMaintenance(mode, active, pressureNow, timeout, raced);
          stats := stats.(agingScanned := stats.agingScanned + pressure.scanned,
                          flowsDeleted := stats.flowsDeleted + pressure.evicted,
                          victimEvicted := stats.victimEvicted + pressure.evicted);
        }
      }
    }

    /** One tick; deletions by aging and by pressure are all counted. */
    method Tick(agingNow: nat, pressureNow: nat, timeout: nat, raced: set<nat>)
      requires ft.Valid()
      modifies `stats, ft`hash, ft`agingIter, ft`pressureIter, ft`victims
      ensures ft.Valid() && ft.hash == Ticked(old(InputsOf(agingNow, pressureNow, timeout, raced)))
      ensures ft.victims == Pressed(old(InputsOf(agingNow, pressureNow, timeout, raced))).victims
      ensures |ft.hash.mapped| + stats.flowsDeleted == |old(ft.hash).mapped| + old(stats).flowsDeleted
      ensures stats.flowsDeleted - old(stats).flowsDeleted
           == (stats.agingDeleted - old(stats).agingDeleted) + (stats.victimEvicted - old(stats).victimEvicted)
      ensures stats.agingReclaimed - old(stats).agingReclaimed
           == |ft.hash.free| - |Pressed(old(InputsOf(agingNow, pressureNow, timeout, raced))).hash.free|
      ensures var t := old(InputsOf(agingNow, pressureNow, timeout, raced));
        && stats.agingScanned - old(stats).agingScanned
           == |AgedSlots(t)| + (if ModeOf(t) == Normal then 0 else |PressedSlots(t)|)
        && stats.agingExpired - old(stats).agingExpired == |ExpiredOf(t.hot, AgedSlots(t), agingNow, timeout)|
    {
      ghost var t := InputsOf(agingNow, pressureNow, timeout, raced);
      Age(agingNow, timeout, t);
      Press(pressureNow, timeout, raced, t);
      ft.ReportQuiescent(MaintenanceActor);
      RoundsKeepMapped(ft.hash, RECLAIM_ROUNDS, ft.reclaimBatch);
      var reclaimed := ft.ReclaimRounds(RECLAIM_ROUNDS);
      stats := stats.(agingReclaimed := stats.agingReclaimed + reclaimed);
    }
  }
}
