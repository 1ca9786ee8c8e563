/** What the flow table promises over its operations: a deadline for idle flows, the bounds of a
    pressure pass, and what replacement may and may not remove (src/flow_table.c). */
module FlowTableLaws {
  import opened FlowTypes
  import opened HashTable
  import opened AgingScan
  import opened FlowTableSpec
  import opened PressureSpec
  import Pipeline = FlowPipeline
  import SlotSeqlock

  /** What one aging tick finds: the table, the side array and the clock. */
  datatype TickInput = TickInput(h: Hash, hot: seq<Hot>, now: nat)

  function Occupancies(ticks: seq<TickInput>): (occ: seq<seq<bool>>)
    ensures |occ| == |ticks| && forall t | 0 <= t < |ticks| :: occ[t] == Occupancy(ticks[t].h)
  {
    seq(|ticks|, t requires 0 <= t < |ticks| => Occupancy(ticks[t].h))
  }

  /** The table after tick t, whose cursor is the one the ticks before it left. */
  function AfterTick(ticks: seq<TickInput>, n: nat, storageEntries: nat, start: nat, timeout: nat, t: nat): Hash
    requires t < |ticks| && start <= n && forall i | 0 <= i < |ticks| :: |ticks[i].h.keyStore| == n
  {
    var visited := VisitedAt(Occupancies(ticks), n, start, ScanBudget(storageEntries), t);
    AgeAll(ticks[t].h, ticks[t].hot, visited, ticks[t].now, timeout)
  }

  /** Flow k sits in slot p, published and idle past the timeout, when tick t starts. */
  ghost predicate IdleAt(ticks: seq<TickInput>, n: nat, k: Key, p: nat, timeout: nat, t: nat) {
    && 0 <= t < |ticks| && HashTable.Valid(ticks[t].h) && |ticks[t].h.keyStore| == n
    && k in ticks[t].h.mapped && ticks[t].h.mapped[k] == p
    && Expirable(ticks[t].hot, p, ticks[t].now, timeout)
  }

  /** The deadline: whatever flows come, go or stay fresh between ticks, and wherever the cursor
      stands, a flow cannot stay idle through two passes without being deleted. */
  lemma IdleFlowIsDeletedInTime(ticks: seq<TickInput>, n: nat, storageEntries: nat, start: nat, timeout: nat, k: Key,
                                p: nat)
    requires |ticks| == 2 * AGING_NUM_CHUNKS && start <= n <= storageEntries
    requires forall t | 0 <= t < |ticks| :: |ticks[t].h.keyStore| == n
    requires forall t | 0 <= t < |ticks| :: IdleAt(ticks, n, k, p, timeout, t)
    ensures exists t :: 0 <= t < |ticks| && k !in AfterTick(ticks, n, storageEntries, start, timeout, t).mapped
  {
    var occ := Occupancies(ticks);
    assert IdleAt(ticks, n, k, p, timeout, 0);
    forall t | 0 <= t < |occ| ensures |occ[t]| == n && occ[t][p] {
      assert IdleAt(ticks, n, k, p, timeout, t);
    }
    CoverageInTwoPasses(occ, n, storageEntries, start, p);
    var b := ScanBudget(storageEntries);
    var t :| 0 <= t < |ticks| && p in VisitedAt(occ, n, start, b, t);
    assert IdleAt(ticks, n, k, p, timeout, t);
    ScanVisitsOccupied(occ[t], CursorAt(occ, n, start, b, t), b);
    AgeAllRemovesExactly(ticks[t].h, ticks[t].hot, VisitedAt(occ, n, start, b, t), ticks[t].now, timeout);
    assert k !in AfterTick(ticks, n, storageEntries, start, timeout, t).mapped;
  }

  /** A fresh flow survives any tick: deletion needs a published slot idle past the timeout. */
  lemma FreshFlowSurvivesTick(h: Hash, hot: seq<Hot>, cursor: nat, budget: nat, now: nat, timeout: nat, k: Key)
    requires HashTable.Valid(h) && cursor <= |h.keyStore| && k in h.mapped
    ensures var r := AgeAll(h, hot, Scan(Occupancy(h), cursor, budget).0, now, timeout);
      k !in r.mapped ==> Expirable(hot, h.mapped[k], now, timeout) && LongIdle(hot, h.mapped[k], now, timeout)
  {
    ScanVisitsOccupied(Occupancy(h), cursor, budget);
    AgedFlowsWereIdle(h, hot, Scan(Occupancy(h), cursor, budget).0, now, timeout, k);
  }

  /** What the mode and the number of active flows allow a pass. */
  function LimitsFor(slots: nat, mode: Mode, active: nat, now: nat, timeout: nat, raced: set<nat>): Limits {
    Limits(now, MinIdle(mode, timeout), EvictBudget(mode, slots, active), raced)
  }

  /** The slots a pass visits. */
  function PassSlots(h: Hash, slots: nat, cursor: nat, mode: Mode): seq<nat>
    requires cursor <= |h.keyStore|
  {
    Scan(Occupancy(h), cursor, PressureScanBudget(mode, slots)).0
  }

  /** The whole of a pressure pass: its state, as flow_table_pressure_maintenance leaves it. */
  function PressurePass(h: Hash, victims: seq<nat>, hot: seq<Hot>, cursor: nat, mode: Mode, l: Limits): PressureRun
    requires cursor <= |h.keyStore|
  {
    PressureAll(StartRun(h, victims), hot, PassSlots(h, |hot|, cursor, mode), l)
  }

  /** A pressure pass respects all its limits, stale candidates included; when `active` is the
      mapped count it never takes the table below the target. */
  lemma PressurePassRespectsLimits(
    h: Hash, victims: seq<nat>, hot: seq<Hot>, cursor: nat,
    mode: Mode, active: nat, now: nat, timeout: nat, raced: set<nat>)
    requires HashTable.Valid(h) && cursor <= |h.keyStore|
    ensures var l := LimitsFor(|hot|, mode, active, now, timeout, raced);
      var r, scanned := PressurePass(h, victims, hot, cursor, mode, l), PassSlots(h, |hot|, cursor, mode);
      && r.evicted + r.stale + r.candidates <= |scanned| <= PressureScanBudget(mode, |hot|) <= |hot|
      && r.evicted <= EvictBudget(mode, |hot|, active)
      && PressureInv(h, victims, hot, scanned, l, r)
      && (active == |h.mapped| && r.evicted > 0 ==> |r.hash.mapped| >= Percent(|hot|, TARGET_PCT))
  {
    ScanVisitsOccupied(Occupancy(h), cursor, PressureScanBudget(mode, |hot|));
    PressureAllInv(h, victims, hot, PassSlots(h, |hot|, cursor, mode),
                   LimitsFor(|hot|, mode, active, now, timeout, raced));
  }

  /** What a pressure pass takes and leaves, by what the mode admits: every flow that goes was
      visited and admitted; every visited and admitted flow that nobody else gets to goes while the
      budget lasts; when it is spent, the next ones are cached in visiting order. */
  lemma PressurePassByMode(
    h: Hash, victims: seq<nat>, hot: seq<Hot>, cursor: nat,
    mode: Mode, active: nat, now: nat, timeout: nat, raced: set<nat>)
    requires HashTable.Valid(h) && cursor <= |h.keyStore| <= |hot| && |victims| <= 8191
    ensures var l, visited := LimitsFor(|hot|, mode, active, now, timeout, raced), PassSlots(h, |hot|, cursor, mode);
      var r, late := PressurePass(h, victims, hot, cursor, mode, l), Late(hot, visited, l);
      && (forall k | k in h.mapped && k !in r.hash.mapped ::
            h.mapped[k] in visited && ModeAdmits(mode, hot[h.mapped[k]].lastSeen, now, timeout))
      && (r.evicted < EvictBudget(mode, |hot|, active) ==>
            && r.candidates == 0
            && forall k | k in h.mapped && h.mapped[k] in visited && h.mapped[k] !in raced
                          && ModeAdmits(mode, hot[h.mapped[k]].lastSeen, now, timeout) :: k !in r.hash.mapped)
      && (forall i | 0 <= i < |late| :: late[i] < |hot| && ModeAdmits(mode, hot[late[i]].lastSeen, now, timeout))
      && r.candidates == Min(|late|, Min(512, 8191 - |victims|))
      && r.victims == victims + Packed(hot, late[..r.candidates])
  {
    var l, visited := LimitsFor(|hot|, mode, active, now, timeout, raced), PassSlots(h, |hot|, cursor, mode);
    PressurePassRespectsLimits(h, victims, hot, cursor, mode, active, now, timeout, raced);
    CachedExactly(h, victims, hot, visited, l);
    forall p | 0 <= p < |hot| ensures EligibleAt(hot, p, l) <==> ModeAdmits(mode, hot[p].lastSeen, now, timeout) {
      EligibleIff(mode, hot[p].lastSeen, now, timeout);
    }
  }

  /** The side arrays agree with the hash: each mapped slot's cold record spells its key. */
  ghost predicate ColdMatches(h: Hash, cold: seq<Cold>) {
    forall k | k in h.mapped :: h.mapped[k] < |cold| && KeyFromCold(cold[h.mapped[k]]) == k
  }

  /** A cached pair removes a flow exactly when its slot is mapped, published, and still at the
      generation that was cached; the flow removed is the one in that slot. */
  lemma CachedCandidateRemoves(h: Hash, hot: seq<Hot>, cold: seq<Cold>, obj: nat)
    requires HashTable.Valid(h) && ColdMatches(h, cold) && UnpackPosition(obj) < |hot| && |hot| == |cold|
    ensures var p, g, c := UnpackPosition(obj), UnpackGen(obj), CachedCandidate(hot, cold, obj);
      && (Evictable(h, hot, c) <==> h.Occupied(p) && hot[p].gen == g && hot[p].lastSeen != 0)
      && (Evictable(h, hot, c) ==> EvictOne(h, hot, c) == Del(h, h.keyStore[p]))
  {
  }

  /** In every state the pipeline reaches, the cold records agree with the hash except for the
      slot being published; while the dispatcher replaces a flow there is none. */
  lemma PipelineColdMatches(s: Pipeline.State)
    requires Pipeline.Inv(s)
    ensures forall k | k in s.hash.mapped && !(s.side.writer.Busy? && s.side.writer.slot == s.hash.mapped[k]) ::
      s.hash.mapped[k] < |s.side.cold| && KeyFromCold(s.side.cold[s.hash.mapped[k]]) == k
    ensures s.disp.pc.Evicting? || s.disp.pc.Deleting? ==> ColdMatches(s.hash, s.side.cold)
  {
    forall k | k in s.hash.mapped && !(s.side.writer.Busy? && s.side.writer.slot == s.hash.mapped[k])
      ensures s.hash.mapped[k] < |s.side.cold| && KeyFromCold(s.side.cold[s.hash.mapped[k]]) == k
    {
      var p := s.hash.mapped[k];
      assert s.hash.Occupied(p);
      assert Pipeline.OwnerIs(s.side, p, s.hash.keyStore[p]) && SlotSeqlock.SlotInv(s.side, p);
    }
  }

  /** A pair among the first that a replacement takes from the ring removes its flow, when that is
      still the published one of the cached generation. */
  lemma CachedFlowGoes(h: Hash, hot: seq<Hot>, cold: seq<Cold>, ring: seq<nat>, n: nat, i: nat)
    requires HashTable.Valid(h) && ColdMatches(h, cold) && |hot| == |cold| && i < n && i < |ring|
    requires var p := UnpackPosition(ring[i]);
      p < |hot| && h.Occupied(p) && hot[p].gen == UnpackGen(ring[i]) && hot[p].lastSeen != 0
    ensures h.keyStore[UnpackPosition(ring[i])] !in EvictAll(h, hot, CachedOf(hot, cold, ring, n)).mapped
  {
    var tried := CachedOf(hot, cold, ring, n);
    CachedCandidateRemoves(h, hot, cold, ring[i]);
    EvictAllExactly(h, hot, tried);
    assert tried[i] == CachedCandidate(hot, cold, ring[i]);
    assert NamedForEviction(h, hot, tried, h.keyStore[UnpackPosition(ring[i])]);
  }

  /** In every sampled batch that hits a published slot, the slot seen longest ago is tried, and a
      flow in it goes. */
  lemma OldestSampleGoes(h: Hash, hot: seq<Hot>, cold: seq<Cold>, batches: seq<seq<nat>>, b: nat, q: nat)
    requires HashTable.Valid(h) && ColdMatches(h, cold) && |hot| == |cold| && b < |batches|
    requires q in batches[b] && q < |hot| && 0 != hot[q].lastSeen < U64_MAX
    ensures exists p | p in batches[b] && p < |hot| && 0 != hot[p].lastSeen <= hot[q].lastSeen ::
      h.Occupied(p) ==> h.keyStore[p] !in EvictAll(h, hot, SampleCandidates(hot, cold, batches)).mapped
  {
    OldestIsOldest(hot, batches[b], q);
    var p := OldestOf(hot, batches[b]).value;
    var tried := SampleCandidates(hot, cold, batches);
    SampleIsTried(hot, cold, batches, b);
    EvictAllExactly(h, hot, tried);
    if h.Occupied(p) {
      var i :| 0 <= i < |tried| && tried[i] == SlotCandidate(hot, cold, p);
      assert Evictable(h, hot, tried[i]);
      assert NamedForEviction(h, hot, tried, h.keyStore[p]);
    }
  }

  lemma {:induction false} SampleIsTried(hot: seq<Hot>, cold: seq<Cold>, batches: seq<seq<nat>>, b: nat)
    requires |hot| == |cold| && b < |batches| && OldestOf(hot, batches[b]).Some?
    ensures var p := OldestOf(hot, batches[b]).value;
      p < |hot| && SlotCandidate(hot, cold, p) in SampleCandidates(hot, cold, batches)
    decreases |batches|
  {
    var n := |batches| - 1;
    if b < n { SampleIsTried(hot, cold, batches[..n], b); }
  }

  /** When slots are sampled: exactly if the budget allows it and no cached candidate names a
      mapped, published flow; then sixteen times four slots are drawn, else none. */
  lemma SampledIff(h: Hash, hot: seq<Hot>, cached: seq<Candidate>, emergencyScanBudget: nat, batches: seq<seq<nat>>)
    requires SampledAfter(h, hot, cached, emergencyScanBudget, batches)
    ensures batches != [] <==> emergencyScanBudget > 0 && forall i | 0 <= i < |cached| :: !Evictable(h, hot, cached[i])
    ensures batches != [] ==> |batches| == 16
    ensures forall b | 0 <= b < |batches| :: |batches[b]| == 4 && forall i | 0 <= i < 4 :: batches[b][i] < |hot|
  {
    EvictAllExactly(h, hot, cached);
    if i :| 0 <= i < |cached| && Evictable(h, hot, cached[i]) {
      assert NamedForEviction(h, hot, cached, cached[i].key);
    } else {
      EvictNothing(h, hot, cached);
    }
  }

  lemma {:induction false} EvictNothing(h: Hash, hot: seq<Hot>, tried: seq<Candidate>)
    requires forall i | 0 <= i < |tried| :: !Evictable(h, hot, tried[i])
    ensures EvictAll(h, hot, tried) == h
    decreases |tried|
  {
    if tried != [] { EvictNothing(h, hot, tried[..|tried| - 1]); }
  }

  /** Replacement never touches a flow whose slot was never published. */
  lemma UnpublishedIsNeverReplaced(h: Hash, hot: seq<Hot>, tried: seq<Candidate>, k: Key)
    requires k in h.mapped && h.mapped[k] < |hot| && hot[h.mapped[k]].lastSeen == 0
    ensures k in EvictAll(h, hot, tried).mapped && EvictAll(h, hot, tried).mapped[k] == h.mapped[k]
  {
    EvictAllExactly(h, hot, tried);
  }
}
