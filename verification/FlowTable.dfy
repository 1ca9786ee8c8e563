/** The flow table's maintenance operations as one thread runs them (src/flow_table.c).

    The hash is the abstract table of HashTable; its iterator is a cursor over slots, a random
    slot is any slot. Each method is tied to a function of the old state. */
module FlowTable {
  import opened FlowTypes
  import opened HashTable
  import opened AgingScan
  import opened FlowTableSpec
  import opened PressureSpec

  datatype AgingResult = AgingResult(scanned: nat, expired: nat, deleted: nat)
  datatype PressureResult = PressureResult(scanned: nat, candidates: nat, evicted: nat, stale: nat)

  class FlowTable {
    var hash: Hash
    const hot: array<Hot>
    const cold: array<Cold>
    /** Entries the library reclaims per call. */
    const reclaimBatch: nat
    var agingIter: nat
    var pressureIter: nat
    /** g_victim_ring, oldest first. */
    var victims: seq<nat>

    ghost predicate Valid()
      reads this
    {
      && HashTable.Valid(hash)
      && 1 <= hot.Length == cold.Length < U32_MODULUS
      && |hash.keyStore| <= hot.Length && reclaimBatch > 0
      && agingIter <= |hash.keyStore| && pressureIter <= |hash.keyStore|
      && |victims| <= VICTIM_RING_ENTRIES
      && forall i | 0 <= i < |victims| :: UnpackPosition(victims[i]) < hot.Length
    }

    constructor (slots: nat, storageEntries: nat, reclaimBatch: nat)
      requires reclaimBatch > 0
      requires slots <= storageEntries && 1 <= storageEntries < U32_MODULUS
      ensures Valid() && fresh(hot) && fresh(cold)
      ensures hash == EmptyHash(slots) && hot.Length == storageEntries && victims == []
      ensures forall p | 0 <= p < storageEntries :: hot[p] == ZERO_HOT && cold[p] == ZERO_COLD
    {
      hash := EmptyHash(slots);
      hot := new Hot[storageEntries](i => ZERO_HOT);
      cold := new Cold[storageEntries](i => ZERO_COLD);
      this.reclaimBatch := reclaimBatch;
      agingIter, pressureIter := 0, 0;
      victims := [];
      EmptyValid(slots);
    }

    function Capacity(): nat
    {
      hot.Length
    }

    /** candidate_load_slot */
    function LoadSlot(position: nat): Candidate
      reads hot, cold
      requires position < hot.Length == cold.Length
    {
      Candidate(KeyFromCold(cold[position]), position, hot[position].gen, hot[position].lastSeen)
    }

    /** What candidate_delete_if_valid requires of a candidate. */
    predicate Deletable(c: Candidate, now: nat, minIdle: nat)
      reads this, hot
    {
      && Lookup(hash, c.key) == c.position
      && c.position < hot.Length
      && hot[c.position].gen == c.gen
      && Eligible(hot[c.position].lastSeen, now, minIdle)
    }

    /** candidate_delete_if_valid */
    method CandidateDeleteIfValid(c: Candidate, now: nat, minIdle: nat) returns (deleted: bool)
      requires Valid()
      modifies `hash
      ensures Valid()
      ensures deleted == old(Deletable(c, now, minIdle))
      ensures hash == if deleted then Del(old(hash), c.key) else old(hash)
    {
      var position := Lookup(hash, c.key);
      if position < 0 || position != c.position {
        return false;
      }
      if position >= hot.Length {
        return false;
      }
      if hot[position].gen != c.gen {
        return false;
      }
      var lastSeen := hot[position].lastSeen;
      if lastSeen == 0 {
        return false;
      }
      if minIdle > 0 && (!(now > lastSeen) || now - lastSeen <= minIdle) {
        return false;
      }
      DelKeepsValid(hash, c.key);
      hash := Del(hash, c.key);
      return true;
    }

    /** One entry of flush_expired_batch: last_seen is read again before the deletion. */
    method FlushEntry(p: nat, key: Key, now: nat, timeout: nat) returns (deleted: nat)
      requires Valid()
      modifies `hash
      ensures Valid()
      ensures hash == FlushOne(old(hash), hot[..], p, key, now, timeout)
      ensures deleted == |old(hash).mapped| - |hash.mapped|
    {
      deleted := 0;
      if p >= hot.Length {
        return;
      }
      var lastSeen := hot[p].lastSeen;
      if lastSeen == 0 {
        return;
      }
      if !(now > lastSeen) || now - lastSeen <= timeout {
        return;
      }
      var found := Lookup(hash, key);
      DelKeepsValid(hash, key);
      if found >= 0 { CardMinusKey(hash.mapped, key); }
      hash := Del(hash, key);
      if found >= 0 {
        deleted := 1;
      }
    }

    /** flush_expired_batch */
    method FlushExpiredBatch(keys: array<Key>, positions: array<nat>, count: nat, now: nat, timeout: nat)
      returns (deleted: nat)
      requires Valid() && count <= keys.Length && count <= positions.Length
      modifies `hash
      ensures Valid()
      ensures hash == FlushAll(old(hash), hot[..], positions[..count], keys[..count], now, timeout)
      ensures forall k | k in old(hash).mapped ::
        k !in hash.mapped <==> RetainedIdle(hot[..], positions[..count], keys[..count], now, timeout, k)
      ensures deleted == |old(hash).mapped| - |hash.mapped| && deleted <= count
    {
      deleted := 0;
      ghost var before := hash;
      for i := 0 to count
        invariant Valid()
        invariant hash == FlushAll(before, hot[..], positions[..i], keys[..i], now, timeout)
        invariant deleted == |before.mapped| - |hash.mapped|
      {
        FlushLast(before, hot[..], positions[..i], keys[..i], positions[i], keys[i], now, timeout);
        assert positions[..i + 1] == positions[..i] + [positions[i]] && keys[..i + 1] == keys[..i] + [keys[i]];
        var n := FlushEntry(positions[i], keys[i], now, timeout);
        deleted := deleted + n;
      }
      FlushShrinks(before, hot[..], positions[..count], keys[..count], now, timeout);
      forall k | k in before.mapped
        ensures k !in hash.mapped <==> RetainedIdle(hot[..], positions[..count], keys[..count], now, timeout, k)
      {
        FlushedWereIdle(before, hot[..], positions[..count], keys[..count], now, timeout, k);
      }
    }

    /** The slots the next aging tick will visit. */
    ghost function AgingVisits(): seq<nat>
      reads this
      requires Valid()
    {
      Scan(Occupancy(hash), agingIter, ScanBudget(hot.Length)).0
    }

    /** flow_table_aging_tick: with batches of AGING_BATCH_SIZE it removes exactly what deleting
        at every visit would, and leaves the cursor where the next tick resumes. */
    method AgingTick(now: nat, timeout: nat) returns (result: AgingResult)
      requires Valid()
      modifies `hash, `agingIter
      ensures Valid()
      ensures hash == AgeAll(old(hash), hot[..], old(AgingVisits()), now, timeout)
      ensures AgedRightly(old(hash), hot[..], old(AgingVisits()), now, timeout, hash)
      ensures agingIter == Scan(Occupancy(old(hash)), old(agingIter), ScanBudget(hot.Length)).1
      ensures result.scanned == |old(AgingVisits())|
      ensures result.expired == |ExpiredOf(hot[..], old(AgingVisits()), now, timeout)|
      ensures result.deleted == |old(hash).mapped| - |hash.mapped|
      ensures result.deleted <= result.expired <= result.scanned <= ScanBudget(hot.Length)
    {
      ScannedFlowsWereIdle(hash, hot[..], agingIter, ScanBudget(hot.Length), now, timeout);
      var keys := new Key[AGING_BATCH_SIZE](i => ZERO_KEY);
      var positions := new nat[AGING_BATCH_SIZE](i => 0);
      var count, scanned, expired, deleted, t := AgingLoop(keys, positions, now, timeout);
      ghost var h := hash;
      var n := FlushExpiredBatch(keys, positions, count, now, timeout);
      TickEnds(t, hot[..], h, hash);
      result := AgingResult(scanned, expired, deleted + n);
    }

    /** Remembers an expired slot and its key pointer; a full batch is flushed at once. */
    method CollectExpired(keys: array<Key>, positions: array<nat>, count: nat, position: nat, now: nat, timeout: nat,
                          ghost t: Tick)
      returns (kept: nat, deleted: nat, ghost t': Tick)
      requires Valid() && count < keys.Length == positions.Length == AGING_BATCH_SIZE && position < |hash.keyStore|
      requires t.now == now && t.timeout == timeout && Ticking(t, hot[..], agingIter, hash)
      requires t.pending == positions[..count] + [position]
      requires keys[..count] + [hash.keyStore[position]] == KeysAt(t.before, t.pending)
      modifies `hash, keys, positions
      ensures Valid() && kept < AGING_BATCH_SIZE
      ensures (t' == t || t' == Flushed(t)) && Ticking(t', hot[..], agingIter, hash)
      ensures t'.pending == positions[..kept] && keys[..kept] == KeysAt(t.before, t'.pending)
      ensures deleted == |old(hash).mapped| - |hash.mapped|
    {
      keys[count], positions[count] := hash.keyStore[position], position;
      kept, deleted, t' := count + 1, 0, t;
      assert positions[..kept] == t.pending && keys[..kept] == KeysAt(t.before, t.pending);
      if kept >= AGING_BATCH_SIZE {
        deleted := FlushFullBatch(keys, positions, kept, now, timeout, t);
        kept, t' := 0, Flushed(t);
      }
    }

    /** The flush of a full batch, in terms of the tick's bookkeeping. */
    method FlushFullBatch(keys: array<Key>, positions: array<nat>, count: nat, now: nat, timeout: nat, ghost t: Tick)
      returns (deleted: nat)
      requires Valid() && count <= keys.Length && count <= positions.Length
      requires t.now == now && t.timeout == timeout && Ticking(t, hot[..], agingIter, hash)
      requires t.pending == positions[..count] && keys[..count] == KeysAt(t.before, t.pending)
      modifies `hash
      ensures Valid() && Ticking(Flushed(t), hot[..], agingIter, hash)
      ensures deleted == |old(hash).mapped| - |hash.mapped|
    {
      deleted := FlushExpiredBatch(keys, positions, count, now, timeout);
      TickFlushes(t, hot[..], agingIter, old(hash), hash);
    }

    /** One iteration of the scan: false at the end of the table, where the cursor restarts. */
    method AgingVisit(keys: array<Key>, positions: array<nat>, count: nat, now: nat, timeout: nat, ghost t: Tick)
      returns (found: bool, kept: nat, expired: nat, deleted: nat, ghost t': Tick)
      requires Valid() && count < keys.Length == positions.Length == AGING_BATCH_SIZE
      requires t.now == now && t.timeout == timeout && Ticking(t, hot[..], agingIter, hash) && |t.visited| < t.budget
      requires t.pending == positions[..count] && keys[..count] == KeysAt(t.before, t.pending)
      modifies `hash, `agingIter, keys, positions
      ensures Valid() && kept < AGING_BATCH_SIZE
      ensures !found ==> t' == t && hash == old(hash) && agingIter == 0 && expired == 0
                         && Scan(Occupancy(t.before), t.start, t.budget) == (t.visited, 0)
      ensures found ==> Ticking(t', hot[..], agingIter, hash) && |t'.visited| == |t.visited| + 1
      ensures t' == t.(visited := t'.visited, flushed := t'.flushed, pending := t'.pending)
      ensures t'.pending == positions[..kept] && keys[..kept] == KeysAt(t.before, t'.pending)
      ensures |t'.flushed| + |t'.pending| == |t.flushed| + |t.pending| + expired
      ensures deleted == |old(hash).mapped| - |hash.mapped|
    {
      TickVisits(t, hot[..], agingIter, hash);
      var position := NextOccupied(Occupancy(hash), agingIter);
      if position == |hash.keyStore| {
        agingIter := 0;
        return false, count, 0, 0, t;
      }
      agingIter := position + 1;
      found := true;
      kept, expired, deleted, t' := AgingFound(keys, positions, count, position, now, timeout, t);
    }

    /** The slot the iterator returned: collected when idle, else passed. */
    method AgingFound(keys: array<Key>, positions: array<nat>, count: nat, position: nat, now: nat, timeout: nat,
                      ghost t: Tick)
      returns (kept: nat, expired: nat, deleted: nat, ghost t': Tick)
      requires Valid() && count < keys.Length == positions.Length == AGING_BATCH_SIZE && position < |hash.keyStore|
      requires t.now == now && t.timeout == timeout && hash.keyStore[position] == KeyAt(t.before, position)
      requires IdleLonger(hot[position].lastSeen, now, timeout) ==>
        Ticking(Retained(t, position), hot[..], agingIter, hash)
      requires !IdleLonger(hot[position].lastSeen, now, timeout) ==>
        Ticking(Passed(t, position), hot[..], agingIter, hash)
      requires t.pending == positions[..count] && keys[..count] == KeysAt(t.before, t.pending)
      modifies `hash, keys, positions
      ensures Valid() && kept < AGING_BATCH_SIZE
      ensures Ticking(t', hot[..], agingIter, hash) && |t'.visited| == |t.visited| + 1
      ensures t' == t.(visited := t'.visited, flushed := t'.flushed, pending := t'.pending)
      ensures t'.pending == positions[..kept] && keys[..kept] == KeysAt(t.before, t'.pending)
      ensures |t'.flushed| + |t'.pending| == |t.flushed| + |t.pending| + expired
      ensures deleted == |old(hash).mapped| - |hash.mapped|
    {
      var lastSeen := hot[position].lastSeen;
      if now > lastSeen && now - lastSeen > timeout {
        KeysAtAppend(t.before, t.pending, position);
        kept, deleted, t' := CollectExpired(keys, positions, count, position, now, timeout, Retained(t, position));
        expired := 1;
      } else {
        kept, expired, deleted, t' := count, 0, 0, Passed(t, position);
      }
    }

    /** The scan loop of flow_table_aging_tick, up to the final flush. */
    method AgingLoop(keys: array<Key>, positions: array<nat>, now: nat, timeout: nat)
      returns (count: nat, scanned: nat, expired: nat, deleted: nat, ghost t: Tick)
      requires Valid() && keys.Length == positions.Length == AGING_BATCH_SIZE
      modifies `hash, `agingIter, keys, positions
      ensures Valid() && count < AGING_BATCH_SIZE
      ensures t.before == old(hash) && t.now == now && t.timeout == timeout
      ensures Scan(Occupancy(old(hash)), old(agingIter), ScanBudget(hot.Length)) == (t.visited, agingIter)
      ensures Collected(old(hash), hot[..], t.visited, t.flushed, t.pending, hash, now, timeout)
      ensures t.pending == positions[..count] && keys[..count] == KeysAt(old(hash), t.pending)
      ensures scanned == |t.visited| && expired == |t.flushed| + |t.pending|
      ensures deleted == |old(hash).mapped| - |hash.mapped| <= |t.flushed|
    {
      count, scanned, expired, deleted := 0, 0, 0, 0;
      var budget := ScanBudget(hot.Length);
      t := Tick(hash, agingIter, budget, now, timeout, [], [], []);
      TickStarts(t, hot[..]);
      while scanned < budget
        invariant Valid() && scanned == |t.visited| && count < AGING_BATCH_SIZE
        invariant t == Tick(old(hash), old(agingIter), budget, now, timeout, t.visited, t.flushed, t.pending)
        invariant Ticking(t, hot[..], agingIter, hash)
        invariant t.pending == positions[..count] && keys[..count] == KeysAt(old(hash), t.pending)
        invariant expired == |t.flushed| + |t.pending| && deleted == |old(hash).mapped| - |hash.mapped|
      {
        var found, e, n;
        found, count, e, n, t := AgingVisit(keys, positions, count, now, timeout, t);
        expired, deleted := expired + e, deleted + n;
        if !found {
          return;
        }
        scanned := scanned + 1;
      }
      ProgressSpent(Occupancy(t.before), t.start, t.budget, t.visited, agingIter);
    }

    /** victim_cache_push: false when the ring is full. */
    method VictimPush(c: Candidate) returns (ok: bool)
      requires Valid() && c.position < hot.Length
      modifies `victims
      ensures Valid()
      ensures ok == (|old(victims)| < VICTIM_RING_ENTRIES)
      ensures victims == if ok then old(victims) + [Pack(c.position, c.gen)] else old(victims)
    {
      ok := |victims| < VICTIM_RING_ENTRIES;
      if ok {
        PackExact(c.position, c.gen, 0);
        victims := victims + [Pack(c.position, c.gen)];
      }
    }

    /** flow_table_pressure_maintenance: visits slots as aging does, with its own cursor; evicts
        within the budget, then fills the victim cache. `raced` names the slots another thread
        gets to between the collection of a candidate and its deletion. */
    method PressureMaintenance(mode: Mode, active: nat, now: nat, timeout: nat, raced: set<nat>)
      returns (result: PressureResult)
      requires Valid()
      modifies `hash, `pressureIter, `victims
      ensures Valid()
      ensures mode == Normal ==>
        && hash == old(hash) && pressureIter == old(pressureIter) && victims == old(victims)
        && result == PressureResult(0, 0, 0, 0)
      ensures mode != Normal ==>
        var scan := Scan(Occupancy(old(hash)), old(pressureIter), PressureScanBudget(mode, hot.Length));
        && pressureIter == scan.1 && result.scanned == |scan.0|
        && RunSoFar(result) == PressureAll(StartRun(old(hash), old(victims)), hot[..], scan.0,
                                           Limits(now, MinIdle(mode, timeout), EvictBudget(mode, hot.Length, active),
                                                  raced))
    {
      if mode == Normal {
        return PressureResult(0, 0, 0, 0);
      }
      var scanBudget := PressureScanBudget(mode, hot.Length);
      var l := Limits(now, MinIdle(mode, timeout), EvictBudget(mode, hot.Length, active), raced);
      ghost var t := Pass(hash, victims, pressureIter, scanBudget, l, []);
      PassStarts(t, hot[..]);
      result, t := PressureLoop(scanBudget, l, t);
    }

    /** The loop of flow_table_pressure_maintenance. */
    method PressureLoop(scanBudget: nat, l: Limits, ghost t: Pass) returns (result: PressureResult, ghost t': Pass)
      requires Valid() && t == Pass(hash, victims, pressureIter, scanBudget, l, [])
      requires Passing(t, hot[..], pressureIter, StartRun(hash, victims))
      modifies `hash, `pressureIter, `victims
      ensures Valid() && t' == t.(visited := t'.visited)
      ensures result.scanned == |t'.visited| && PassEnds(t', hot[..], pressureIter, RunSoFar(result))
    {
      result, t' := PressureResult(0, 0, 0, 0), t;
      while result.scanned < scanBudget
        invariant Valid() && result.scanned == |t'.visited| && t' == t.(visited := t'.visited)
        invariant Passing(t', hot[..], pressureIter, RunSoFar(result))
      {
        var found;
        found, result, t' := PressureNext(result, l, t');
        if !found {
          return;
        }
      }
      PassSpent(t', hot[..], pressureIter, RunSoFar(result));
    }

    /** The state of a pass with these counters. */
    ghost function RunSoFar(r: PressureResult): PressureRun
      reads `hash, `victims
    {
      PressureRun(hash, victims, r.evicted, r.candidates, r.stale)
    }

    /** One iteration: false at the end of the table, where the cursor restarts. */
    method PressureNext(sofar: PressureResult, l: Limits, ghost t: Pass)
      returns (found: bool, result: PressureResult, ghost t': Pass)
      requires Valid() && t.limits == l && |t.visited| == sofar.scanned < t.scanBudget
      requires Passing(t, hot[..], pressureIter, RunSoFar(sofar))
      modifies `hash, `pressureIter, `victims
      ensures Valid() && result.scanned == |t'.visited| && t' == t.(visited := t'.visited)
      ensures !found ==> PassEnds(t', hot[..], pressureIter, RunSoFar(result))
      ensures found ==> Passing(t', hot[..], pressureIter, RunSoFar(result)) && |t'.visited| == |t.visited| + 1
    {
      PassVisits(t, hot[..], pressureIter, RunSoFar(sofar));
      var position := NextOccupied(Occupancy(hash), pressureIter);
      if position == |hash.keyStore| {
        pressureIter := 0;
        return false, sofar, t;
      }
      ghost var next := PressureOne(RunSoFar(sofar), hot[..], position, t.limits);
      pressureIter := position + 1;
      found, t' := true, PassOne(t, position);
      result := PressureFound(position, l, sofar.(scanned := sofar.scanned + 1), t', next);
    }

    /** The slot the iterator returned, in terms of the pass. */
    method PressureFound(position: nat, l: Limits, sofar: PressureResult, ghost t': Pass, ghost next: PressureRun)
      returns (result: PressureResult)
      requires Valid() && hash.Occupied(position)
      requires next == PressureOne(RunSoFar(sofar), hot[..], position, l) && Passing(t', hot[..], pressureIter, next)
      modifies `hash, `victims
      ensures Valid() && result.scanned == sofar.scanned && Passing(t', hot[..], pressureIter, RunSoFar(result))
    {
      result := PressureVisit(position, l, sofar);
      PassingSame(t', hot[..], pressureIter, next, RunSoFar(result));
    }

    /** The body of the pressure loop for the slot the iterator returned. */
    method PressureVisit(position: nat, l: Limits, sofar: PressureResult) returns (result: PressureResult)
      requires Valid() && hash.Occupied(position)
      modifies `hash, `victims
      ensures Valid() && hash.keyStore == old(hash.keyStore) && result.scanned == sofar.scanned
      ensures RunSoFar(result) == PressureOne(old(RunSoFar(sofar)), hot[..], position, l)
    {
      result := sofar;
      var lastSeen := hot[position].lastSeen;
      if lastSeen == 0 || (l.minIdle > 0 && (!(l.now > lastSeen) || l.now - lastSeen <= l.minIdle)) {
        return;
      }
      result := UseCandidate(Candidate(hash.keyStore[position], position, hot[position].gen, lastSeen), l, sofar);
    }

    /** An eligible candidate: evict it while the budget lasts, then cache it. */
    method UseCandidate(c: Candidate, l: Limits, sofar: PressureResult) returns (result: PressureResult)
      requires Valid() && hash.Occupied(c.position) && hash.keyStore[c.position] == c.key
      requires Deletable(c, l.now, l.minIdle)
      modifies `hash, `victims
      ensures Valid() && hash.keyStore == old(hash.keyStore) && result.scanned == sofar.scanned
      ensures RunSoFar(result) == PressureOne(old(RunSoFar(sofar)), hot[..], c.position, l)
    {
      if sofar.evicted < l.budget {
        var ok := DeleteUnlessRaced(c, l);
        result := if ok then sofar.(evicted := sofar.evicted + 1) else sofar.(stale := sofar.stale + 1);
      } else {
        result := CacheCandidate(c, l, sofar);
      }
    }

    /** The victim cache takes a batch of candidates per pass, as long as it has room. */
    method CacheCandidate(c: Candidate, l: Limits, sofar: PressureResult) returns (result: PressureResult)
      requires Valid() && Deletable(c, l.now, l.minIdle) && sofar.evicted >= l.budget
      modifies `victims
      ensures Valid() && result.scanned == sofar.scanned
      ensures RunSoFar(result) == PressureOne(old(RunSoFar(sofar)), hot[..], c.position, l)
    {
      result := sofar;
      if sofar.candidates < VICTIM_FILL_BATCH {
        var ok := VictimPush(c);
        if ok {
          result := sofar.(candidates := sofar.candidates + 1);
        }
      }
    }

    /** The deletion of a candidate just collected from an occupied slot: it fails exactly when
        another thread got to the slot first. */
    method DeleteUnlessRaced(c: Candidate, l: Limits) returns (ok: bool)
      requires Valid() && Deletable(c, l.now, l.minIdle)
      modifies `hash
      ensures Valid() && ok == (c.position !in l.raced)
      ensures hash == if ok then Del(old(hash), c.key) else old(hash)
    {
      ok := false;
      if c.position !in l.raced {
        ok := CandidateDeleteIfValid(c, l.now, l.minIdle);
      }
    }

    /** victim_cache_pop_burst */
    method VictimPopBurst(candidates: array<Candidate>, n: nat) returns (popped: nat)
      requires Valid() && candidates.Length == CANDIDATES_MAX
      modifies `victims, candidates
      ensures Valid()
      ensures popped == Min(Min(n, CANDIDATES_MAX), |old(victims)|)
      ensures victims == old(victims)[popped..]
      ensures forall i | 0 <= i < popped :: candidates[i] == CachedCandidate(hot[..], cold[..], old(victims)[i])
    {
      var limit := if n > CANDIDATES_MAX then CANDIDATES_MAX else n;
      popped := if limit < |victims| then limit else |victims|;
      var objs := victims[..popped];
      victims := victims[popped..];
      for i := 0 to popped
        invariant Valid() && victims == old(victims)[popped..]
        invariant forall j | 0 <= j < i :: candidates[j] == CachedCandidate(hot[..], cold[..], old(victims)[j])
      {
        candidates[i] := LoadSlot(UnpackPosition(objs[i]));
        candidates[i] := candidates[i].(gen := UnpackGen(objs[i]));
      }
    }

    /** One candidate tried without an idle limit. */
    method TryCandidate(c: Candidate, now: nat) returns (removed: nat)
      requires Valid()
      modifies `hash
      ensures Valid()
      ensures hash == EvictOne(old(hash), hot[..], c)
      ensures removed == |old(hash).mapped| - |hash.mapped|
    {
      var ok := CandidateDeleteIfValid(c, now, 0);
      if ok { CardMinusKey(old(hash).mapped, c.key); }
      removed := if ok then 1 else 0;
    }

    /** The first loop of flow_table_evict_for_replacement. */
    method EvictCached(candidates: array<Candidate>, popped: nat, now: nat) returns (evicted: nat)
      requires Valid() && popped <= candidates.Length
      modifies `hash
      ensures Valid()
      ensures hash == EvictAll(old(hash), hot[..], candidates[..popped])
      ensures evicted == |old(hash).mapped| - |hash.mapped|
    {
      evicted := 0;
      for i := 0 to popped
        invariant Valid()
        invariant hash == EvictAll(old(hash), hot[..], candidates[..i])
        invariant evicted == |old(hash).mapped| - |hash.mapped|
      {
        EvictLast(old(hash), hot[..], candidates[..i], candidates[i]);
        assert candidates[..i + 1] == candidates[..i] + [candidates[i]];
        var n := TryCandidate(candidates[i], now);
        evicted := evicted + n;
      }
    }

    /** The oldest published slot of four random ones. */
    method PickOldest() returns (found: bool, best: nat, ghost picks: seq<nat>)
      requires Valid()
      ensures Sampling([picks], hot.Length)
      ensures OldestOf(hot[..], picks) == if found then Some(best) else None
    {
      var oldest := U64_MAX;
      found, best, picks := false, 0, [];
      for i := 0 to EMERGENCY_PICKS
        invariant |picks| == i && forall j | 0 <= j < |picks| :: picks[j] < hot.Length
        invariant OldestOf(hot[..], picks) == if found then Some(best) else None
        invariant oldest == if found then hot[best].lastSeen else U64_MAX
      {
        var pos: nat :| pos < hot.Length;
        OldestLast(hot[..], picks, pos);
        picks := picks + [pos];
        var lastSeen := hot[pos].lastSeen;
        if lastSeen != 0 && lastSeen < oldest {
          found, best, oldest := true, pos, lastSeen;
        }
      }
    }

    /** One batch: the oldest of four samples is tried. */
    method SampleAndTry(now: nat) returns (removed: nat, ghost picks: seq<nat>)
      requires Valid()
      modifies `hash
      ensures Valid() && Sampling([picks], hot.Length)
      ensures var best := OldestOf(hot[..], picks);
        hash == if best.Some? then EvictOne(old(hash), hot[..], SlotCandidate(hot[..], cold[..], best.value))
          else old(hash)
      ensures removed == |old(hash).mapped| - |hash.mapped|
    {
      var found, best;
      found, best, picks := PickOldest();
      removed := 0;
      if found {
        removed := TryCandidate(LoadSlot(best), now);
      }
    }

    /** The emergency part: a fixed number of batches. */
    method EvictEmergency(now: nat) returns (evicted: nat, ghost batches: seq<seq<nat>>)
      requires Valid()
      modifies `hash
      ensures Valid()
      ensures |batches| == EMERGENCY_BATCHES == 16 && Sampling(batches, hot.Length)
      ensures hash == EvictAll(old(hash), hot[..], SampleCandidates(hot[..], cold[..], batches))
      ensures evicted == |old(hash).mapped| - |hash.mapped|
    {
      evicted, batches := 0, [];
      for b := 0 to EMERGENCY_BATCHES
        invariant Valid() && |batches| == b && Sampling(batches, hot.Length)
        invariant hash == EvictAll(old(hash), hot[..], SampleCandidates(hot[..], cold[..], batches))
        invariant evicted == |old(hash).mapped| - |hash.mapped|
      {
        var n, picks := SampleAndTry(now);
        SampleTried(old(hash), hot[..], cold[..], batches, picks);
        SamplingGrows(batches, picks, hot.Length);
        batches := batches + [picks];
        evicted := evicted + n;
      }
    }

    /** The candidates a replacement takes from the victim cache. */
    ghost function CachedFor(maxCached: nat): seq<Candidate>
      reads this, hot, cold
    {
      CachedOf(hot[..], cold[..], victims, Min(maxCached, CANDIDATES_MAX))
    }

    /** The cached part: pop from the ring, then try each popped candidate. */
    method EvictFromCache(maxCached: nat, now: nat) returns (evicted: nat, ghost cached: seq<Candidate>)
      requires Valid()
      modifies `hash, `victims
      ensures Valid()
      ensures cached == old(CachedFor(maxCached)) && victims == old(victims)[|cached|..]
      ensures hash == EvictAll(old(hash), hot[..], cached)
      ensures evicted == |old(hash).mapped| - |hash.mapped|
    {
      var candidates := new Candidate[CANDIDATES_MAX](i => Candidate(ZERO_KEY, 0, 0, 0));
      cached := CachedFor(maxCached);
      var popped := VictimPopBurst(candidates, Min(maxCached, CANDIDATES_MAX));
      assert candidates[..popped] == cached;
      evicted := EvictCached(candidates, popped, now);
    }

    /** flow_table_evict_for_replacement: the result is positive exactly when some flow was
        removed. Cached candidates come first; slots are sampled only when those removed nothing,
        and then several flows may go although the result is 1. */
    method EvictForReplacement(maxCached: nat, emergencyScanBudget: nat, now: nat)
      returns (evicted: nat, ghost batches: seq<seq<nat>>)
      requires Valid()
      modifies `hash, `victims
      ensures Valid()
      ensures var cached := old(CachedFor(maxCached));
        && victims == old(victims)[|cached|..]
        && SampledAfter(old(hash), hot[..], cached, emergencyScanBudget, batches)
        && hash == EvictAll(old(hash), hot[..], cached + SampleCandidates(hot[..], cold[..], batches))
      ensures |victims| == |old(victims)| - Min(|old(victims)|, Min(maxCached, 16))
      ensures evicted > 0 <==> |hash.mapped| < |old(hash).mapped|
      ensures evicted == if batches == [] then |old(hash).mapped| - |hash.mapped|
                         else Min(1, |old(hash).mapped| - |hash.mapped|)
    {
      ghost var cached;
      evicted, cached := EvictFromCache(maxCached, now);
      batches := [];
      assert cached + [] == cached;
      EvictAllExactly(old(hash), hot[..], cached);
      if evicted > 0 {
        return;
      }
      if emergencyScanBudget > 0 {
        var batchEvicted;
        batchEvicted, batches := EvictEmergency(now);
        EvictAppend(old(hash), hot[..], cached, SampleCandidates(hot[..], cold[..], batches));
        evicted := if batchEvicted > 0 then 1 else 0;
      }
    }

    /** rte_hash_add_key on the table's hash. */
    method AddKey(k: Key) returns (position: int)
      requires Valid()
      modifies `hash
      ensures Valid() && -1 <= position < hot.Length
      ensures Added(hash, position) == AddedKey(old(hash), k, reclaimBatch)
      ensures position < 0 ==> hash == old(hash) && k !in hash.mapped
      ensures position >= 0 ==> k in hash.mapped && hash.mapped[k] == position
      ensures |hash.mapped| == |old(hash).mapped| + (if position >= 0 && k !in old(hash).mapped then 1 else 0)
    {
      AddedKeyFacts(hash, k, reclaimBatch);
      assert k in hash.mapped ==> hash.mapped[k := hash.mapped[k]] == hash.mapped;
      var r := AddedKey(hash, k, reclaimBatch);
      hash := r.hash;
      position := r.position;
    }

    /** flow_table_rcu_quiescent */
    method ReportQuiescent(a: Actor)
      requires Valid()
      modifies `hash
      ensures Valid() && hash == Quiescent(old(hash), a)
      ensures forall i | 0 <= i < |hash.dq| :: TokenPassed(hash, a, hash.dq[i].token)
    {
      ReportKeepsValid(hash, a);
      hash := Quiescent(hash, a);
    }

    /** flow_table_rcu_offline */
    method GoOffline(a: Actor)
      requires Valid()
      modifies `hash
      ensures Valid() && hash == Offline(old(hash), a)
      ensures forall token :: TokenPassed(hash, a, token)
    {
      ReportKeepsValid(hash, a);
      hash := Offline(hash, a);
    }

    /** One call of the library's reclaim. */
    method ReclaimBatch() returns (freed: nat)
      requires Valid()
      modifies `hash
      ensures Valid() && hash == Reclaim(old(hash), reclaimBatch) && freed == |hash.free| - |old(hash).free|
    {
      ReclaimKeepsValid(hash, reclaimBatch);
      ReclaimCount(hash, reclaimBatch);
      var after := Reclaim(hash, reclaimBatch);
      freed := |after.free| - |hash.free|;
      hash := after;
    }

    /** flow_table_reclaim: rounds of the library's batch until nothing more is ready. */
    method ReclaimRounds(maxRounds: nat) returns (reclaimed: nat)
      requires Valid()
      modifies `hash
      ensures Valid()
      ensures hash == Rounds(old(hash), maxRounds, reclaimBatch)
      ensures reclaimed == |hash.free| - |old(hash).free|
    {
      reclaimed := 0;
      for round := 0 to maxRounds
        invariant Valid() && Rounds(hash, maxRounds - round, reclaimBatch) == Rounds(old(hash), maxRounds, reclaimBatch)
        invariant reclaimed == |hash.free| - |old(hash).free|
      {
        ReclaimRound(hash, maxRounds - round, reclaimBatch);
        var freed := ReclaimBatch();
        if freed == 0 {
          return;
        }
        reclaimed := reclaimed + freed;
      }
    }
  }

  /** A round that frees nothing changes nothing, and no later one would. */
  lemma ReclaimRound(h: Hash, rounds: nat, batch: nat)
    requires batch > 0 && rounds > 0
    ensures Rounds(h, rounds, batch) == Rounds(Reclaim(h, batch), rounds - 1, batch)
    ensures |Reclaim(h, batch).free| == |h.free| ==> Reclaim(h, batch) == h && Rounds(h, rounds, batch) == h
  {
    ReclaimCount(h, batch);
    if |Reclaim(h, batch).free| == |h.free| {
      RoundsAreOneReclaim(h, rounds, batch);
    }
  }
}
