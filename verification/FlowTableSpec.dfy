/** Functions that specify the flow table's maintenance operations (src/flow_table.c) and the
    facts about them: batched aging, pressure eviction and the packing of victim candidates. */
module FlowTableSpec {
  import opened FlowTypes
  import opened HashTable
  import opened AgingScan

  const THRESHOLD_PCT := 92
  const AGGRESSIVE_PCT := 96
  const CRITICAL_PCT := 99
  const TARGET_PCT := 92
  const VICTIM_RING_ENTRIES := 8191   // an 8192-slot ring holds one entry less
  const VICTIM_FILL_BATCH := 512
  const CANDIDATES_MAX := 16
  const EMERGENCY_BATCHES := 16
  const EMERGENCY_PICKS := 4
  const U64_MAX := 0xFFFF_FFFF_FFFF_FFFF

  /** struct flow_victim_candidate */
  datatype Candidate = Candidate(key: Key, position: nat, gen: u32, lastSeen: nat)

  // ---------------------------------------------------------------- packing

  /** The 64-bit ring object of a candidate. */
  function Pack(position: nat, gen: u32): nat {
    position * U32_MODULUS + gen
  }

  function UnpackPosition(obj: nat): nat { obj / U32_MODULUS }

  function UnpackGen(obj: nat): u32 { obj % U32_MODULUS }

  /** Packing is exact in both directions. */
  lemma PackExact(position: u32, gen: u32, obj: nat)
    ensures UnpackPosition(Pack(position, gen)) == position && UnpackGen(Pack(position, gen)) == gen
    ensures obj < U32_MODULUS * U32_MODULUS ==>
      UnpackPosition(obj) < U32_MODULUS && Pack(UnpackPosition(obj), UnpackGen(obj)) == obj
  {
  }

  // ---------------------------------------------------------------- pressure arithmetic

  datatype Mode = Normal | Pressure | Aggressive | Critical

  /** flow_pct; the product is computed in 64 bits and the quotient fits 32 for pct <= 100. */
  function Percent(value: nat, pct: nat): nat { value * pct / 100 }

  function ModeFor(capacity: nat, active: nat): Mode {
    if capacity == 0 then Normal
    else if active >= Percent(capacity, CRITICAL_PCT) then Critical
    else if active >= Percent(capacity, AGGRESSIVE_PCT) then Aggressive
    else if active >= Percent(capacity, THRESHOLD_PCT) then Pressure
    else Normal
  }

  function MinIdle(mode: Mode, timeout: nat): nat {
    match mode
    case Pressure => timeout / 2
    case Aggressive => timeout / 4
    case Critical => 0
    case Normal => timeout
  }

  function PressureScanBudget(mode: Mode, storageEntries: nat): nat {
    var base := ScanBudget(storageEntries);
    var budget := match mode
      case Pressure => base
      case Aggressive => base * 2
      case Critical => base * 4
      case Normal => 0;
    if budget > storageEntries then storageEntries else budget
  }

  function EvictBudget(mode: Mode, capacity: nat, active: nat): nat {
    var target := Percent(capacity, TARGET_PCT);
    if mode == Normal || active <= target then 0 else active - target
  }

  function Rank(mode: Mode): nat {
    match mode case Normal => 0 case Pressure => 1 case Aggressive => 2 case Critical => 3
  }

  /** The modes by the share of the slots in use: from 92, 96 and 99 percent on, rounded down. */
  lemma ModeThresholds(capacity: nat, active: nat)
    requires capacity > 0
    ensures Rank(ModeFor(capacity, active)) >= 1 <==> 100 * active + 100 > 92 * capacity
    ensures Rank(ModeFor(capacity, active)) >= 2 <==> 100 * active + 100 > 96 * capacity
    ensures Rank(ModeFor(capacity, active)) >= 3 <==> 100 * active + 100 > 99 * capacity
  {
  }

  /** Under pressure the budget is what exceeds 92 percent of the slots, in normal mode nothing. */
  lemma BudgetIsTheExcess(mode: Mode, capacity: nat, active: nat)
    ensures mode == Normal ==> EvictBudget(mode, capacity, active) == 0
    ensures mode != Normal ==>
      var rest := active - EvictBudget(mode, capacity, active);
      rest == active || (100 * rest <= 92 * capacity < 100 * rest + 100 && active > rest)
    ensures mode != Normal && 100 * active > 92 * capacity ==> EvictBudget(mode, capacity, active) > 0
  {
  }

  /** A pass visits an eighth of the slots in pressure mode, a quarter in aggressive mode, half of
      them in critical mode, rounded up, and never more than there are. */
  lemma ScanShares(slots: nat)
    requires slots > 0
    ensures slots <= 8 * PressureScanBudget(Pressure, slots) < slots + 8
    ensures slots <= 4 * PressureScanBudget(Aggressive, slots)
    ensures PressureScanBudget(Aggressive, slots) == slots || 4 * PressureScanBudget(Aggressive, slots) < slots + 8
    ensures slots <= 2 * PressureScanBudget(Critical, slots)
    ensures PressureScanBudget(Critical, slots) == slots || 2 * PressureScanBudget(Critical, slots) < slots + 8
    ensures PressureScanBudget(Normal, slots) == 0
  {
  }

  lemma PercentMonotone(value: nat, a: nat, b: nat)
    requires a <= b
    ensures Percent(value, a) <= Percent(value, b)
  {
    assert value * a <= value * b;
  }

  /** More active flows never mean a milder mode, a longer idle limit or smaller budgets. */
  lemma PressureMonotone(capacity: nat, low: nat, high: nat, timeout: nat)
    requires low <= high
    ensures Rank(ModeFor(capacity, low)) <= Rank(ModeFor(capacity, high))
    ensures MinIdle(ModeFor(capacity, high), timeout) <= MinIdle(ModeFor(capacity, low), timeout)
    ensures PressureScanBudget(ModeFor(capacity, low), capacity)
         <= PressureScanBudget(ModeFor(capacity, high), capacity)
    ensures EvictBudget(ModeFor(capacity, low), capacity, low) <= EvictBudget(ModeFor(capacity, high), capacity, high)
  {
    PercentMonotone(capacity, THRESHOLD_PCT, AGGRESSIVE_PCT);
    PercentMonotone(capacity, AGGRESSIVE_PCT, CRITICAL_PCT);
  }

  /** Spending the eviction budget lands exactly on the target, where the budget is 0; before
      that the count is still above the target. */
  lemma BudgetLandsOnTarget(mode: Mode, capacity: nat, active: nat, evicted: nat)
    requires evicted <= EvictBudget(mode, capacity, active)
    ensures evicted <= active
    ensures evicted > 0 ==> active - evicted >= Percent(capacity, TARGET_PCT)
    ensures EvictBudget(mode, capacity, active - evicted) == EvictBudget(mode, capacity, active) - evicted
  {
  }

  // ---------------------------------------------------------------- idle tests and spec functions

  predicate IdleLonger(lastSeen: nat, now: nat, limit: nat) {
    now > lastSeen && now - lastSeen > limit
  }

  /** candidate_collect_if_eligible's test; a limit of 0 accepts every published slot. */
  predicate Eligible(lastSeen: nat, now: nat, minIdle: nat) {
    lastSeen != 0 && (minIdle > 0 ==> IdleLonger(lastSeen, now, minIdle))
  }

  /** What a mode asks of a flow: published, and last seen more than half the timeout ago in
      pressure mode, more than a quarter in aggressive mode; in critical mode nothing else. A
      timeout too short to be halved or quartered asks for nothing else either. */
  ghost predicate ModeAdmits(mode: Mode, lastSeen: nat, now: nat, timeout: nat) {
    && lastSeen != 0
    && (mode == Normal && timeout > 0 ==> lastSeen < now && now - lastSeen > timeout)
    && (mode == Pressure && timeout >= 2 ==> lastSeen < now && 2 * (now - lastSeen) > timeout)
    && (mode == Aggressive && timeout >= 4 ==> lastSeen < now && 4 * (now - lastSeen) > timeout)
  }

  lemma EligibleIff(mode: Mode, lastSeen: nat, now: nat, timeout: nat)
    ensures Eligible(lastSeen, now, MinIdle(mode, timeout)) <==> ModeAdmits(mode, lastSeen, now, timeout)
  {
  }

  function Occupancy(h: Hash): (occ: seq<bool>)
    ensures |occ| == |h.keyStore| && forall p | 0 <= p < |occ| :: occ[p] == h.Occupied(p)
  {
    seq(|h.keyStore|, i requires i >= 0 => h.Occupied(i))
  }

  predicate Expirable(hot: seq<Hot>, p: nat, now: nat, timeout: nat) {
    p < |hot| && hot[p].lastSeen != 0 && IdleLonger(hot[p].lastSeen, now, timeout)
  }

  /** One entry of a flushed batch: last_seen is read again, the key is deleted. */
  function FlushOne(h: Hash, hot: seq<Hot>, p: nat, key: Key, now: nat, timeout: nat): Hash {
    if Expirable(hot, p, now, timeout) then Del(h, key) else h
  }

  function FlushAll(h: Hash, hot: seq<Hot>, ps: seq<nat>, keys: seq<Key>, now: nat, timeout: nat): Hash
    requires |ps| == |keys|
  {
    if ps == [] then h
    else
      var n := |ps| - 1;
      FlushOne(FlushAll(h, hot, ps[..n], keys[..n], now, timeout), hot, ps[n], keys[n], now, timeout)
  }

  /** The key the hash stores for slot p. */
  function KeyAt(h: Hash, p: nat): Key {
    if p < |h.keyStore| then h.keyStore[p] else ZERO_KEY
  }

  /** Aging without batches: each visited slot is tested and its key deleted at once. */
  function AgeAll(h: Hash, hot: seq<Hot>, visited: seq<nat>, now: nat, timeout: nat): Hash {
    if visited == [] then h
    else
      var n := |visited| - 1;
      var p := visited[n];
      FlushOne(AgeAll(h, hot, visited[..n], now, timeout), hot, p, KeyAt(h, p), now, timeout)
  }

  lemma FlushOneKeepsValid(h: Hash, hot: seq<Hot>, p: nat, key: Key, now: nat, timeout: nat)
    requires HashTable.Valid(h)
    ensures HashTable.Valid(FlushOne(h, hot, p, key, now, timeout))
  {
    DelKeepsValid(h, key);
  }

  lemma {:induction false} AgeAllKeepsValid(h: Hash, hot: seq<Hot>, visited: seq<nat>, now: nat, timeout: nat)
    requires HashTable.Valid(h)
    ensures HashTable.Valid(AgeAll(h, hot, visited, now, timeout))
    decreases |visited|
  {
    if visited != [] {
      var n := |visited| - 1;
      AgeAllKeepsValid(h, hot, visited[..n], now, timeout);
      FlushOneKeepsValid(AgeAll(h, hot, visited[..n], now, timeout), hot, visited[n], KeyAt(h, visited[n]), now,
                         timeout);
    }
  }

  /** Aging removes exactly the visited flows that are published and idle past the timeout. */
  lemma {:induction false} AgeAllRemovesExactly(h: Hash, hot: seq<Hot>, visited: seq<nat>, now: nat, timeout: nat)
    requires forall k | k in h.mapped :: KeyAt(h, h.mapped[k]) == k
    requires forall i | 0 <= i < |visited| :: h.Occupied(visited[i])
    ensures var r := AgeAll(h, hot, visited, now, timeout);
      && (forall k :: k in r.mapped <==>
            k in h.mapped && !(h.mapped[k] in visited && Expirable(hot, h.mapped[k], now, timeout)))
      && (forall k | k in r.mapped :: r.mapped[k] == h.mapped[k])
    decreases |visited|
  {
    if visited == [] {
    } else {
      var n := |visited| - 1;
      var p, init := visited[n], visited[..n];
      AgeAllRemovesExactly(h, hot, init, now, timeout);
      assert visited == init + [p];
      assert forall k | k in h.mapped && h.mapped[k] == p :: k == KeyAt(h, p);
    }
  }

  /** The slot was published, and last seen longer than the limit ago. */
  ghost predicate LongIdle(hot: seq<Hot>, p: nat, now: nat, limit: nat) {
    p < |hot| && 0 != hot[p].lastSeen < now && now - hot[p].lastSeen > limit
  }

  /** A flow goes exactly when its slot was visited, published and idle past the timeout; a flow
      whose slot was never published stays whatever the clock says. */
  lemma AgedFlowsWereIdle(h: Hash, hot: seq<Hot>, visited: seq<nat>, now: nat, timeout: nat, k: Key)
    requires forall j | j in h.mapped :: KeyAt(h, h.mapped[j]) == j
    requires forall i | 0 <= i < |visited| :: h.Occupied(visited[i])
    requires k in h.mapped
    ensures k !in AgeAll(h, hot, visited, now, timeout).mapped
       <==> h.mapped[k] in visited && LongIdle(hot, h.mapped[k], now, timeout)
    ensures h.mapped[k] < |hot| && hot[h.mapped[k]].lastSeen == 0 ==>
      k in AgeAll(h, hot, visited, now, timeout).mapped
  {
    AgeAllRemovesExactly(h, hot, visited, now, timeout);
  }

  /** The same for every flow of a table that a scan goes over. */
  lemma ScannedFlowsWereIdle(h: Hash, hot: seq<Hot>, cursor: nat, budget: nat, now: nat, timeout: nat)
    requires HashTable.Valid(h) && cursor <= |h.keyStore|
    ensures var visited := Scan(Occupancy(h), cursor, budget).0;
      AgedRightly(h, hot, visited, now, timeout, AgeAll(h, hot, visited, now, timeout))
  {
    ScanVisitsOccupied(Occupancy(h), cursor, budget);
    var visited := Scan(Occupancy(h), cursor, budget).0;
    AgeAllRemovesExactly(h, hot, visited, now, timeout);
  }

  /** From h to r exactly the visited flows are gone that were published and idle past the timeout;
      the others keep their slots. */
  ghost predicate AgedRightly(h: Hash, hot: seq<Hot>, visited: seq<nat>, now: nat, timeout: nat, r: Hash) {
    && (forall k | k in h.mapped ::
          k !in r.mapped <==> h.mapped[k] in visited && LongIdle(hot, h.mapped[k], now, timeout))
    && (forall k | k in r.mapped :: k in h.mapped && r.mapped[k] == h.mapped[k])
  }

  /** Some retained entry spells key k, and its slot is published and idle past the timeout. */
  ghost predicate RetainedIdle(hot: seq<Hot>, ps: seq<nat>, keys: seq<Key>, now: nat, timeout: nat, k: Key)
    requires |ps| == |keys|
  {
    exists j | 0 <= j < |ps| :: keys[j] == k && LongIdle(hot, ps[j], now, timeout)
  }

  /** A flushed batch removes exactly the keys of its entries whose slots are, when they are looked
      at again, published and idle past the timeout. */
  lemma {:induction false} FlushedWereIdle(h: Hash, hot: seq<Hot>, ps: seq<nat>, keys: seq<Key>, now: nat,
                                           timeout: nat, k: Key)
    requires |ps| == |keys| && k in h.mapped
    ensures k !in FlushAll(h, hot, ps, keys, now, timeout).mapped <==> RetainedIdle(hot, ps, keys, now, timeout, k)
    ensures k in FlushAll(h, hot, ps, keys, now, timeout).mapped ==>
      FlushAll(h, hot, ps, keys, now, timeout).mapped[k] == h.mapped[k]
    decreases |ps|
  {
    if ps != [] {
      var n := |ps| - 1;
      FlushedWereIdle(h, hot, ps[..n], keys[..n], now, timeout, k);
      RetainedPrefix(hot, ps, keys, now, timeout, k);
    }
  }

  lemma RetainedPrefix(hot: seq<Hot>, ps: seq<nat>, keys: seq<Key>, now: nat, timeout: nat, k: Key)
    requires |ps| == |keys| > 0
    ensures var n := |ps| - 1;
      RetainedIdle(hot, ps, keys, now, timeout, k) <==>
      RetainedIdle(hot, ps[..n], keys[..n], now, timeout, k) || (keys[n] == k && LongIdle(hot, ps[n], now, timeout))
  {
    var n := |ps| - 1;
    assert forall j | 0 <= j < n :: keys[..n][j] == keys[j] && ps[..n][j] == ps[j];
  }

  /** When a retained entry (p, key) is flushed after other threads changed the table, the flow
      it removes is the one that was examined if and only if the key is still mapped to p. Here
      hot and h are seen at one instant; FlushIsCurrentIff separates the two accesses. */
  lemma FlushHitsExaminedFlowIff(h: Hash, hot: seq<Hot>, p: nat, key: Key, now: nat, timeout: nat)
    requires HashTable.Valid(h) && Expirable(hot, p, now, timeout)
    ensures FlushOne(h, hot, p, key, now, timeout).mapped == h.mapped - {key}
    ensures h.Occupied(p) && !FlushOne(h, hot, p, key, now, timeout).Occupied(p) <==> Lookup(h, key) == p
  {
    if key !in h.mapped { assert h.mapped - {key} == h.mapped; }
  }

  /** The second look at last_seen and the deletion are two accesses: `hot` is what the second
      look saw, `later` what the slots hold when the key is deleted. The outcome is that of a
      flush in one access if and only if the key was gone or a look made at the deletion would
      have had the same result: a flow that came back to life in between is deleted all the same. */
  lemma FlushIsCurrentIff(h: Hash, hot: seq<Hot>, later: seq<Hot>, p: nat, key: Key, now: nat, timeout: nat)
    ensures FlushOne(h, hot, p, key, now, timeout) == FlushOne(h, later, p, key, now, timeout)
       <==> (key !in h.mapped || (Expirable(hot, p, now, timeout) <==> Expirable(later, p, now, timeout)))
  {
    if key in h.mapped { assert Del(h, key) != h; }
  }

  /** The visited slots that pass the first idle test (an unpublished slot passes it too). */
  function ExpiredOf(hot: seq<Hot>, visited: seq<nat>, now: nat, timeout: nat): (e: seq<nat>)
    ensures |e| <= |visited|
  {
    if visited == [] then []
    else
      var n := |visited| - 1;
      var init := ExpiredOf(hot, visited[..n], now, timeout);
      if visited[n] < |hot| && IdleLonger(hot[visited[n]].lastSeen, now, timeout) then init + [visited[n]] else init
  }

  function KeysAt(h: Hash, ps: seq<nat>): (keys: seq<Key>)
    ensures |keys| == |ps| && forall i | 0 <= i < |ps| :: keys[i] == KeyAt(h, ps[i])
  {
    seq(|ps|, i requires 0 <= i < |ps| => KeyAt(h, ps[i]))
  }

  lemma KeysAtAppend(h: Hash, ps: seq<nat>, p: nat)
    ensures KeysAt(h, ps + [p]) == KeysAt(h, ps) + [KeyAt(h, p)]
  {
  }

  lemma FlushLast(h: Hash, hot: seq<Hot>, ps: seq<nat>, keys: seq<Key>, p: nat, key: Key, now: nat, timeout: nat)
    requires |ps| == |keys|
    ensures FlushAll(h, hot, ps + [p], keys + [key], now, timeout)
         == FlushOne(FlushAll(h, hot, ps, keys, now, timeout), hot, p, key, now, timeout)
  {
    assert (ps + [p])[..|ps|] == ps && (keys + [key])[..|ps|] == keys;
  }

  /** Collecting first and flushing later deletes the same flows in the same order. */
  lemma {:induction false} BatchedEqualsUnbatched(h: Hash, hot: seq<Hot>, visited: seq<nat>, now: nat, timeout: nat)
    ensures var e := ExpiredOf(hot, visited, now, timeout);
      FlushAll(h, hot, e, KeysAt(h, e), now, timeout) == AgeAll(h, hot, visited, now, timeout)
    decreases |visited|
  {
    if visited == [] {
    } else {
      var n := |visited| - 1;
      var p, init := visited[n], visited[..n];
      BatchedEqualsUnbatched(h, hot, init, now, timeout);
      var e0 := ExpiredOf(hot, init, now, timeout);
      KeysAtAppend(h, e0, p);
      FlushLast(h, hot, e0, KeysAt(h, e0), p, KeyAt(h, p), now, timeout);
    }
  }

  lemma {:induction false} FlushAppend(h: Hash, hot: seq<Hot>, a: seq<nat>, ka: seq<Key>, b: seq<nat>, kb: seq<Key>,
                                       now: nat, timeout: nat)
    requires |a| == |ka| && |b| == |kb|
    ensures FlushAll(FlushAll(h, hot, a, ka, now, timeout), hot, b, kb, now, timeout)
         == FlushAll(h, hot, a + b, ka + kb, now, timeout)
    decreases |b|
  {
    if b == [] {
      assert a + b == a && ka + kb == ka;
    } else {
      var n := |b| - 1;
      FlushAppend(h, hot, a, ka, b[..n], kb[..n], now, timeout);
      FlushLast(h, hot, a + b[..n], ka + kb[..n], b[n], kb[n], now, timeout);
      assert a + b == a + b[..n] + [b[n]] && ka + kb == ka + kb[..n] + [kb[n]];
    }
  }

  /** r is h with some of the named keys deleted. */
  ghost predicate Shrunk(h: Hash, r: Hash, keys: seq<Key>) {
    && r.keyStore == h.keyStore
    && (forall k | k in r.mapped :: k in h.mapped && r.mapped[k] == h.mapped[k])
    && (forall k | k in h.mapped && k !in r.mapped :: k in keys)
    && |r.mapped| <= |h.mapped| <= |r.mapped| + |keys|
  }

  lemma {:induction false} FlushShrinks(h: Hash, hot: seq<Hot>, ps: seq<nat>, keys: seq<Key>, now: nat, timeout: nat)
    requires |ps| == |keys|
    ensures Shrunk(h, FlushAll(h, hot, ps, keys, now, timeout), keys)
    decreases |ps|
  {
    if ps == [] {
    } else {
      var n := |ps| - 1;
      FlushShrinks(h, hot, ps[..n], keys[..n], now, timeout);
      var mid := FlushAll(h, hot, ps[..n], keys[..n], now, timeout);
      if keys[n] in mid.mapped { CardMinusKey(mid.mapped, keys[n]); }
      assert keys == keys[..n] + [keys[n]];
    }
  }

  // ---------------------------------------------------------------- progress of an aging tick

  /** The flows of r are flows of h, in the same slots. */
  ghost predicate SubTable(h: Hash, r: Hash) {
    r.keyStore == h.keyStore && forall k | k in r.mapped :: k in h.mapped && r.mapped[k] == h.mapped[k]
  }

  /** A tick that visited `visited`, flushed the expired slots `flushed` and keeps `pending`. */
  ghost predicate Collected(before: Hash, hot: seq<Hot>, visited: seq<nat>, flushed: seq<nat>, pending: seq<nat>,
                            h: Hash, now: nat, timeout: nat) {
    && ExpiredOf(hot, visited, now, timeout) == flushed + pending
    && h == FlushAll(before, hot, flushed, KeysAt(before, flushed), now, timeout)
    && (forall i | 0 <= i < |pending| :: before.Occupied(pending[i]))
    && SubTable(before, h)
  }

  lemma CollectOne(before: Hash, hot: seq<Hot>, visited: seq<nat>, flushed: seq<nat>, pending: seq<nat>, h: Hash,
                   p: nat, now: nat, timeout: nat)
    requires Collected(before, hot, visited, flushed, pending, h, now, timeout)
    requires p < |hot| && before.Occupied(p)
    ensures IdleLonger(hot[p].lastSeen, now, timeout) ==>
      Collected(before, hot, visited + [p], flushed, pending + [p], h, now, timeout)
    ensures !IdleLonger(hot[p].lastSeen, now, timeout) ==>
      Collected(before, hot, visited + [p], flushed, pending, h, now, timeout)
  {
    assert (visited + [p])[..|visited|] == visited;
    assert flushed + pending + [p] == flushed + (pending + [p]);
  }

  lemma FlushTogether(before: Hash, hot: seq<Hot>, flushed: seq<nat>, pending: seq<nat>, now: nat, timeout: nat)
    ensures FlushAll(FlushAll(before, hot, flushed, KeysAt(before, flushed), now, timeout), hot, pending,
                     KeysAt(before, pending), now, timeout)
         == FlushAll(before, hot, flushed + pending, KeysAt(before, flushed + pending), now, timeout)
  {
    FlushAppend(before, hot, flushed, KeysAt(before, flushed), pending, KeysAt(before, pending), now, timeout);
    assert KeysAt(before, flushed + pending) == KeysAt(before, flushed) + KeysAt(before, pending);
  }

  lemma FlushPending(before: Hash, hot: seq<Hot>, visited: seq<nat>, flushed: seq<nat>, pending: seq<nat>, h: Hash,
                     r: Hash, now: nat, timeout: nat)
    requires Collected(before, hot, visited, flushed, pending, h, now, timeout)
    requires r == FlushAll(h, hot, pending, KeysAt(before, pending), now, timeout)
    ensures Collected(before, hot, visited, flushed + pending, [], r, now, timeout)
  {
    FlushTogether(before, hot, flushed, pending, now, timeout);
    FlushSub(before, h, hot, pending, KeysAt(before, pending), now, timeout);
    assert flushed + pending + [] == flushed + pending;
  }

  lemma FlushSub(before: Hash, h: Hash, hot: seq<Hot>, ps: seq<nat>, keys: seq<Key>, now: nat, timeout: nat)
    requires |ps| == |keys| && SubTable(before, h)
    ensures SubTable(before, FlushAll(h, hot, ps, keys, now, timeout))
  {
    FlushShrinks(h, hot, ps, keys, now, timeout);
  }

  /** Flushing slots before the cursor does not change what the scan will find. */
  lemma FlushKeepsAhead(before: Hash, hot: seq<Hot>, pending: seq<nat>, h: Hash, r: Hash, cursor: nat, now: nat,
                        timeout: nat)
    requires SubTable(before, h)
    requires r == FlushAll(h, hot, pending, KeysAt(before, pending), now, timeout)
    requires forall i | 0 <= i < |pending| :: before.Occupied(pending[i]) && pending[i] < cursor
    ensures forall q | cursor <= q < |h.keyStore| :: r.Occupied(q) == h.Occupied(q)
  {
    var keys := KeysAt(before, pending);
    FlushShrinks(h, hot, pending, keys, now, timeout);
    forall q | cursor <= q < |h.keyStore| && h.Occupied(q) ensures r.Occupied(q) {
      assert h.keyStore[q] !in keys;
    }
  }

  /** After visiting `visited`, the rest of the scan runs from the cursor. */
  ghost predicate Progress(occ: seq<bool>, start: nat, budget: nat, visited: seq<nat>, cursor: nat) {
    && start <= |occ| && cursor <= |occ| && |visited| <= budget
    && Scan(occ, start, budget).0 == visited + Scan(occ, cursor, budget - |visited|).0
    && Scan(occ, start, budget).1 == Scan(occ, cursor, budget - |visited|).1
  }

  lemma ProgressStarts(occ: seq<bool>, start: nat, budget: nat)
    requires start <= |occ|
    ensures Progress(occ, start, budget, [], start)
  {
    assert Scan(occ, start, budget).0 == [] + Scan(occ, start, budget).0;
  }

  lemma ProgressOne(occ: seq<bool>, start: nat, budget: nat, visited: seq<nat>, cursor: nat)
    requires Progress(occ, start, budget, visited, cursor) && |visited| < budget
    ensures var p := NextOccupied(occ, cursor);
      && (p == |occ| ==> Scan(occ, start, budget) == (visited, 0))
      && (p < |occ| ==> Progress(occ, start, budget, visited + [p], p + 1))
  {
    var p, left := NextOccupied(occ, cursor), budget - |visited|;
    if p == |occ| {
      assert visited + [] == visited;
    } else {
      assert Scan(occ, cursor, left).0 == [p] + Scan(occ, p + 1, left - 1).0;
      assert visited + ([p] + Scan(occ, p + 1, left - 1).0) == visited + [p] + Scan(occ, p + 1, left - 1).0;
    }
  }

  lemma ProgressSpent(occ: seq<bool>, start: nat, budget: nat, visited: seq<nat>, cursor: nat)
    requires Progress(occ, start, budget, visited, cursor) && |visited| == budget
    ensures Scan(occ, start, budget) == (visited, cursor)
  {
    assert visited + [] == visited;
  }

  /** The bookkeeping of an aging tick: the table and cursor it started from, the slots visited
      so far, the expired ones already flushed and those still in the batch. */
  datatype Tick = Tick(before: Hash, start: nat, budget: nat, now: nat, timeout: nat,
                       visited: seq<nat>, flushed: seq<nat>, pending: seq<nat>)

  ghost predicate Ticking(t: Tick, hot: seq<Hot>, cursor: nat, h: Hash) {
    && Progress(Occupancy(t.before), t.start, t.budget, t.visited, cursor)
    && (forall q | cursor <= q < |t.before.keyStore| :: h.Occupied(q) == t.before.Occupied(q))
    && (forall i | 0 <= i < |t.pending| :: t.pending[i] < cursor)
    && Collected(t.before, hot, t.visited, t.flushed, t.pending, h, t.now, t.timeout)
    && |t.before.mapped| - |h.mapped| <= |t.flushed|
  }

  /** Scanning from slot c on is unaffected by changes before c. */
  lemma NextAgrees(a: seq<bool>, b: seq<bool>, c: nat)
    requires |a| == |b| && c <= |a| && forall q | c <= q < |a| :: a[q] == b[q]
    ensures NextOccupied(a, c) == NextOccupied(b, c)
    decreases |a| - c
  {
    if c < |a| && !a[c] { NextAgrees(a, b, c + 1); }
  }

  lemma TickStarts(t: Tick, hot: seq<Hot>)
    requires t.start <= |t.before.keyStore| && t.visited == t.flushed == t.pending == []
    ensures Ticking(t, hot, t.start, t.before)
  {
    ProgressStarts(Occupancy(t.before), t.start, t.budget);
  }

  /** Slot p was visited and kept. */
  function Passed(t: Tick, p: nat): Tick {
    t.(visited := t.visited + [p])
  }

  /** Slot p was visited and put into the batch. */
  function Retained(t: Tick, p: nat): Tick {
    t.(visited := t.visited + [p], pending := t.pending + [p])
  }

  /** The bookkeeping after slot p was visited. */
  lemma TickTakes(t: Tick, hot: seq<Hot>, cursor: nat, h: Hash, p: nat)
    requires Ticking(t, hot, cursor, h) && cursor <= p < |hot| && t.before.Occupied(p)
    requires Progress(Occupancy(t.before), t.start, t.budget, t.visited + [p], p + 1)
    ensures IdleLonger(hot[p].lastSeen, t.now, t.timeout) ==> Ticking(Retained(t, p), hot, p + 1, h)
    ensures !IdleLonger(hot[p].lastSeen, t.now, t.timeout) ==> Ticking(Passed(t, p), hot, p + 1, h)
  {
    CollectOne(t.before, hot, t.visited, t.flushed, t.pending, h, p, t.now, t.timeout);
  }

  /** The slot the iterator returns next is the one the undisturbed scan would visit. */
  lemma TickNext(t: Tick, hot: seq<Hot>, cursor: nat, h: Hash)
    requires Ticking(t, hot, cursor, h) && |t.visited| < t.budget
    ensures |h.keyStore| == |t.before.keyStore| && cursor <= |h.keyStore|
    ensures var p := NextOccupied(Occupancy(h), cursor);
      && (p == |h.keyStore| ==> Scan(Occupancy(t.before), t.start, t.budget) == (t.visited, 0))
      && (p < |h.keyStore| ==>
            && t.before.Occupied(p) && h.keyStore[p] == KeyAt(t.before, p)
            && Progress(Occupancy(t.before), t.start, t.budget, t.visited + [p], p + 1))
  {
    NextAgrees(Occupancy(h), Occupancy(t.before), cursor);
    ProgressOne(Occupancy(t.before), t.start, t.budget, t.visited, cursor);
  }

  /** That slot, and the bookkeeping after it. */
  lemma TickVisits(t: Tick, hot: seq<Hot>, cursor: nat, h: Hash)
    requires Ticking(t, hot, cursor, h) && |t.visited| < t.budget && |t.before.keyStore| <= |hot|
    ensures |h.keyStore| == |t.before.keyStore| && cursor <= |h.keyStore|
    ensures var p := NextOccupied(Occupancy(h), cursor);
      && (p == |h.keyStore| ==> Scan(Occupancy(t.before), t.start, t.budget) == (t.visited, 0))
      && (p < |h.keyStore| ==>
            && t.before.Occupied(p) && h.keyStore[p] == KeyAt(t.before, p)
            && (IdleLonger(hot[p].lastSeen, t.now, t.timeout) ==> Ticking(Retained(t, p), hot, p + 1, h))
            && (!IdleLonger(hot[p].lastSeen, t.now, t.timeout) ==> Ticking(Passed(t, p), hot, p + 1, h)))
  {
    TickNext(t, hot, cursor, h);
    var p := NextOccupied(Occupancy(h), cursor);
    if p < |h.keyStore| { TickTakes(t, hot, cursor, h, p); }
  }

  function Flushed(t: Tick): Tick {
    t.(flushed := t.flushed + t.pending, pending := [])
  }

  lemma TickFlushes(t: Tick, hot: seq<Hot>, cursor: nat, h: Hash, r: Hash)
    requires Ticking(t, hot, cursor, h)
    requires r == FlushAll(h, hot, t.pending, KeysAt(t.before, t.pending), t.now, t.timeout)
    ensures Ticking(Flushed(t), hot, cursor, r)
  {
    FlushPending(t.before, hot, t.visited, t.flushed, t.pending, h, r, t.now, t.timeout);
    FlushKeepsAhead(t.before, hot, t.pending, h, r, cursor, t.now, t.timeout);
    FlushShrinks(h, hot, t.pending, KeysAt(t.before, t.pending), t.now, t.timeout);
  }

  /** The last flush: the tick has done what deleting at every visit would have done. */
  lemma TickEnds(t: Tick, hot: seq<Hot>, h: Hash, r: Hash)
    requires Collected(t.before, hot, t.visited, t.flushed, t.pending, h, t.now, t.timeout)
    requires |t.before.mapped| - |h.mapped| <= |t.flushed|
    requires r == FlushAll(h, hot, t.pending, KeysAt(t.before, t.pending), t.now, t.timeout)
    ensures r == AgeAll(t.before, hot, t.visited, t.now, t.timeout)
    ensures |t.before.mapped| - |r.mapped| <= |t.flushed| + |t.pending|
    ensures |t.flushed| + |t.pending| == |ExpiredOf(hot, t.visited, t.now, t.timeout)|
  {
    FlushPending(t.before, hot, t.visited, t.flushed, t.pending, h, r, t.now, t.timeout);
    BatchedEqualsUnbatched(t.before, hot, t.visited, t.now, t.timeout);
    assert t.flushed + t.pending + [] == t.flushed + t.pending;
    FlushShrinks(h, hot, t.pending, KeysAt(t.before, t.pending), t.now, t.timeout);
  }

  // ---------------------------------------------------------------- replacement eviction

  /** What candidate_delete_if_valid asks of a candidate when there is no idle limit. */
  predicate Evictable(h: Hash, hot: seq<Hot>, c: Candidate) {
    && Lookup(h, c.key) == c.position
    && c.position < |hot|
    && hot[c.position].gen == c.gen
    && hot[c.position].lastSeen != 0
  }

  function EvictOne(h: Hash, hot: seq<Hot>, c: Candidate): Hash {
    if Evictable(h, hot, c) then Del(h, c.key) else h
  }

  /** Candidates tried one after the other. */
  function EvictAll(h: Hash, hot: seq<Hot>, tried: seq<Candidate>): Hash {
    if tried == [] then h
    else EvictOne(EvictAll(h, hot, tried[..|tried| - 1]), hot, tried[|tried| - 1])
  }

  lemma EvictLast(h: Hash, hot: seq<Hot>, tried: seq<Candidate>, c: Candidate)
    ensures EvictAll(h, hot, tried + [c]) == EvictOne(EvictAll(h, hot, tried), hot, c)
  {
    assert (tried + [c])[..|tried|] == tried;
  }

  lemma {:induction false} EvictAppend(h: Hash, hot: seq<Hot>, a: seq<Candidate>, b: seq<Candidate>)
    ensures EvictAll(EvictAll(h, hot, a), hot, b) == EvictAll(h, hot, a + b)
    decreases |b|
  {
    if b == [] {
      assert a + b == a;
    } else {
      var n := |b| - 1;
      EvictAppend(h, hot, a, b[..n]);
      EvictLast(h, hot, a + b[..n], b[n]);
      assert a + b == a + b[..n] + [b[n]];
    }
  }

  /** A cached pair (p, g) taken out of the ring: the key comes from the slot's cold record now,
      the generation from the time it was cached. */
  function CachedCandidate(hot: seq<Hot>, cold: seq<Cold>, obj: nat): Candidate {
    var p := UnpackPosition(obj);
    if p < |hot| && p < |cold| then Candidate(KeyFromCold(cold[p]), p, UnpackGen(obj), hot[p].lastSeen)
    else Candidate(ZERO_KEY, p, UnpackGen(obj), 0)
  }

  /** The candidates a replacement takes from the ring, at most n. */
  function CachedOf(hot: seq<Hot>, cold: seq<Cold>, ring: seq<nat>, n: nat): (cs: seq<Candidate>)
    ensures |cs| == Min(n, |ring|) && forall i | 0 <= i < |cs| :: cs[i] == CachedCandidate(hot, cold, ring[i])
  {
    seq(Min(n, |ring|), i requires 0 <= i < |ring| => CachedCandidate(hot, cold, ring[i]))
  }

  /** What a replacement tries besides: when the cached candidates removed nothing and the budget
      allows it, the oldest slots of sixteen sampled batches. */
  ghost predicate SampledAfter(h: Hash, hot: seq<Hot>, cached: seq<Candidate>, emergencyScanBudget: nat,
                               batches: seq<seq<nat>>) {
    if emergencyScanBudget > 0 && EvictAll(h, hot, cached) == h
    then |batches| == EMERGENCY_BATCHES && Sampling(batches, |hot|)
    else batches == []
  }

  ghost predicate NamedForEviction(h: Hash, hot: seq<Hot>, tried: seq<Candidate>, k: Key) {
    exists i :: 0 <= i < |tried| && Evictable(h, hot, tried[i]) && tried[i].key == k
  }

  /** Exactly the keys that some candidate names validly at the start are removed: an outdated
      candidate removes nothing, and a repeated one nothing more. */
  lemma {:induction false} EvictAllExactly(h: Hash, hot: seq<Hot>, tried: seq<Candidate>)
    ensures var r := EvictAll(h, hot, tried);
      && (forall k :: k in r.mapped <==> k in h.mapped && !NamedForEviction(h, hot, tried, k))
      && (forall k | k in r.mapped :: r.mapped[k] == h.mapped[k])
      && r.keyStore == h.keyStore && |r.mapped| <= |h.mapped| <= |r.mapped| + |tried|
      && (|r.mapped| == |h.mapped| ==> r == h)
    decreases |tried|
  {
    if tried == [] {
    } else {
      var n := |tried| - 1;
      var init, c := tried[..n], tried[n];
      EvictAllExactly(h, hot, init);
      var mid, r := EvictAll(h, hot, init), EvictAll(h, hot, tried);
      if Evictable(mid, hot, c) { CardMinusKey(mid.mapped, c.key); }
      forall k | k in h.mapped ensures NamedForEviction(h, hot, tried, k)
                                   <==> NamedForEviction(h, hot, init, k) || (Evictable(h, hot, c) && c.key == k) {
        NamedLast(h, hot, tried, k);
      }
    }
  }

  lemma {:induction false} EvictAllKeepsValid(h: Hash, hot: seq<Hot>, tried: seq<Candidate>)
    requires HashTable.Valid(h)
    ensures HashTable.Valid(EvictAll(h, hot, tried))
    decreases |tried|
  {
    if tried != [] {
      var n := |tried| - 1;
      EvictAllKeepsValid(h, hot, tried[..n]);
      DelKeepsValid(EvictAll(h, hot, tried[..n]), tried[n].key);
    }
  }

  /** The keys that some candidate names validly. */
  ghost function NamedKeys(h: Hash, hot: seq<Hot>, tried: seq<Candidate>): set<Key> {
    set k | k in h.mapped && NamedForEviction(h, hot, tried, k)
  }

  /** As many flows are removed as there are distinct keys validly named. */
  lemma EvictedCount(h: Hash, hot: seq<Hot>, tried: seq<Candidate>)
    ensures |h.mapped| - |EvictAll(h, hot, tried).mapped| == |NamedKeys(h, hot, tried)|
  {
    EvictAllExactly(h, hot, tried);
    var named, left := NamedKeys(h, hot, tried), EvictAll(h, hot, tried).mapped.Keys;
    assert h.mapped.Keys == left + named && left !! named;
  }

  lemma NamedLast(h: Hash, hot: seq<Hot>, tried: seq<Candidate>, k: Key)
    requires tried != []
    ensures var n := |tried| - 1;
      NamedForEviction(h, hot, tried, k)
      <==> NamedForEviction(h, hot, tried[..n], k) || (Evictable(h, hot, tried[n]) && tried[n].key == k)
  {
    var n := |tried| - 1;
    if NamedForEviction(h, hot, tried[..n], k) {
      var i :| 0 <= i < n && Evictable(h, hot, tried[..n][i]) && tried[..n][i].key == k;
      assert tried[i] == tried[..n][i];
    }
    if NamedForEviction(h, hot, tried, k) {
      var i :| 0 <= i < |tried| && Evictable(h, hot, tried[i]) && tried[i].key == k;
      assert i < n ==> tried[i] == tried[..n][i];
    }
  }

  /** The oldest published slot of some samples, the first one among equals. */
  function OldestOf(hot: seq<Hot>, picks: seq<nat>): (best: Option<nat>)
    ensures best.Some? ==> best.value in picks && best.value < |hot| && 0 != hot[best.value].lastSeen < U64_MAX
  {
    if picks == [] then None
    else
      var n := |picks| - 1;
      var best, p := OldestOf(hot, picks[..n]), picks[n];
      if p < |hot| && hot[p].lastSeen != 0
         && hot[p].lastSeen < (if best.None? then U64_MAX else hot[best.value].lastSeen)
      then Some(p) else best
  }

  lemma OldestLast(hot: seq<Hot>, picks: seq<nat>, p: nat)
    requires p < |hot|
    ensures var best := OldestOf(hot, picks);
      OldestOf(hot, picks + [p])
      == if hot[p].lastSeen != 0 && hot[p].lastSeen < (if best.None? then U64_MAX else hot[best.value].lastSeen)
        then Some(p) else best
  {
    assert (picks + [p])[..|picks|] == picks;
  }

  /** No sample is older, and there is a result as soon as some sample is published. */
  lemma {:induction false} OldestIsOldest(hot: seq<Hot>, picks: seq<nat>, p: nat)
    requires p in picks && p < |hot| && 0 != hot[p].lastSeen < U64_MAX
    ensures OldestOf(hot, picks).Some? && hot[OldestOf(hot, picks).value].lastSeen <= hot[p].lastSeen
    decreases |picks|
  {
    var n := |picks| - 1;
    if p in picks[..n] { OldestIsOldest(hot, picks[..n], p); }
    assert picks == picks[..n] + [picks[n]];
  }

  /** The candidate candidate_load_slot makes of a slot. */
  function SlotCandidate(hot: seq<Hot>, cold: seq<Cold>, p: nat): Candidate
    requires p < |hot| == |cold|
  {
    Candidate(KeyFromCold(cold[p]), p, hot[p].gen, hot[p].lastSeen)
  }

  /** The candidates of some batches of samples. */
  function SampleCandidates(hot: seq<Hot>, cold: seq<Cold>, batches: seq<seq<nat>>): seq<Candidate>
    requires |hot| == |cold|
  {
    if batches == [] then []
    else
      var n := |batches| - 1;
      var init, best := SampleCandidates(hot, cold, batches[..n]), OldestOf(hot, batches[n]);
      if best.Some? then init + [SlotCandidate(hot, cold, best.value)] else init
  }

  lemma SampleLast(hot: seq<Hot>, cold: seq<Cold>, batches: seq<seq<nat>>, picks: seq<nat>)
    requires |hot| == |cold|
    ensures var init, best := SampleCandidates(hot, cold, batches), OldestOf(hot, picks);
      SampleCandidates(hot, cold, batches + [picks])
      == if best.Some? then init + [SlotCandidate(hot, cold, best.value)] else init
  {
    assert (batches + [picks])[..|batches|] == batches;
  }

  ghost predicate Sampling(batches: seq<seq<nat>>, slots: nat) {
    forall b | 0 <= b < |batches| ::
      |batches[b]| == EMERGENCY_PICKS && forall i | 0 <= i < EMERGENCY_PICKS :: batches[b][i] < slots
  }

  lemma SamplingGrows(batches: seq<seq<nat>>, picks: seq<nat>, slots: nat)
    requires Sampling(batches, slots) && Sampling([picks], slots)
    ensures Sampling(batches + [picks], slots)
  {
    assert [picks][0] == picks;
  }

  lemma SampleTried(h: Hash, hot: seq<Hot>, cold: seq<Cold>, batches: seq<seq<nat>>, picks: seq<nat>)
    requires |hot| == |cold|
    ensures var mid, best := EvictAll(h, hot, SampleCandidates(hot, cold, batches)), OldestOf(hot, picks);
      EvictAll(h, hot, SampleCandidates(hot, cold, batches + [picks]))
      == if best.Some? then EvictOne(mid, hot, SlotCandidate(hot, cold, best.value)) else mid
  {
    SampleLast(hot, cold, batches, picks);
    var best := OldestOf(hot, picks);
    if best.Some? {
      EvictLast(h, hot, SampleCandidates(hot, cold, batches), SlotCandidate(hot, cold, best.value));
    }
  }
}
