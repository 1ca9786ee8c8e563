/** Functions that specify a pressure pass over visited slots (src/flow_table.c,
    flow_table_pressure_maintenance) and what such a pass keeps. */
module PressureSpec {
  import opened FlowTypes
  import opened HashTable
  import opened AgingScan
  import opened FlowTableSpec

  /** What a pass is given: the clock, the mode's idle limit, the eviction budget, and the slots
      another thread gets to between the collection of their candidate and its deletion, so that
      the candidate is stale when it is checked again. */
  datatype Limits = Limits(now: nat, minIdle: nat, budget: nat, raced: set<nat>)

  /** The part of the state a pass changes, with its counters. */
  datatype PressureRun = PressureRun(hash: Hash, victims: seq<nat>, evicted: nat, candidates: nat, stale: nat)

  function StartRun(h: Hash, victims: seq<nat>): PressureRun {
    PressureRun(h, victims, 0, 0, 0)
  }

  predicate EligibleAt(hot: seq<Hot>, p: nat, l: Limits) {
    p < |hot| && Eligible(hot[p].lastSeen, l.now, l.minIdle)
  }

  /** The slot's flow can be evicted: it is eligible and nobody gets in between. */
  predicate EvictableAt(hot: seq<Hot>, p: nat, l: Limits) {
    EligibleAt(hot, p, l) && p !in l.raced
  }

  /** One visited slot: evict while the budget lasts, then fill the victim cache. */
  function PressureOne(r: PressureRun, hot: seq<Hot>, p: nat, l: Limits): PressureRun {
    if !EligibleAt(hot, p, l) then r
    else if r.evicted < l.budget then
      if p in l.raced then r.(stale := r.stale + 1)
      else r.(hash := Del(r.hash, KeyAt(r.hash, p)), evicted := r.evicted + 1)
    else if r.candidates < VICTIM_FILL_BATCH && |r.victims| < VICTIM_RING_ENTRIES then
      r.(victims := r.victims + [Pack(p, hot[p].gen)], candidates := r.candidates + 1)
    else r
  }

  function PressureAll(r: PressureRun, hot: seq<Hot>, visited: seq<nat>, l: Limits): PressureRun {
    if visited == [] then r
    else PressureOne(PressureAll(r, hot, visited[..|visited| - 1], l), hot, visited[|visited| - 1], l)
  }

  /** A ring object that names an eligible visited slot and its generation. */
  ghost predicate NamesEligible(obj: nat, hot: seq<Hot>, visited: seq<nat>, l: Limits) {
    exists p: nat :: p in visited && EligibleAt(hot, p, l) && obj == Pack(p, hot[p].gen)
  }

  ghost predicate CachedEligible(victims: seq<nat>, victims': seq<nat>, hot: seq<Hot>, visited: seq<nat>, l: Limits) {
    forall i | |victims| <= i < |victims'| :: NamesEligible(victims'[i], hot, visited, l)
  }

  lemma CachedGrows(victims: seq<nat>, v: seq<nat>, v': seq<nat>, hot: seq<Hot>, init: seq<nat>, p: nat, l: Limits)
    requires CachedEligible(victims, v, hot, init, l)
    requires v' == v || (EligibleAt(hot, p, l) && v' == v + [Pack(p, hot[p].gen)])
    ensures CachedEligible(victims, v', hot, init + [p], l)
  {
    forall i | |victims| <= i < |v'| ensures NamesEligible(v'[i], hot, init + [p], l) {
      if i < |v| {
        assert NamesEligible(v[i], hot, init, l);
        var q: nat :| q in init && EligibleAt(hot, q, l) && v[i] == Pack(q, hot[q].gen);
        assert q in init + [p] && v'[i] == v[i];
      } else {
        assert p in init + [p] && v'[i] == Pack(p, hot[p].gen);
      }
    }
  }

  /** The flows that are gone were visited and evictable; while the budget is not spent, every
      visited evictable flow is gone and nothing has been cached. */
  ghost predicate Evicted(h: Hash, hot: seq<Hot>, visited: seq<nat>, l: Limits, r: PressureRun) {
    && (forall k | k in r.hash.mapped :: k in h.mapped && r.hash.mapped[k] == h.mapped[k])
    && (forall k | k in h.mapped && k !in r.hash.mapped :: h.mapped[k] in visited && EvictableAt(hot, h.mapped[k], l))
    && (r.evicted < l.budget ==>
          && r.candidates == 0
          && forall k | k in r.hash.mapped && r.hash.mapped[k] in visited :: !EvictableAt(hot, r.hash.mapped[k], l))
  }

  /** The state reached from (h, victims) after visiting `visited` within the limits. */
  ghost predicate PressureInv(h: Hash, victims: seq<nat>, hot: seq<Hot>, visited: seq<nat>, l: Limits, r: PressureRun) {
    && r.hash.keyStore == h.keyStore
    && r.evicted <= l.budget && r.candidates <= VICTIM_FILL_BATCH
    && r.evicted + r.stale + r.candidates <= |visited|
    && |r.hash.mapped| + r.evicted == |h.mapped|
    && |r.victims| == |victims| + r.candidates && victims <= r.victims
    && Evicted(h, hot, visited, l, r)
    && CachedEligible(victims, r.victims, hot, visited, l)
  }

  lemma EvictedGrows(h: Hash, hot: seq<Hot>, init: seq<nat>, p: nat, l: Limits, r: PressureRun)
    requires forall k | k in h.mapped :: KeyAt(h, h.mapped[k]) == k
    requires r.hash.keyStore == h.keyStore && r.evicted <= l.budget
    requires Evicted(h, hot, init, l, r) && h.Occupied(p) && p !in init
    ensures Evicted(h, hot, init + [p], l, PressureOne(r, hot, p, l))
    ensures KeyAt(h, p) in r.hash.mapped
  {
    var k := KeyAt(h, p);
    assert k in r.hash.mapped && h.mapped[k] == p;
    assert forall j | j in h.mapped && h.mapped[j] == p :: j == k;
    assert p in init + [p] && forall q | q in init :: q in init + [p];
  }

  lemma PressureOneKeepsInv(h: Hash, victims: seq<nat>, hot: seq<Hot>, init: seq<nat>, p: nat, l: Limits,
                            r: PressureRun)
    requires forall k | k in h.mapped :: KeyAt(h, h.mapped[k]) == k
    requires PressureInv(h, victims, hot, init, l, r) && h.Occupied(p) && p !in init
    ensures PressureInv(h, victims, hot, init + [p], l, PressureOne(r, hot, p, l))
  {
    EvictedGrows(h, hot, init, p, l, r);
    CardMinusKey(r.hash.mapped, KeyAt(h, p));
    CachedGrows(victims, r.victims, PressureOne(r, hot, p, l).victims, hot, init, p, l);
  }

  /** A pressure pass evicts at most its budget, only eligible visited flows, and every visited
      flow that is eligible and not raced as long as the budget is not spent; what it caches names
      eligible slots. */
  lemma {:induction false} PressureAllInv(h: Hash, victims: seq<nat>, hot: seq<Hot>, visited: seq<nat>, l: Limits)
    requires forall k | k in h.mapped :: KeyAt(h, h.mapped[k]) == k
    requires forall i | 0 <= i < |visited| :: h.Occupied(visited[i])
    requires Increasing(visited)
    ensures PressureInv(h, victims, hot, visited, l, PressureAll(StartRun(h, victims), hot, visited, l))
    decreases |visited|
  {
    if visited == [] {
    } else {
      var n := |visited| - 1;
      PressureAllInv(h, victims, hot, visited[..n], l);
      assert visited == visited[..n] + [visited[n]];
      PressureOneKeepsInv(h, victims, hot, visited[..n], visited[n], l,
                          PressureAll(StartRun(h, victims), hot, visited[..n], l));
    }
  }

  /** How many visited slots hold an evictable flow. */
  function EvictableCount(hot: seq<Hot>, visited: seq<nat>, l: Limits): (n: nat)
    ensures n <= |visited|
  {
    if visited == [] then 0
    else
      var n := |visited| - 1;
      EvictableCount(hot, visited[..n], l) + (if EvictableAt(hot, visited[n], l) then 1 else 0)
  }

  /** The exact number of evictions: all evictable visited flows, up to the budget. */
  lemma {:induction false} EvictedExactly(r: PressureRun, hot: seq<Hot>, visited: seq<nat>, l: Limits)
    requires r.evicted == 0
    ensures PressureAll(r, hot, visited, l).evicted == Min(EvictableCount(hot, visited, l), l.budget)
    decreases |visited|
  {
    if visited == [] {
    } else {
      EvictedExactly(r, hot, visited[..|visited| - 1], l);
    }
  }

  /** The visited eligible slots that come when the budget is spent, in visiting order. */
  function Late(hot: seq<Hot>, visited: seq<nat>, l: Limits): (ps: seq<nat>)
    ensures |ps| <= |visited| && forall i | 0 <= i < |ps| :: EligibleAt(hot, ps[i], l)
  {
    if visited == [] then []
    else
      var n := |visited| - 1;
      var init := Late(hot, visited[..n], l);
      if EligibleAt(hot, visited[n], l) && EvictableCount(hot, visited[..n], l) >= l.budget then init + [visited[n]]
      else init
  }

  function Packed(hot: seq<Hot>, ps: seq<nat>): (objs: seq<nat>)
    requires forall i | 0 <= i < |ps| :: ps[i] < |hot|
    ensures |objs| == |ps| && forall i | 0 <= i < |ps| :: objs[i] == Pack(ps[i], hot[ps[i]].gen)
  {
    seq(|ps|, i requires 0 <= i < |ps| => Pack(ps[i], hot[ps[i]].gen))
  }

  /** The exact contents of the victim cache: it gains the eligible slots that come when the budget
      is spent, in visiting order, at most 512 of them and as many as the 8191 entries leave room
      for. */
  lemma {:induction false} CachedExactly(h: Hash, victims: seq<nat>, hot: seq<Hot>, visited: seq<nat>, l: Limits)
    requires |victims| <= 8191
    ensures var r, late := PressureAll(StartRun(h, victims), hot, visited, l), Late(hot, visited, l);
      var n := Min(|late|, Min(512, 8191 - |victims|));
      r.candidates == n && r.victims == victims + Packed(hot, late[..n])
    decreases |visited|
  {
    if visited == [] {
      assert victims + [] == victims;
    } else {
      var n := |visited| - 1;
      CachedExactly(h, victims, hot, visited[..n], l);
      EvictedExactly(StartRun(h, victims), hot, visited[..n], l);
      var late, room := Late(hot, visited[..n], l), Min(512, 8191 - |victims|);
      CacheOne(PressureAll(StartRun(h, victims), hot, visited[..n], l), victims, hot, late, visited[n], room, l);
    }
  }

  lemma CacheOne(r: PressureRun, victims: seq<nat>, hot: seq<Hot>, late: seq<nat>, p: nat, room: nat, l: Limits)
    requires (forall i | 0 <= i < |late| :: late[i] < |hot|) && room == Min(512, 8191 - |victims|)
    requires r.candidates == Min(|late|, room) && r.victims == victims + Packed(hot, late[..Min(|late|, room)])
    ensures var late' := if EligibleAt(hot, p, l) && r.evicted >= l.budget then late + [p] else late;
      var r', n := PressureOne(r, hot, p, l), Min(|late'|, room);
      r'.candidates == n && r'.victims == victims + Packed(hot, late'[..n])
  {
    if EligibleAt(hot, p, l) && r.evicted >= l.budget {
      if |late| < room {
        assert (late + [p])[..|late| + 1] == late + [p] && late[..|late|] == late;
        assert Packed(hot, late + [p]) == Packed(hot, late) + [Pack(p, hot[p].gen)];
      } else {
        assert (late + [p])[..room] == late[..room];
      }
    }
  }

  lemma PressureOneKeeps(r: PressureRun, hot: seq<Hot>, p: nat, l: Limits)
    requires HashTable.Valid(r.hash)
    ensures HashTable.Valid(PressureOne(r, hot, p, l).hash)
    ensures PressureOne(r, hot, p, l).hash.dispatcherCnt == r.hash.dispatcherCnt
  {
    DelKeepsValid(r.hash, KeyAt(r.hash, p));
    var h := PressureOne(r, hot, p, l).hash;
    assert h == r.hash || h == Del(r.hash, KeyAt(r.hash, p));
  }

  lemma {:induction false} PressureAllKeeps(r: PressureRun, hot: seq<Hot>, visited: seq<nat>, l: Limits)
    requires HashTable.Valid(r.hash)
    ensures HashTable.Valid(PressureAll(r, hot, visited, l).hash)
    ensures PressureAll(r, hot, visited, l).hash.dispatcherCnt == r.hash.dispatcherCnt
    decreases |visited|
  {
    if visited != [] {
      var n := |visited| - 1;
      PressureAllKeeps(r, hot, visited[..n], l);
      PressureOneKeeps(PressureAll(r, hot, visited[..n], l), hot, visited[n], l);
    }
  }

  // ---------------------------------------------------------------- progress of a pass

  /** The bookkeeping of a pressure pass. */
  datatype Pass = Pass(before: Hash, victims: seq<nat>, start: nat, scanBudget: nat, limits: Limits, visited: seq<nat>)

  function RunOf(t: Pass, hot: seq<Hot>): PressureRun {
    PressureAll(StartRun(t.before, t.victims), hot, t.visited, t.limits)
  }

  ghost predicate Passing(t: Pass, hot: seq<Hot>, cursor: nat, r: PressureRun) {
    && Progress(Occupancy(t.before), t.start, t.scanBudget, t.visited, cursor)
    && r.hash.keyStore == t.before.keyStore
    && (forall q | cursor <= q < |t.before.keyStore| :: r.hash.Occupied(q) == t.before.Occupied(q))
    && r == RunOf(t, hot)
  }

  /** The pass is over: all slots of the scan are visited. */
  ghost predicate PassEnds(t: Pass, hot: seq<Hot>, cursor: nat, r: PressureRun) {
    && t.start <= |t.before.keyStore|
    && Scan(Occupancy(t.before), t.start, t.scanBudget) == (t.visited, cursor) && r == RunOf(t, hot)
  }

  lemma PassingSame(t: Pass, hot: seq<Hot>, cursor: nat, r: PressureRun, r': PressureRun)
    requires Passing(t, hot, cursor, r) && r == r'
    ensures Passing(t, hot, cursor, r')
  {
  }

  lemma PassSpent(t: Pass, hot: seq<Hot>, cursor: nat, r: PressureRun)
    requires Passing(t, hot, cursor, r) && |t.visited| == t.scanBudget
    ensures PassEnds(t, hot, cursor, r)
  {
    ProgressSpent(Occupancy(t.before), t.start, t.scanBudget, t.visited, cursor);
  }

  lemma PassStarts(t: Pass, hot: seq<Hot>)
    requires t.start <= |t.before.keyStore| && t.visited == []
    ensures Passing(t, hot, t.start, StartRun(t.before, t.victims))
  {
    ProgressStarts(Occupancy(t.before), t.start, t.scanBudget);
  }

  function PassOne(t: Pass, p: nat): Pass {
    t.(visited := t.visited + [p])
  }

  lemma PassVisits(t: Pass, hot: seq<Hot>, cursor: nat, r: PressureRun)
    requires Passing(t, hot, cursor, r) && |t.visited| < t.scanBudget && |t.before.keyStore| <= |hot|
    ensures cursor <= |r.hash.keyStore|
    ensures var p := NextOccupied(Occupancy(r.hash), cursor);
      && (p == |r.hash.keyStore| ==> PassEnds(t, hot, 0, r))
      && (p < |r.hash.keyStore| ==>
            r.hash.Occupied(p) && Passing(PassOne(t, p), hot, p + 1, PressureOne(r, hot, p, t.limits)))
  {
    var occ := Occupancy(t.before);
    NextAgrees(Occupancy(r.hash), occ, cursor);
    ProgressOne(occ, t.start, t.scanBudget, t.visited, cursor);
    var p := NextOccupied(occ, cursor);
    if p < |occ| {
      OneMoreRun(t, hot, p, r);
      OneLeavesAhead(t.before, hot, p, t.limits, r);
    }
  }

  lemma OneMoreRun(t: Pass, hot: seq<Hot>, p: nat, r: PressureRun)
    requires r == RunOf(t, hot)
    ensures PressureOne(r, hot, p, t.limits) == RunOf(PassOne(t, p), hot)
  {
    assert PassOne(t, p).visited[..|t.visited|] == t.visited;
  }

  /** Evicting the flow of slot p changes no slot after p. */
  lemma OneLeavesAhead(before: Hash, hot: seq<Hot>, p: nat, l: Limits, r: PressureRun)
    requires r.hash.keyStore == before.keyStore && p < |before.keyStore|
    requires r.hash.Occupied(p)
    requires forall q | p <= q < |before.keyStore| :: r.hash.Occupied(q) == before.Occupied(q)
    ensures PressureOne(r, hot, p, l).hash.keyStore == before.keyStore
    ensures forall q | p < q < |before.keyStore| :: PressureOne(r, hot, p, l).hash.Occupied(q) == before.Occupied(q)
  {
    var k := KeyAt(r.hash, p);
    assert r.hash.mapped[k] == p;
  }
}
