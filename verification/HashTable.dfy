/** The contract of the lock-free rte_hash with its RCU deferred queue, as src/flow_table.c
    configures it: an injective map from keys to slots, a FIFO of free slots and a FIFO of
    deleted slots waiting for a grace period. Each operation is atomic.

    Two actors report quiescent states: the dispatcher and the maintenance (stats/aging)
    thread. Workers do not take part. */
module HashTable {
  import opened FlowTypes

  datatype Actor = DispatcherActor | MaintenanceActor

  /** A deleted slot and the QSBR token its deletion drew. */
  datatype Deferred = Deferred(slot: nat, token: nat)

  /** keyStore is the hash's own copy of the key of each slot; it outlives a deletion. */
  datatype Hash = Hash(
    mapped: map<Key, nat>, keyStore: seq<Key>, free: seq<nat>, dq: seq<Deferred>,
    token: nat, dispatcherCnt: nat, maintenanceCnt: nat)
  {
    /** The QSBR counter of an actor; 0 means offline. */
    function Cnt(a: Actor): nat {
      if a == DispatcherActor then dispatcherCnt else maintenanceCnt
    }

    predicate Occupied(p: nat) {
      p < |keyStore| && keyStore[p] in mapped && mapped[keyStore[p]] == p
    }
  }

  const ZERO_KEY := Key(0, 0, 0, 0, 0)

  /** A new table of n slots; QSBR tokens start at 1. */
  function EmptyHash(n: nat): Hash {
    Hash(map[], seq(n, i => ZERO_KEY), seq(n, i => i), [], 1, 0, 0)
  }

  ghost predicate Distinct(s: seq<nat>) {
    forall i, j | 0 <= i < j < |s| :: s[i] != s[j]
  }

  function Slots(dq: seq<Deferred>): (s: seq<nat>)
    ensures |s| == |dq| && forall i | 0 <= i < |dq| :: s[i] == dq[i].slot
  {
    seq(|dq|, i requires 0 <= i < |dq| => dq[i].slot)
  }

  /** Free, mapped and deferred slots partition the table. */
  ghost predicate Valid(h: Hash) {
    && (forall k | k in h.mapped :: h.mapped[k] < |h.keyStore| && h.keyStore[h.mapped[k]] == k)
    && (forall i | 0 <= i < |h.free| :: h.free[i] < |h.keyStore|)
    && (forall i | 0 <= i < |h.dq| :: h.dq[i].slot < |h.keyStore| && h.dq[i].token <= h.token)
    && Distinct(h.free) && Distinct(Slots(h.dq))
    && (forall i, j | 0 <= i < |h.free| && 0 <= j < |h.dq| :: h.free[i] != h.dq[j].slot)
    && (forall i | 0 <= i < |h.free| :: !h.Occupied(h.free[i]))
    && (forall i | 0 <= i < |h.dq| :: !h.Occupied(h.dq[i].slot))
    && (forall i, j | 0 <= i < j < |h.dq| :: h.dq[i].token < h.dq[j].token)
    && |h.mapped| + |h.free| + |h.dq| == |h.keyStore|
    && h.dispatcherCnt <= h.token && h.maintenanceCnt <= h.token && h.token >= 1
  }

  /** rte_hash_lookup: the slot of a key, negative when absent. */
  function Lookup(h: Hash, k: Key): (p: int)
    ensures p >= 0 <==> k in h.mapped
    ensures p >= 0 ==> p == h.mapped[k]
  {
    if k in h.mapped then h.mapped[k] else -1
  }

  /** rte_hash_del_key: the key disappears at once, its slot waits in the deferred queue. */
  function Del(h: Hash, k: Key): Hash {
    if k !in h.mapped then h
    else h.(mapped := h.mapped - {k}, token := h.token + 1,
            dq := h.dq + [Deferred(h.mapped[k], h.token + 1)])
  }

  /** Actor a is offline or has reported since the token was drawn. */
  predicate TokenPassed(h: Hash, a: Actor, token: nat) {
    h.Cnt(a) == 0 || h.Cnt(a) >= token
  }

  predicate Acknowledged(h: Hash, token: nat) {
    TokenPassed(h, DispatcherActor, token) && TokenPassed(h, MaintenanceActor, token)
  }

  predicate CanReclaim(h: Hash) {
    h.dq != [] && Acknowledged(h, h.dq[0].token)
  }

  /** One entry of rte_rcu_qsbr_dq_reclaim: the oldest deferred slot becomes free. */
  function ReclaimOne(h: Hash): Hash
    requires CanReclaim(h)
  {
    h.(dq := h.dq[1..], free := h.free + [h.dq[0].slot])
  }

  /** Reclaim at most n entries. */
  function Reclaim(h: Hash, n: nat): Hash
    decreases n
  {
    if n == 0 || !CanReclaim(h) then h else Reclaim(ReclaimOne(h), n - 1)
  }

  lemma {:induction false} ReclaimAdd(h: Hash, a: nat, b: nat)
    ensures Reclaim(Reclaim(h, a), b) == Reclaim(h, a + b)
    decreases a
  {
    if a != 0 && CanReclaim(h) {
      ReclaimAdd(ReclaimOne(h), a - 1, b);
    }
  }

  lemma {:induction false} ReclaimCount(h: Hash, n: nat)
    ensures |Reclaim(h, n).dq| <= |h.dq|
    ensures |h.dq| - |Reclaim(h, n).dq| <= n
    ensures |Reclaim(h, n).free| - |h.free| == |h.dq| - |Reclaim(h, n).dq|
    ensures |h.dq| - |Reclaim(h, n).dq| < n ==> !CanReclaim(Reclaim(h, n))
    ensures |Reclaim(h, n).dq| == |h.dq| ==> Reclaim(h, n) == h
    decreases n
  {
    if n != 0 && CanReclaim(h) {
      ReclaimCount(ReclaimOne(h), n - 1);
    }
  }

  /** Repeated calls that reclaim at most `batch` entries each. */
  function Rounds(h: Hash, rounds: nat, batch: nat): Hash
    decreases rounds
  {
    if rounds == 0 then h else Rounds(Reclaim(h, batch), rounds - 1, batch)
  }

  /** The rounds add up to one reclaim of their total. */
  lemma {:induction false} RoundsAreOneReclaim(h: Hash, rounds: nat, batch: nat)
    ensures Rounds(h, rounds, batch) == Reclaim(h, rounds * batch)
    decreases rounds
  {
    if rounds > 0 {
      RoundsAreOneReclaim(Reclaim(h, batch), rounds - 1, batch);
      assert rounds * batch == batch + (rounds - 1) * batch;
      ReclaimAdd(h, batch, (rounds - 1) * batch);
    }
  }

  lemma {:induction false} RoundsKeepMapped(h: Hash, rounds: nat, batch: nat)
    requires Valid(h)
    ensures Rounds(h, rounds, batch).mapped == h.mapped
    decreases rounds
  {
    if rounds > 0 {
      ReclaimKeepsValid(h, batch);
      RoundsKeepMapped(Reclaim(h, batch), rounds - 1, batch);
    }
  }

  /** Insertion of an absent key into the oldest free slot. */
  function Insert(h: Hash, k: Key): Hash
    requires h.free != [] && h.free[0] < |h.keyStore|
  {
    var p := h.free[0];
    h.(mapped := h.mapped[k := p], keyStore := h.keyStore[p := k], free := h.free[1..])
  }

  /** The outcome of an add: the table after it and the slot, negative on failure. */
  datatype Added = Added(hash: Hash, position: int)

  /** rte_hash_add_key: a known key keeps its slot; a new one takes the oldest free slot. When
      none is free the library first tries to reclaim, and fails with a negative result. */
  function AddedKey(h: Hash, k: Key, batch: nat): Added {
    if k in h.mapped then Added(h, h.mapped[k])
    else
      var r := if h.free == [] then Reclaim(h, batch) else h;
      if r.free == [] || r.free[0] >= |r.keyStore| then Added(r, -1) else Added(Insert(r, k), r.free[0])
  }

  function Quiescent(h: Hash, a: Actor): Hash {
    if a == DispatcherActor then h.(dispatcherCnt := h.token) else h.(maintenanceCnt := h.token)
  }

  function Offline(h: Hash, a: Actor): Hash {
    if a == DispatcherActor then h.(dispatcherCnt := 0) else h.(maintenanceCnt := 0)
  }

  lemma EmptyValid(n: nat)
    ensures Valid(EmptyHash(n))
  {
  }

  lemma CardMinusKey(m: map<Key, nat>, k: Key)
    requires k in m
    ensures |m - {k}| == |m| - 1
  {
    assert m == (m - {k})[k := m[k]];
  }

  lemma DelKeepsValid(h: Hash, k: Key)
    requires Valid(h)
    ensures Valid(Del(h, k))
  {
    if k in h.mapped {
      CardMinusKey(h.mapped, k);
      DelKeepsQueues(h, k);
      var h' := Del(h, k);
      var p := h.mapped[k];
      assert h.Occupied(p) && !h'.Occupied(p);
      assert forall q | h'.Occupied(q) :: h.Occupied(q);
    }
  }

  lemma DelKeepsQueues(h: Hash, k: Key)
    requires Valid(h) && k in h.mapped
    ensures var h' := Del(h, k);
      && Distinct(Slots(h'.dq))
      && (forall i, j | 0 <= i < |h'.free| && 0 <= j < |h'.dq| :: h'.free[i] != h'.dq[j].slot)
      && (forall i, j | 0 <= i < j < |h'.dq| :: h'.dq[i].token < h'.dq[j].token)
  {
    assert h.Occupied(h.mapped[k]);
  }

  lemma ReclaimOneKeepsQueues(h: Hash)
    requires Valid(h) && CanReclaim(h)
    ensures var h' := ReclaimOne(h);
      && Distinct(h'.free) && Distinct(Slots(h'.dq))
      && forall i, j | 0 <= i < |h'.free| && 0 <= j < |h'.dq| :: h'.free[i] != h'.dq[j].slot
  {
    var h' := ReclaimOne(h);
    assert Slots(h'.dq) == Slots(h.dq)[1..];
    assert forall i | 0 < i < |h.dq| :: Slots(h.dq)[0] != Slots(h.dq)[i];
  }

  lemma ReclaimOneKeepsValid(h: Hash)
    requires Valid(h) && CanReclaim(h)
    ensures Valid(ReclaimOne(h))
  {
    ReclaimOneKeepsQueues(h);
    var h' := ReclaimOne(h);
    assert forall p :: h'.Occupied(p) == h.Occupied(p);
    assert forall i | 0 <= i < |h'.dq| :: h'.dq[i] == h.dq[i + 1];
  }

  lemma {:induction false} ReclaimKeepsValid(h: Hash, n: nat)
    requires Valid(h)
    ensures Valid(Reclaim(h, n))
    ensures Reclaim(h, n).mapped == h.mapped && Reclaim(h, n).keyStore == h.keyStore
    decreases n
  {
    if n != 0 && CanReclaim(h) {
      ReclaimOneKeepsValid(h);
      ReclaimKeepsValid(ReclaimOne(h), n - 1);
    }
  }

  lemma InsertKeepsValid(h: Hash, k: Key)
    requires Valid(h) && h.free != [] && k !in h.mapped
    ensures Valid(Insert(h, k))
  {
    var h' := Insert(h, k);
    var p := h.free[0];
    assert forall i | 0 < i < |h.free| :: h.free[0] != h.free[i];
    forall q: nat | q != p && h'.Occupied(q) ensures h.Occupied(q) {
      assert h'.keyStore[q] == h.keyStore[q];
    }
    forall j | j in h.mapped ensures h.mapped[j] != p {
      assert h.Occupied(h.mapped[j]);
    }
  }

  lemma InsertFacts(h: Hash, k: Key)
    requires Valid(h) && h.free != [] && k !in h.mapped
    ensures var r, p := Insert(h, k), h.free[0];
      Valid(r) && p < |h.keyStore| == |r.keyStore| && r.Occupied(p) && !h.Occupied(p) && |r.mapped| == |h.mapped| + 1
  {
    InsertKeepsValid(h, k);
    assert h.free[0] in h.free;
  }

  /** What an add does to a valid table: nothing when it fails, one new pair when it succeeds. */
  lemma AddedKeyFacts(h: Hash, k: Key, batch: nat)
    requires Valid(h)
    ensures var Added(r, p) := AddedKey(h, k, batch);
      && Valid(r) && |r.keyStore| == |h.keyStore| && p < |r.keyStore|
      && (p < 0 ==> r == h && k !in h.mapped)
      && (p >= 0 ==> r.mapped == h.mapped[k := p] && r.keyStore[p] == k)
      && (p >= 0 && k !in h.mapped ==> !h.Occupied(p) && |r.mapped| == |h.mapped| + 1)
  {
    if k in h.mapped {
      assert h.mapped == h.mapped[k := h.mapped[k]];
    } else {
      var r := if h.free == [] then Reclaim(h, batch) else h;
      if h.free == [] {
        ReclaimKeepsValid(h, batch);
        ReclaimCount(h, batch);
      }
      if r.free != [] {
        InsertFacts(r, k);
      }
    }
  }

  /** Exactly when an add succeeds, and where a new key goes: to the slot freed longest ago, or,
      when none is free, to the slot deleted longest ago if both threads have passed it. */
  lemma AddSucceedsIff(h: Hash, k: Key, batch: nat)
    requires Valid(h) && batch > 0
    ensures AddedKey(h, k, batch).position >= 0
       <==> k in h.mapped || h.free != [] || (h.dq != [] && Acknowledged(h, h.dq[0].token))
    ensures k !in h.mapped && h.free != [] ==> AddedKey(h, k, batch).position == h.free[0]
    ensures k !in h.mapped && h.free == [] && h.dq != [] && Acknowledged(h, h.dq[0].token) ==>
      AddedKey(h, k, batch).position == h.dq[0].slot
  {
    AddedKeyFacts(h, k, batch);
    if h.free != [] { assert h.free[0] in h.free; }
    if h.free == [] && CanReclaim(h) {
      ReclaimOneKeepsValid(h);
      ReclaimGrowsFree(ReclaimOne(h), batch - 1);
      assert ReclaimOne(h).free == [h.dq[0].slot];
    }
  }

  /** Reclaiming appends to the free slots. */
  lemma {:induction false} ReclaimGrowsFree(h: Hash, n: nat)
    ensures h.free <= Reclaim(h, n).free && Reclaim(h, n).keyStore == h.keyStore
    decreases n
  {
    if n != 0 && CanReclaim(h) { ReclaimGrowsFree(ReclaimOne(h), n - 1); }
  }

  lemma ReportKeepsValid(h: Hash, a: Actor)
    requires Valid(h)
    ensures Valid(Quiescent(h, a)) && Valid(Offline(h, a))
  {
    SameSlotsValid(h, Quiescent(h, a));
    SameSlotsValid(h, Offline(h, a));
  }

  /** A report passes every token drawn so far, so what is still deferred waits for the other
      actor alone; offline, an actor delays no token, not even later ones. */
  lemma ReportsRelease(h: Hash, a: Actor, other: Actor)
    requires Valid(h) && other != a
    ensures forall i | 0 <= i < |h.dq| :: h.dq[i].token <= Quiescent(h, a).Cnt(a)
    ensures forall token :: TokenPassed(Offline(h, a), other, token) <==> Acknowledged(Offline(h, a), token)
    ensures CanReclaim(Quiescent(h, a)) <==> h.dq != [] && TokenPassed(h, other, h.dq[0].token)
    ensures CanReclaim(Offline(h, a)) <==> h.dq != [] && TokenPassed(h, other, h.dq[0].token)
    ensures CanReclaim(h) ==> CanReclaim(Quiescent(h, a)) && CanReclaim(Offline(h, a))
  {
  }

  /** With the other actor offline, one report frees every deferred slot for reclaim. */
  lemma LoneReportReleasesAll(h: Hash, a: Actor, other: Actor, n: nat)
    requires Valid(h) && other != a && h.Cnt(other) == 0 && n >= |h.dq|
    ensures Reclaim(Quiescent(h, a), n).dq == [] && Reclaim(Offline(h, a), n).dq == []
  {
    ReportKeepsValid(h, a);
    AllAcknowledged(Quiescent(h, a), n);
    AllAcknowledged(Offline(h, a), n);
  }

  lemma {:induction false} AllAcknowledged(h: Hash, n: nat)
    requires forall i | 0 <= i < |h.dq| :: Acknowledged(h, h.dq[i].token)
    requires n >= |h.dq|
    ensures Reclaim(h, n).dq == []
    decreases n
  {
    if h.dq != [] {
      AllAcknowledged(ReclaimOne(h), n - 1);
    }
  }

  lemma SameSlotsValid(h: Hash, r: Hash)
    requires Valid(h) && r == h.(dispatcherCnt := r.dispatcherCnt, maintenanceCnt := r.maintenanceCnt)
    requires r.dispatcherCnt <= h.token && r.maintenanceCnt <= h.token
    ensures Valid(r)
  {
    assert forall p :: r.Occupied(p) == h.Occupied(p);
  }

  /** The deferred queue never outgrows its configured size, which is the number of slots. */
  lemma DeferredQueueBounded(h: Hash)
    requires Valid(h)
    ensures |h.dq| <= |h.keyStore|
    ensures |h.dq| == |h.keyStore| <==> h.mapped == map[] && h.free == []
  {
    assert |h.mapped| == 0 <==> h.mapped == map[];
  }

  function Range(n: nat): (s: set<nat>)
    ensures |s| == n && forall i: nat :: i in s <==> i < n
  {
    if n == 0 then {} else Range(n - 1) + {n - 1}
  }

  function Elements(s: seq<nat>): (e: set<nat>)
    ensures forall x :: x in e <==> x in s
  {
    set x | x in s
  }

  lemma {:induction false} DistinctCard(s: seq<nat>)
    requires Distinct(s)
    ensures |Elements(s)| == |s|
  {
    if s == [] {
      assert Elements(s) == {};
    } else {
      var init, last := s[..|s| - 1], s[|s| - 1];
      DistinctCard(init);
      assert s == init + [last];
      assert Elements(s) == Elements(init) + {last};
      assert last !in init;
    }
  }

  ghost function Image(m: map<Key, nat>): (e: set<nat>)
    ensures forall k | k in m :: m[k] in e
    ensures forall p | p in e :: exists k :: k in m && m[k] == p
  {
    set k | k in m :: m[k]
  }

  lemma {:induction false} InjectiveCard(m: map<Key, nat>, n: nat)
    requires forall j, k | j in m && k in m && m[j] == m[k] :: j == k
    requires |m| == n
    ensures |Image(m)| == n
    decreases n
  {
    if m == map[] {
      assert Image(m) == {};
    } else {
      var k :| k in m;
      var rest := m - {k};
      CardMinusKey(m, k);
      InjectiveCard(rest, n - 1);
      forall p | p in Image(m) ensures p in Image(rest) + {m[k]} {
        var j :| j in m && m[j] == p;
        assert j == k || (j in rest && rest[j] == p);
      }
      forall p | p in Image(rest) ensures p in Image(m) && p != m[k] {
        var j :| j in rest && rest[j] == p;
        assert j in m && m[j] == p;
      }
      assert Image(m) == Image(rest) + {m[k]};
    }
  }

  lemma CoverByCount(a: set<nat>, b: set<nat>, c: set<nat>, all: set<nat>, p: nat)
    requires a !! b && a !! c && b !! c
    requires a <= all && b <= all && c <= all && |a| + |b| + |c| == |all|
    requires p in all
    ensures p in a || p in b || p in c
  {
    var used := a + b + c;
    assert |used| == |all|;
    if p !in used {
      assert all == (all - {p}) + {p};
      CardSubset(used, all - {p});
    }
  }

  /** Every slot is mapped, free or deferred (Valid already says: at most one of the three). */
  lemma PartitionCovers(h: Hash, p: nat)
    requires Valid(h) && p < |h.keyStore|
    ensures h.Occupied(p) || p in h.free || p in Slots(h.dq)
  {
    InjectiveCard(h.mapped, |h.mapped|);
    DistinctCard(h.free);
    DistinctCard(Slots(h.dq));
    forall q | q in Image(h.mapped)
      ensures h.Occupied(q) && q !in h.free && q !in Slots(h.dq)
    {
      var k :| k in h.mapped && h.mapped[k] == q;
    }
    assert Elements(h.free) !! Elements(Slots(h.dq));
    CoverByCount(Image(h.mapped), Elements(h.free), Elements(Slots(h.dq)), Range(|h.keyStore|), p);
  }

  lemma {:induction false} CardSubset(a: set<nat>, b: set<nat>)
    requires a <= b
    ensures |a| <= |b|
    decreases b
  {
    if b == {} {
    } else {
      var x :| x in b;
      CardSubset(a - {x}, b - {x});
    }
  }

  /** Actor a, online since before, may still use slot p as the slot of key k: the slot holds
      that key and is not free, and if the key is gone, the deletion came after a's last report. */
  ghost predicate Held(h: Hash, a: Actor, k: Key, p: nat) {
    && h.Cnt(a) > 0
    && p < |h.keyStore| && h.keyStore[p] == k && p !in h.free
    && (h.Occupied(p) || exists j :: 0 <= j < |h.dq| && h.dq[j].slot == p && h.dq[j].token > h.Cnt(a))
  }

  /** Grace period: what an online actor has looked up stays its own under every deletion,
      reclaim, insertion and report of the other actor. */
  lemma HeldSurvivesDel(h: Hash, a: Actor, k: Key, p: nat, gone: Key)
    requires Valid(h) && Held(h, a, k, p)
    ensures Held(Del(h, gone), a, k, p)
  {
    var h' := Del(h, gone);
    if gone in h.mapped {
      if h.Occupied(p) && k == gone {
        assert h'.dq[|h.dq|].slot == p && h'.dq[|h.dq|].token > h'.Cnt(a);
      } else if h.Occupied(p) {
      } else {
        var j :| 0 <= j < |h.dq| && h.dq[j].slot == p && h.dq[j].token > h.Cnt(a);
        assert h'.dq[j] == h.dq[j];
      }
    }
  }

  lemma HeldSurvivesReclaim(h: Hash, a: Actor, k: Key, p: nat)
    requires Valid(h) && Held(h, a, k, p) && CanReclaim(h)
    ensures Held(ReclaimOne(h), a, k, p)
  {
    var h' := ReclaimOne(h);
    if h.Occupied(p) {
      assert h'.Occupied(p);
    } else {
      var j :| 0 <= j < |h.dq| && h.dq[j].slot == p && h.dq[j].token > h.Cnt(a);
      assert h'.dq[j - 1] == h.dq[j];
      assert Slots(h.dq)[0] != Slots(h.dq)[j];
    }
  }

  lemma HeldSurvivesInsert(h: Hash, a: Actor, k: Key, p: nat, fresh_: Key)
    requires Valid(h) && Held(h, a, k, p) && h.free != [] && fresh_ !in h.mapped
    ensures Held(Insert(h, fresh_), a, k, p)
    ensures h.free[0] != p
  {
    var h' := Insert(h, fresh_);
    assert h.free[0] in h.free;
    if h.Occupied(p) {
      assert h'.Occupied(p);
    } else {
      var j :| 0 <= j < |h.dq| && h.dq[j].slot == p && h.dq[j].token > h.Cnt(a);
      assert h'.dq[j] == h.dq[j];
    }
  }

  lemma HeldSurvivesOther(h: Hash, a: Actor, k: Key, p: nat, other: Actor)
    requires Valid(h) && Held(h, a, k, p) && other != a
    ensures Held(Quiescent(h, other), a, k, p) && Held(Offline(h, other), a, k, p)
  {
    var q, o := Quiescent(h, other), Offline(h, other);
    if h.Occupied(p) {
      assert q.Occupied(p) && o.Occupied(p);
    } else {
      var j :| 0 <= j < |h.dq| && h.dq[j].slot == p && h.dq[j].token > h.Cnt(a);
      assert q.dq[j] == o.dq[j] == h.dq[j];
    }
  }
}
