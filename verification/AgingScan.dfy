/** The bounded, resumable scan behind flow_table_aging_tick and
    flow_table_pressure_maintenance (src/flow_table.c): a cursor that visits occupied slots in
    order and restarts after the end. */
module AgingScan {
  import opened FlowTypes

  /** The first occupied slot at or after `from`, |occ| when there is none. */
  function NextOccupied(occ: seq<bool>, from: nat): (p: nat)
    requires from <= |occ|
    ensures from <= p <= |occ|
    ensures p < |occ| ==> occ[p]
    ensures forall q | from <= q < p :: !occ[q]
    decreases |occ| - from
  {
    if from == |occ| || occ[from] then from else NextOccupied(occ, from + 1)
  }

  /** The slots one tick visits and the cursor it leaves: the scan stops when the budget is
      spent, or at the end of the table, where the cursor returns to 0. */
  function Scan(occ: seq<bool>, cursor: nat, budget: nat): (r: (seq<nat>, nat))
    requires cursor <= |occ|
    ensures r.1 <= |occ| && |r.0| <= budget
    decreases budget
  {
    if budget == 0 then ([], cursor)
    else
      var p := NextOccupied(occ, cursor);
      if p == |occ| then ([], 0)
      else
        var rest := Scan(occ, p + 1, budget - 1);
        ([p] + rest.0, rest.1)
  }

  function ScanBudget(storageEntries: nat): (b: nat)
    ensures b >= 1 && storageEntries <= AGING_NUM_CHUNKS * b
    ensures b > 1 ==> AGING_NUM_CHUNKS * (b - 1) < storageEntries
  {
    var b := (storageEntries + AGING_NUM_CHUNKS - 1) / AGING_NUM_CHUNKS;
    if b == 0 then 1 else b
  }

  ghost predicate Visits(occ: seq<bool>, cursor: nat, v: seq<nat>) {
    && (forall i | 0 <= i < |v| :: cursor <= v[i] < |occ| && occ[v[i]])
    && (forall i, j | 0 <= i < j < |v| :: v[i] < v[j])
  }

  /** A tick visits occupied slots only, each once, in increasing order. */
  lemma {:induction false} ScanVisitsOccupied(occ: seq<bool>, cursor: nat, budget: nat)
    requires cursor <= |occ|
    ensures Visits(occ, cursor, Scan(occ, cursor, budget).0)
    decreases budget
  {
    if budget != 0 {
      var p := NextOccupied(occ, cursor);
      if p < |occ| {
        ScanVisitsOccupied(occ, p + 1, budget - 1);
        var v, w := Scan(occ, cursor, budget).0, Scan(occ, p + 1, budget - 1).0;
        assert v == [p] + w && Visits(occ, p + 1, w);
      }
    }
  }

  /** What a tick that leaves occupied slot p unvisited tells about the cursor. */
  lemma {:induction false} MissedSlot(occ: seq<bool>, cursor: nat, budget: nat, p: nat)
    requires cursor <= |occ| && p < |occ| && occ[p] && p !in Scan(occ, cursor, budget).0
    ensures cursor <= p ==> cursor + budget <= Scan(occ, cursor, budget).1 <= p
    ensures cursor > p ==> Scan(occ, cursor, budget).1 == 0 || cursor + budget <= Scan(occ, cursor, budget).1
    decreases budget
  {
    if budget != 0 {
      var q := NextOccupied(occ, cursor);
      if q < |occ| {
        assert Scan(occ, cursor, budget).0[0] == q;
        forall x | x in Scan(occ, q + 1, budget - 1).0 ensures x in Scan(occ, cursor, budget).0 {
          assert Scan(occ, cursor, budget).0 == [q] + Scan(occ, q + 1, budget - 1).0;
        }
        MissedSlot(occ, q + 1, budget - 1, p);
      }
    }
  }

  /** Occupancy of the table at each tick; flows come and go between ticks. */
  ghost predicate SlotStays(ticks: seq<seq<bool>>, n: nat, p: nat) {
    p < n && forall t | 0 <= t < |ticks| :: |ticks[t]| == n && ticks[t][p]
  }

  /** The cursor before tick t. */
  function CursorAt(ticks: seq<seq<bool>>, n: nat, start: nat, budget: nat, t: nat): (c: nat)
    requires t <= |ticks| && start <= n && forall i | 0 <= i < |ticks| :: |ticks[i]| == n
    ensures c <= n
    decreases t
  {
    if t == 0 then start else Scan(ticks[t - 1], CursorAt(ticks, n, start, budget, t - 1), budget).1
  }

  function VisitedAt(ticks: seq<seq<bool>>, n: nat, start: nat, budget: nat, t: nat): seq<nat>
    requires t < |ticks| && start <= n && forall i | 0 <= i < |ticks| :: |ticks[i]| == n
  {
    Scan(ticks[t], CursorAt(ticks, n, start, budget, t), budget).0
  }

  /** k budgets, added up one by one. */
  function Budgets(k: nat, budget: nat): nat {
    if k == 0 then 0 else Budgets(k - 1, budget) + budget
  }

  lemma {:induction false} BudgetsMultiply(k: nat, budget: nat)
    ensures Budgets(k, budget) == k * budget
  {
    if k > 0 {
      BudgetsMultiply(k - 1, budget);
      assert k * budget == (k - 1) * budget + budget;
    }
  }

  /** While slot p stays mapped and unvisited with the cursor at or before it, every tick
      advances the cursor by a full budget. */
  lemma {:induction false} AdvanceToSlot(ticks: seq<seq<bool>>, n: nat, start: nat, budget: nat, p: nat, from: nat,
                                         t: nat)
    requires SlotStays(ticks, n, p) && start <= n && from <= t <= |ticks|
    requires CursorAt(ticks, n, start, budget, from) <= p
    requires forall i | from <= i < t :: p !in VisitedAt(ticks, n, start, budget, i)
    ensures Budgets(t - from, budget) <= CursorAt(ticks, n, start, budget, t) <= p
    decreases t
  {
    if t > from {
      AdvanceToSlot(ticks, n, start, budget, p, from, t - 1);
      assert p !in VisitedAt(ticks, n, start, budget, t - 1);
      MissedSlot(ticks[t - 1], CursorAt(ticks, n, start, budget, t - 1), budget, p);
    }
  }

  /** While the cursor is past p and has not restarted, every tick advances it by a full budget. */
  lemma {:induction false} AdvanceToEnd(ticks: seq<seq<bool>>, n: nat, start: nat, budget: nat, p: nat, t: nat)
    requires SlotStays(ticks, n, p) && p < start <= n && t <= |ticks|
    requires forall i | 0 <= i < t :: p !in VisitedAt(ticks, n, start, budget, i)
    requires forall i | 0 <= i <= t :: CursorAt(ticks, n, start, budget, i) > p
    ensures start + Budgets(t, budget) <= CursorAt(ticks, n, start, budget, t)
    decreases t
  {
    if t > 0 {
      AdvanceToEnd(ticks, n, start, budget, p, t - 1);
      assert CursorAt(ticks, n, start, budget, t - 1) > p && CursorAt(ticks, n, start, budget, t) > p;
      assert p !in VisitedAt(ticks, n, start, budget, t - 1);
      MissedSlot(ticks[t - 1], CursorAt(ticks, n, start, budget, t - 1), budget, p);
    }
  }

  lemma VisitedFrom(ticks: seq<seq<bool>>, n: nat, storageEntries: nat, start: nat, p: nat, from: nat)
    requires SlotStays(ticks, n, p) && n <= storageEntries && start <= n
    requires from + AGING_NUM_CHUNKS <= |ticks|
    requires CursorAt(ticks, n, start, ScanBudget(storageEntries), from) <= p
    ensures exists t ::
      from <= t < from + AGING_NUM_CHUNKS && p in VisitedAt(ticks, n, start, ScanBudget(storageEntries), t)
  {
    var b := ScanBudget(storageEntries);
    if forall t | from <= t < from + AGING_NUM_CHUNKS :: p !in VisitedAt(ticks, n, start, b, t) {
      AdvanceToSlot(ticks, n, start, b, p, from, from + AGING_NUM_CHUNKS);
      BudgetsMultiply(AGING_NUM_CHUNKS, b);
      assert false;
    }
  }

  /** Bounded coverage: from any cursor position, a slot that stays mapped is visited within two
      passes of AGING_NUM_CHUNKS ticks, whatever else is added or deleted meanwhile. */
  lemma CoverageInTwoPasses(ticks: seq<seq<bool>>, n: nat, storageEntries: nat, start: nat, p: nat)
    requires SlotStays(ticks, n, p) && n <= storageEntries && start <= n
    requires |ticks| >= 2 * AGING_NUM_CHUNKS
    ensures exists t :: 0 <= t < 2 * AGING_NUM_CHUNKS && p in VisitedAt(ticks, n, start, ScanBudget(storageEntries), t)
  {
    var b := ScanBudget(storageEntries);
    if t :| 0 <= t <= AGING_NUM_CHUNKS && CursorAt(ticks, n, start, b, t) <= p {
      VisitedFrom(ticks, n, storageEntries, start, p, t);
    } else if forall t | 0 <= t < AGING_NUM_CHUNKS :: p !in VisitedAt(ticks, n, start, b, t) {
      assert start == CursorAt(ticks, n, start, b, 0);
      AdvanceToEnd(ticks, n, start, b, p, AGING_NUM_CHUNKS);
      BudgetsMultiply(AGING_NUM_CHUNKS, b);
      assert false;
    }
  }
}
