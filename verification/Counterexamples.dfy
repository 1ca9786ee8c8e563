/** Runs from the start of the pipeline on which the program does not do what its documentation or
    its comments say. Each one ends in the state a theorem elsewhere names as the exception. */
module Counterexamples {
  import opened FlowTypes
  import opened HashTable
  import opened SlotSeqlock
  import opened FlowPipeline
  import opened PipelineTheorems
  import opened PipelineWitness
  import FlowTableSpec
  import DispatcherSpec
  import AgingScan
  import PressureSpec
  import Maintenance

  // ---------------------------------------------------------------- steps of the maintenance thread

  lemma MaintenanceComesOnline(s: State) returns (s': State)
    requires Reachable(s) && s.hash.maintenanceCnt == 0
    ensures Reachable(s') && s' == s.(hash := Quiescent(s.hash, MaintenanceActor))
  {
    s' := Next(s, GoOnline);
  }

  lemma MaintenanceReports(s: State) returns (s': State)
    requires Reachable(s) && s.hash.maintenanceCnt > 0
    ensures Reachable(s') && s' == s.(hash := Quiescent(s.hash, MaintenanceActor), held := [])
  {
    s' := Next(s, MaintenanceQuiescent);
  }

  lemma DispatcherPolls(s: State) returns (s': State)
    requires Reachable(s) && s.disp.pc.Idle?
    ensures Reachable(s') && s' == s.(hash := Quiescent(s.hash, DispatcherActor))
  {
    s' := Next(s, EmptyPoll);
  }

  lemma Retained(s: State, k: Key) returns (s': State)
    requires Reachable(s) && s.hash.maintenanceCnt > 0 && k in s.hash.mapped
    ensures Reachable(s') && s' == s.(held := s.held + [(k, s.hash.mapped[k])])
  {
    s' := Next(s, Observe(k));
  }

  /** The flush of retained entry i, whose slot was published. */
  lemma Flushed(s: State, i: nat) returns (s': State)
    requires Reachable(s) && i < |s.held| && s.held[i].1 < |s.side.hot| && s.side.hot[s.held[i].1].lastSeen != 0
    ensures Reachable(s') && s'.disp == s.disp && s'.side == s.side && s'.held == s.held
    ensures s.held[i].1 < |s.hash.keyStore| && s'.hash == Del(s.hash, s.hash.keyStore[s.held[i].1])
    ensures Enabled(s, DeleteHeld(i)) && s' == Do(s, DeleteHeld(i))
  {
    ReachableInv(s);
    RetainedKeyStaysValid(s, i);
    s' := Next(s, DeleteHeld(i));
  }

  // ---------------------------------------------------------------- two flows for one

  const A := SmallKey(1)
  const B := SmallKey(2)
  const C := SmallKey(3)
  const D := SmallKey(4)

  lemma TwoSlots()
    ensures Quiescent(EmptyHash(2), DispatcherActor) == Hash(map[], [ZERO_KEY, ZERO_KEY], [0, 1], [], 1, 1, 0)
  {
    assert EmptyHash(2).keyStore == [ZERO_KEY, ZERO_KEY] && EmptyHash(2).free == [0, 1];
  }

  /** Flows A and B fill a table of two slots. */
  lemma TwoFlows() returns (s: State)
    ensures Reachable(s) && s.disp.pc.Idle? && s.counters == Counters(2, 0, 0)
    ensures s.hash == Hash(map[A := 0, B := 1], [A, B], [], [], 1, 1, 0)
  {
    var s0 := Start(2);
    TwoSlots();
    var s1 := AddBurst(s0, 1, 10);
    assert s1.hash == Hash(map[A := 0], [A, ZERO_KEY], [1], [], 1, 1, 0);
    s := AddBurst(s1, 2, 10);
  }

  lemma BothEvicted(s: State) returns (s': State)
    requires Reachable(s) && s.disp.pc == Evicting(0) && s.hash == Hash(map[A := 0, B := 1], [A, B], [], [], 1, 1, 0)
    ensures Reachable(s') && s'.disp == s.disp.(pc := Evicting(2)) && SameShared(s, s')
    ensures s'.hash == Hash(map[], [A, B], [], [Deferred(0, 2), Deferred(1, 3)], 3, 1, 0)
  {
    var s1 := EvictSlot(s, 0);
    assert s1.hash == Hash(map[B := 1], [A, B], [], [Deferred(0, 2)], 2, 1, 0);
    s' := EvictSlot(s1, 1);
  }

  lemma BothReplaced(s: State) returns (s': State)
    requires Reachable(s) && s.disp.pc.Ready? && HasNext(s.disp) && s.disp.positions[s.disp.next] == -1
    requires s.disp.resolved == [] && NextKey(s.disp) == C && s.counters == Counters(2, 0, 0)
    requires s.hash == Hash(map[A := 0, B := 1], [A, B], [], [], 1, 1, 0)
    ensures Reachable(s') && s'.disp == s.disp.(pc := Retry, replaced := true) && s'.counters == Counters(2, 1, 1)
    ensures s'.hash == Hash(map[], [A, B], [0], [Deferred(1, 3)], 3, 3, 0)
  {
    var s1 := AddRefused(s);
    var s2 := BothEvicted(s1);
    var s3 := EndEviction(s2);
    s' := Reclaimed(s3);
  }

  /** A replacement that removes two flows and counts one: at the end of the burst one flow is
      mapped, one deletion is counted and three flows were created. */
  lemma ReplacementLosesAFlow() returns (s: State)
    ensures Reachable(s) && s.disp.pc.Idle? && s.counters == Counters(3, 1, 1) && |s.hash.mapped| == 1
  {
    var s0 := TwoFlows();
    var s1 := OnePacket(s0, 3, 20);
    var s2 := BothReplaced(s1);
    var s3 := AddNext(s2);
    assert s3.hash.mapped == map[C := 0];
    s := DropBuffers(s3);
  }

  // ---------------------------------------------------------------- a flow deleted while it is published

  /** The only flow, A, is deleted by an aging pass. */
  lemma OnlyFlowDeleted() returns (s: State)
    ensures Reachable(s) && s.disp.pc.Idle? && |s.side.hot| == 1 && s.side.hot[0].lastSeen == 1
    ensures s.hash == Hash(map[], [A], [], [Deferred(0, 2)], 2, 1, 1)
  {
    var s0 := FirstBurst();
    var s1 := MaintenanceComesOnline(s0);
    var s2 := Retained(s1, A);
    s := Flushed(s2, 0);
  }

  /** A slot whose flow was published and deleted, and is free again. */
  lemma UsedSlotIsFree() returns (s: State)
    ensures Reachable(s) && s.disp.pc.Idle? && s.held == [] && |s.side.hot| == 1 && s.side.hot[0].lastSeen == 1
    ensures s.hash == Hash(map[], [A], [0], [], 2, 2, 2)
  {
    var s0 := OnlyFlowDeleted();
    var s1 := MaintenanceReports(s0);
    var s2 := DispatcherPolls(s1);
    s := Reclaimed(s2);
  }

  /** The guard on last_seen does not protect a reused slot: while the dispatcher has not stored
      anything for the new flow B yet, the slot still shows the last_seen of flow A, so that an
      aging pass may retain and delete B, which is then gone before it is published. */
  lemma DeletedBeforePublished() returns (s: State, s': State)
    ensures Reachable(s) && s.disp.pc.Publishing? && HasNext(s.disp) && NextKey(s.disp) == B && B in s.hash.mapped
    ensures |s.side.hot| == 1 && s.side.hot[0].lastSeen == 1
    ensures forall now, timeout | now > 1 + timeout :: FlowTableSpec.Expirable(s.side.hot, 0, now, timeout)
    ensures Enabled(s, Observe(B)) && |Do(s, Observe(B)).held| == 1
    ensures Enabled(Do(s, Observe(B)), DeleteHeld(0)) && s' == Do(Do(s, Observe(B)), DeleteHeld(0))
    ensures Reachable(s') && s'.disp.pc.Publishing? && s'.hash.mapped == map[]
  {
    var s0 := UsedSlotIsFree();
    var s1 := OnePacket(s0, 2, 1000);
    s := AddBegins(s1);
    assert s.hash == Hash(map[B := 0], [B], [], [], 2, 2, 2);
    var s2 := Retained(s, B);
    assert s2 == Do(s, Observe(B));
    s' := Flushed(s2, 0);
    assert s.hash.mapped - {B} == map[];
  }

  // ---------------------------------------------------------------- a flush of a flow that has moved

  lemma ThreeSlots()
    ensures Quiescent(EmptyHash(3), DispatcherActor)
         == Hash(map[], [ZERO_KEY, ZERO_KEY, ZERO_KEY], [0, 1, 2], [], 1, 1, 0)
  {
    assert EmptyHash(3).keyStore == [ZERO_KEY, ZERO_KEY, ZERO_KEY] && EmptyHash(3).free == [0, 1, 2];
  }

  /** Flows A, B and C fill a table of three slots. */
  lemma ThreeFlows() returns (s: State)
    ensures Reachable(s) && s.disp.pc.Idle? && s.held == [] && |s.side.hot| == 3
    ensures forall p | 0 <= p < 3 :: s.side.hot[p].lastSeen == 10
    ensures s.hash == Hash(map[A := 0, B := 1, C := 2], [A, B, C], [], [], 1, 1, 0)
  {
    var s0 := Start(3);
    ThreeSlots();
    var s1 := AddBurst(s0, 1, 10);
    assert s1.hash == Hash(map[A := 0], [A, ZERO_KEY, ZERO_KEY], [1, 2], [], 1, 1, 0);
    var s2 := AddBurst(s1, 2, 10);
    assert s2.hash == Hash(map[A := 0, B := 1], [A, B, ZERO_KEY], [2], [], 1, 1, 0);
    s := AddBurst(s2, 3, 10);
  }

  /** The maintenance thread retains A and B. */
  lemma TwoRetained(s: State) returns (s': State)
    requires Reachable(s) && s.held == [] && s.hash == Hash(map[A := 0, B := 1, C := 2], [A, B, C], [], [], 1, 1, 0)
    ensures Reachable(s') && s'.disp == s.disp && s'.side == s.side && s'.held == [(A, 0), (B, 1)]
    ensures s'.hash == Hash(map[A := 0, B := 1, C := 2], [A, B, C], [], [], 1, 1, 1)
  {
    var s1 := MaintenanceComesOnline(s);
    var s2 := Retained(s1, A);
    s' := Retained(s2, B);
  }

  lemma DelFirstTwo(h: Hash)
    requires h == Hash(map[A := 0, B := 1, C := 2], [A, B, C], [], [], 1, 1, 1)
    ensures Del(h, A) == Hash(map[B := 1, C := 2], [A, B, C], [], [Deferred(0, 2)], 2, 1, 1)
    ensures Del(Del(h, A), B) == Hash(map[C := 2], [A, B, C], [], [Deferred(0, 2), Deferred(1, 3)], 3, 1, 1)
  {
    assert h.mapped - {A} == map[B := 1, C := 2] && map[B := 1, C := 2] - {B} == map[C := 2];
  }

  lemma TwoFlushed(s: State) returns (s': State)
    requires Reachable(s) && s.held == [(A, 0), (B, 1)] && |s.side.hot| == 3
    requires forall p | 0 <= p < 3 :: s.side.hot[p].lastSeen == 10
    requires s.hash == Hash(map[A := 0, B := 1, C := 2], [A, B, C], [], [], 1, 1, 1)
    ensures Reachable(s') && s'.disp == s.disp && s'.side == s.side
    ensures s'.hash == Hash(map[C := 2], [A, B, C], [], [Deferred(0, 2), Deferred(1, 3)], 3, 1, 1)
  {
    DelFirstTwo(s.hash);
    var s1 := Flushed(s, 0);
    s' := Flushed(s1, 1);
  }

  /** The maintenance thread deletes A and B and reports; the dispatcher has not reported since. */
  lemma TwoDeleted(s: State) returns (s': State)
    requires Reachable(s) && s.held == [] && |s.side.hot| == 3 && forall p | 0 <= p < 3 :: s.side.hot[p].lastSeen == 10
    requires s.hash == Hash(map[A := 0, B := 1, C := 2], [A, B, C], [], [], 1, 1, 0)
    ensures Reachable(s') && s'.disp == s.disp && s'.side == s.side && s'.held == []
    ensures s'.hash == Hash(map[C := 2], [A, B, C], [], [Deferred(0, 2), Deferred(1, 3)], 3, 1, 3)
  {
    var s1 := TwoRetained(s);
    var s2 := TwoFlushed(s1);
    s' := MaintenanceReports(s2);
  }

  /** In this state no add succeeds: both deferred slots await the dispatcher's report. */
  lemma NoSlotToHave(h: Hash, batch: nat)
    requires h == Hash(map[C := 2], [A, B, C], [], [Deferred(0, 2), Deferred(1, 3)], 3, 1, 3)
    ensures AddedKey(h, D, batch).position < 0
  {
    assert !CanReclaim(h);
  }

  /** A packet of flow D finds no slot, while the maintenance thread retains C. */
  lemma DArrives(s: State) returns (s': State)
    requires Reachable(s) && s.disp.pc.Idle? && s.held == []
    requires s.hash == Hash(map[C := 2], [A, B, C], [], [Deferred(0, 2), Deferred(1, 3)], 3, 1, 3)
    ensures Reachable(s') && s'.disp.pc == Evicting(0) && HasNext(s'.disp) && s'.disp.next == 0 && |s'.disp.burst| == 1
    ensures s'.disp.positions == [-1] && NextKey(s'.disp) == D && s'.disp.resolved == [] && s'.disp.tsc == 900
    ensures s'.side == s.side && s'.held == [(C, 2)] && s'.hash == s.hash
    ensures forall batch :: AddedKey(s'.hash, D, batch).position < 0
  {
    var s1 := OnePacket(s, 4, 900);
    forall batch ensures AddedKey(s.hash, D, batch).position < 0 { NoSlotToHave(s.hash, batch); }
    var s2 := Retained(s1, C);
    s' := AddRefused(s2);
  }

  /** Flow D replaces C and will get the slot A had. */
  lemma CReplacedByD(s: State) returns (s': State)
    requires Reachable(s) && s.disp.pc == Evicting(0)
    requires s.hash == Hash(map[C := 2], [A, B, C], [], [Deferred(0, 2), Deferred(1, 3)], 3, 1, 3)
    ensures Reachable(s') && s'.disp == s.disp.(pc := Retry, replaced := true) && s'.side == s.side && s'.held == s.held
    ensures s'.hash == Hash(map[], [A, B, C], [0, 1], [Deferred(2, 4)], 4, 4, 3)
  {
    var s1 := EvictSlot(s, 2);
    assert s1.hash == Hash(map[], [A, B, C], [], [Deferred(0, 2), Deferred(1, 3), Deferred(2, 4)], 4, 1, 3);
    s' := TwoReclaimed(s1);
  }

  lemma TwoReclaimed(s: State) returns (s': State)
    requires Reachable(s) && s.disp.pc == Evicting(1)
    requires s.hash == Hash(map[], [A, B, C], [], [Deferred(0, 2), Deferred(1, 3), Deferred(2, 4)], 4, 1, 3)
    ensures Reachable(s') && s'.disp == s.disp.(pc := Retry, replaced := true) && s'.side == s.side && s'.held == s.held
    ensures s'.hash == Hash(map[], [A, B, C], [0, 1], [Deferred(2, 4)], 4, 4, 3)
  {
    var s1 := EndEviction(s);
    var s2 := Reclaimed(s1);
    assert s2.hash == Hash(map[], [A, B, C], [0], [Deferred(1, 3), Deferred(2, 4)], 4, 4, 3);
    s' := Reclaimed(s2);
  }

  /** C comes back and gets the slot B had. */
  lemma CComesBack(s: State) returns (s': State)
    requires Reachable(s) && s.disp.pc.Retry? && HasNext(s.disp) && s.disp.next == 0 && |s.disp.burst| == 1
    requires s.disp.positions == [-1] && NextKey(s.disp) == D && s.disp.resolved == [] && s.held == [(C, 2)]
    requires |s.side.hot| == 3 && s.hash == Hash(map[], [A, B, C], [0, 1], [Deferred(2, 4)], 4, 4, 3)
    ensures Reachable(s') && s'.held == s.held && |s'.side.hot| == 3
    ensures s'.hash == Hash(map[D := 0, C := 1], [D, C, C], [], [Deferred(2, 4)], 4, 4, 3)
    ensures s'.side.hot[2] == s.side.hot[2] && s'.side.hot[1].lastSeen == 1000
  {
    var s1 := AddNext(s);
    assert s1.hash == Hash(map[D := 0], [D, B, C], [1], [Deferred(2, 4)], 4, 4, 3);
    var s2 := DropBuffers(s1);
    s' := AddBurst(s2, 3, 1000);
  }

  /** The other case of FlushHitsExaminedFlowIff is reached: C was retained in slot 2 as expired;
      since then it was replaced and has come back in slot 1, where it was seen just now. The
      flush of the retained entry deletes it. */
  lemma FlushOfMovedFlow() returns (s: State, s': State)
    ensures Reachable(s) && s.held == [(C, 2)] && Held(s.hash, MaintenanceActor, C, 2)
    ensures C in s.hash.mapped && s.hash.mapped[C] == 1 && |s.side.hot| == 3
    ensures FlowTableSpec.Expirable(s.side.hot, 2, 1000, 500) && !FlowTableSpec.Expirable(s.side.hot, 1, 1000, 500)
    ensures Enabled(s, DeleteHeld(0)) && s' == Do(s, DeleteHeld(0)) && s'.hash.mapped == map[D := 0]
    ensures s'.hash == FlowTableSpec.FlushOne(s.hash, s.side.hot, 2, C, 1000, 500)
  {
    var s0 := ThreeFlows();
    var s1 := TwoDeleted(s0);
    var s2 := DArrives(s1);
    var s3 := CReplacedByD(s2);
    s := CComesBack(s3);
    s' := Flushed(s, 0);
    assert s.hash.dq[0].slot == 2 && s.hash.dq[0].token > s.hash.Cnt(MaintenanceActor);
    assert s.hash.mapped - {C} == map[D := 0];
  }

  // ---------------------------------------------------------------- a flush of a flow that was touched

  /** Aging has retained the only flow, A, which is idle past the timeout. */
  lemma AIsRetained() returns (s: State)
    ensures Reachable(s) && s.disp.pc.Idle? && s.held == [(A, 0)] && |s.side.hot| == 1
    ensures s.hash == Hash(map[A := 0], [A], [], [], 1, 1, 1)
    ensures FlowTableSpec.Expirable(s.side.hot, 0, 900, 500)
  {
    var s0 := FirstBurst();
    var s1 := MaintenanceComesOnline(s0);
    s := Retained(s1, A);
  }

  /** A packet of A arrives and touches its slot. */
  lemma ATouched(s: State) returns (s': State)
    requires Reachable(s) && s.disp.pc.Idle? && s.held == [(A, 0)] && |s.side.hot| == 1
    requires s.hash == Hash(map[A := 0], [A], [], [], 1, 1, 1)
    ensures Reachable(s') && s'.hash == s.hash && s'.held == s.held && |s'.side.hot| == 1
    ensures s'.side.hot[0].lastSeen == 1000
  {
    var s1 := OnePacket(s, 1, 1000);
    HitIsNext(s1);
    s' := Next(s1, UseHit);
  }

  /** The exception of FlushIsCurrentIff is reached: at its second look A is idle past the timeout,
      then a packet touches A, which still has its slot, and the deletion removes it. */
  lemma FlushOfTouchedFlow() returns (looked: State, s: State, s': State)
    ensures Reachable(looked) && looked.held == s.held == [(A, 0)]
    ensures FlowTableSpec.Expirable(looked.side.hot, 0, 900, 500)
    ensures Reachable(s) && s.hash == looked.hash && s.hash.mapped == map[A := 0]
    ensures !FlowTableSpec.Expirable(s.side.hot, 0, 900, 500)
    ensures Enabled(s, DeleteHeld(0)) && s' == Do(s, DeleteHeld(0)) && s'.hash.mapped == map[]
    ensures s'.hash == FlowTableSpec.FlushOne(s.hash, looked.side.hot, 0, A, 900, 500)
    ensures FlowTableSpec.FlushOne(s.hash, s.side.hot, 0, A, 900, 500) == s.hash
  {
    looked := AIsRetained();
    s := ATouched(looked);
    s' := Flushed(s, 0);
    assert s.hash.mapped - {A} == map[];
  }

  // ---------------------------------------------------------------- pressure below its target

  lemma FourSlots()
    ensures Quiescent(EmptyHash(4), DispatcherActor)
         == Hash(map[], [ZERO_KEY, ZERO_KEY, ZERO_KEY, ZERO_KEY], [0, 1, 2, 3], [], 1, 1, 0)
  {
    var h := EmptyHash(4);
    assert h.keyStore == [ZERO_KEY, ZERO_KEY, ZERO_KEY, ZERO_KEY] && h.free == [0, 1, 2, 3];
  }

  lemma OldAndFresh() returns (s: State)
    ensures Reachable(s) && s.disp.pc.Idle? && |s.side.hot| == 4
    ensures s.side.hot[0].lastSeen == 1 && s.side.hot[1].lastSeen == 100
    ensures s.hash == Hash(map[A := 0, B := 1], [A, B, ZERO_KEY, ZERO_KEY], [2, 3], [], 1, 1, 0)
  {
    var s0 := Start(4);
    FourSlots();
    var s1 := AddBurst(s0, 1, 1);
    assert s1.hash == Hash(map[A := 0], [A, ZERO_KEY, ZERO_KEY, ZERO_KEY], [1, 2, 3], [], 1, 1, 0);
    s := AddBurst(s1, 2, 100);
  }

  /** Four flows fill a table of four slots; A has been idle for long. */
  lemma FourFlows() returns (s: State)
    ensures Reachable(s) && |s.side.hot| == 4 && s.side.hot[0].lastSeen == 1 && s.side.hot[1].lastSeen == 100
    ensures s.hash == Hash(map[A := 0, B := 1, C := 2, D := 3], [A, B, C, D], [], [], 1, 1, 0)
  {
    var s1 := OldAndFresh();
    var s2 := AddBurst(s1, 3, 100);
    assert s2.hash == Hash(map[A := 0, B := 1, C := 2], [A, B, C, ZERO_KEY], [3], [], 1, 1, 0);
    s := AddBurst(s2, 4, 100);
  }

  /** A tick of the maintenance thread that finds this table. */
  function TickOn(h: Hash, hot: seq<Hot>): Maintenance.Inputs {
    Maintenance.Inputs(h, [], hot, 0, 0, 110, 110, 50, 1, {})
  }

  lemma FirstVisited(occ: seq<bool>, p: nat, budget: nat)
    requires p < |occ| && occ[p] && (forall q | 0 <= q < p :: !occ[q]) && budget > 0
    ensures AgingScan.Scan(occ, 0, budget).0 == [p] + AgingScan.Scan(occ, p + 1, budget - 1).0
  {
    NextIs(occ, 0, p);
  }

  lemma {:induction false} NextIs(occ: seq<bool>, c: nat, p: nat)
    requires c <= p < |occ| && occ[p] && forall q | c <= q < p :: !occ[q]
    ensures AgingScan.NextOccupied(occ, c) == p
    decreases p - c
  {
    if c < p { NextIs(occ, c + 1, p); }
  }

  /** Aging deletes A, so that three flows are left, which is the target; A's slot still counts. */
  lemma ADeletedByAging(t: Maintenance.Inputs)
    requires t == TickOn(t.h, t.hot) && |t.hot| == 4 && t.hot[0].lastSeen == 1
    requires t.h == Hash(map[A := 0, B := 1, C := 2, D := 3], [A, B, C, D], [], [], 1, 1, 0)
    ensures Maintenance.Aged(t) == Hash(map[B := 1, C := 2, D := 3], [A, B, C, D], [], [Deferred(0, 2)], 2, 1, 1)
  {
    var online := Maintenance.Online(t);
    assert online == t.h.(maintenanceCnt := 1) && online.Occupied(0);
    FirstVisited(FlowTableSpec.Occupancy(online), 0, 1);
    assert Maintenance.AgedSlots(t) == [0];
    assert [0][..0] == [];
    assert FlowTableSpec.AgeAll(online, t.hot, [0], 110, 50) == FlowTableSpec.FlushOne(online, t.hot, 0, A, 110, 50);
    assert t.h.mapped - {A} == map[B := 1, C := 2, D := 3];
  }

  lemma {:induction false} CountsVisited(hot: seq<Hot>, visited: seq<nat>, l: PressureSpec.Limits, p: nat)
    requires p in visited && PressureSpec.EvictableAt(hot, p, l)
    ensures PressureSpec.EvictableCount(hot, visited, l) > 0
    decreases |visited|
  {
    var n := |visited| - 1;
    if p != visited[n] {
      assert p in visited[..n] by { assert visited == visited[..n] + [visited[n]]; }
      CountsVisited(hot, visited[..n], l, p);
    }
  }

  /** In a state the pipeline reaches, one tick takes the mapped flows from the target to below
      it: aging leaves exactly as many flows as the target asks for, and the pressure pass of the
      same tick evicts one of them on account of the slot that aging has just vacated. */
  lemma PressureBelowTarget() returns (s: State, t: Maintenance.Inputs)
    ensures Reachable(s) && t == TickOn(s.hash, s.side.hot) && Maintenance.InputsValid(t)
    ensures Maintenance.ModeOf(t) == FlowTableSpec.Critical
    ensures |Maintenance.Aged(t).mapped| == FlowTableSpec.Percent(|t.hot|, FlowTableSpec.TARGET_PCT)
    ensures |Maintenance.Pressed(t).hash.mapped| < FlowTableSpec.Percent(|t.hot|, FlowTableSpec.TARGET_PCT)
  {
    s := FourFlows();
    t := TickOn(s.hash, s.side.hot);
    assert HashTable.Valid(s.hash) by { ReachableInv(s); }
    ADeletedByAging(t);
    ModeIsCritical(t);
    OneIsEvictable(t);
    Maintenance.PressureTargetIff(t);
  }

  predicate OnlyADeleted(t: Maintenance.Inputs) {
    && t == TickOn(t.h, t.hot) && |t.hot| == 4 && |t.h.keyStore| == 4
    && Maintenance.Aged(t) == Hash(map[B := 1, C := 2, D := 3], [A, B, C, D], [], [Deferred(0, 2)], 2, 1, 1)
  }

  lemma ModeIsCritical(t: Maintenance.Inputs)
    requires OnlyADeleted(t)
    ensures |Maintenance.Aged(t).mapped| == 3 && Maintenance.ModeOf(t) == FlowTableSpec.Critical
  {
    assert Maintenance.CountOf(Maintenance.Aged(t)) == 4;
  }

  lemma BIsVisited(t: Maintenance.Inputs)
    requires OnlyADeleted(t) && Maintenance.ModeOf(t) == FlowTableSpec.Critical
    ensures 1 in Maintenance.PressedSlots(t)
  {
    var h := Maintenance.Aged(t);
    assert h.Occupied(1) && !h.Occupied(0);
    FirstVisited(FlowTableSpec.Occupancy(h), 1, 4);
    assert FlowTableSpec.PressureScanBudget(FlowTableSpec.Critical, 4) == 4;
    assert Maintenance.PressedSlots(t)[0] == 1;
  }

  lemma OneIsEvictable(t: Maintenance.Inputs)
    requires OnlyADeleted(t) && t.hot[1].lastSeen == 100 && Maintenance.ModeOf(t) == FlowTableSpec.Critical
    ensures PressureSpec.EvictableCount(t.hot, Maintenance.PressedSlots(t), Maintenance.PassLimits(t)) > 0
  {
    BIsVisited(t);
    CountsVisited(t.hot, Maintenance.PressedSlots(t), Maintenance.PassLimits(t), 1);
  }
}
