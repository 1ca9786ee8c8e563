/** What the pipeline guarantees over whole runs, for every interleaving of its threads. */
module PipelineTheorems {
  import opened FlowTypes
  import opened Generation
  import opened FlowPacket
  import opened RuleEngine
  import opened HashTable
  import opened SlotSeqlock
  import opened FlowPipeline
  import opened PipelineInvariant
  import opened PipelineDispatch

  /** The state after a schedule, None when some step was not enabled. */
  ghost function Run(s: State, steps: seq<Step>): Option<State>
    decreases steps
  {
    if steps == [] then Some(s)
    else if !Enabled(s, steps[0]) then None
    else Run(Do(s, steps[0]), steps[1..])
  }

  /** The invariant holds along every run. */
  lemma {:induction false} RunKeepsInv(s: State, steps: seq<Step>)
    requires Inv(s) && Run(s, steps).Some?
    ensures Inv(Run(s, steps).value)
    decreases steps
  {
    if steps == [] {
    } else {
      StepKeepsInv(s, steps[0]);
      RunKeepsInv(Do(s, steps[0]), steps[1..]);
    }
  }

  // ---------------------------------------------------------------- whose slot a stamp names

  /** The stamp was taken from a publication of this very key. */
  ghost predicate Honest(side: Side, t: Stamp, k: Key) {
    StampInv(side, t) && Source(side, t).key == k
  }

  ghost predicate HonestEntry(side: Side, d: Disp, r: Resolved) {
    r.index < |d.burst| && Honest(side, r.stamp, d.burst[r.index].key)
  }

  ghost predicate HonestStamps(side: Side, packets: seq<Packet>, d: Disp) {
    && (forall i | 0 <= i < |packets| :: Honest(side, packets[i].stamp, packets[i].input.key))
    && (forall r | 0 <= r < |d.resolved| :: HonestEntry(side, d, d.resolved[r]))
  }

  ghost predicate AllHonest(s: State) {
    HonestStamps(s.side, s.packets, s.disp)
  }

  /** The guard the dispatcher lacks: a lookup hit on a slot that is already in
      resolved_positions, although the packet's key is not. */
  ghost predicate ReusedHit(s: State, step: Step) {
    step.UseHit? && HasNext(s.disp) && s.disp.positions[s.disp.next] >= 0
    && InResolved(s.disp, s.disp.positions[s.disp.next])
  }

  /** Exact condition: a lookup hit stamps the packet with its own flow if and only if the slot
      is not yet in resolved_positions. */
  lemma HitIsHonestIff(s: State)
    requires Inv(s) && Enabled(s, UseHit)
    ensures var p := s.disp.positions[s.disp.next];
      && StampInv(s.side, CurrentStamp(s.side, p))
      && (Honest(s.side, CurrentStamp(s.side, p), NextKey(s.disp)) <==> !ReusedHit(s, UseHit))
  {
    HitOwner(s.side, s.flowHash, s.packets, s.disp);
    CurrentStampInv(s.side, s.disp.positions[s.disp.next]);
  }

  /** Without a successful replacement since the bulk lookup the guard never fires: the grace
      period keeps every looked-up slot with its key. */
  lemma CleanHitIsHonest(s: State)
    requires Inv(s) && Enabled(s, UseHit) && !s.disp.replaced
    ensures !ReusedHit(s, UseHit)
  {
    var d := s.disp;
    var p := d.positions[d.next];
    assert Held(s.hash, DispatcherActor, d.burst[d.next].key, p);
    assert OwnerIs(s.side, p, s.hash.keyStore[p]);
    HitOwner(s.side, s.flowHash, s.packets, d);
  }

  lemma HonestSurvives(side: Side, side': Side, t: Stamp, k: Key)
    requires KeepsReaders(side, side') && StampInv(side, t)
    ensures Honest(side', t, k) <==> Honest(side, t, k)
  {
    assert ReadInv(side, t, Unchecked);
  }

  lemma SideOfStep(s: State, step: Step)
    requires Inv(s) && Enabled(s, step)
    requires step.ReuseResolved? || step.UseHit? || step.AddFlow? || step.Write?
    ensures KeepsReaders(s.side, Do(s, step).side)
  {
    match step {
      case ReuseResolved(r) => TouchKeepsReaders(s.side, s.disp.resolved[r].stamp.slot, s.disp.tsc);
      case UseHit => TouchKeepsReaders(s.side, s.disp.positions[s.disp.next], s.disp.tsc);
      case AddFlow =>
        var k := NextKey(s.disp);
        MissedKeyIsAbsent(s.hash, s.disp);
        BeginKeepsReaders(s.side, AddSlot(s.hash, k), Pub(k, s.disp.tsc, WorkerOf(s.flowHash, k)));
      case Write => WriterKeepsReaders(s.side);
    }
  }

  lemma OldStampsStayHonest(side: Side, side': Side, flowHash: Key -> u32, packets: seq<Packet>, d: Disp)
    requires SidePart(side, flowHash, packets, d) && KeepsReaders(side, side') && HonestStamps(side, packets, d)
    ensures HonestStamps(side', packets, d)
  {
    forall i | 0 <= i < |packets| ensures Honest(side', packets[i].stamp, packets[i].input.key) {
      HonestSurvives(side, side', packets[i].stamp, packets[i].input.key);
    }
    forall r | 0 <= r < |d.resolved| ensures HonestEntry(side', d, d.resolved[r]) {
      var e := d.resolved[r];
      assert EntryInv(side, d, e);
      HonestSurvives(side, side', e.stamp, d.burst[e.index].key);
    }
  }

  /** Stamping one more packet keeps all stamps honest exactly when the new one is. */
  lemma NewStampHonestIff(side: Side, packets: seq<Packet>, d: Disp, t: Stamp, extra: seq<Resolved>,
                          buffers: seq<seq<nat>>)
    requires HonestStamps(side, packets, d) && HasNext(d)
    requires extra == [] || extra == [Resolved(d.next, t)]
    ensures HonestStamps(side, packets + [Packet(d.burst[d.next], t)], Advanced(d, extra, buffers))
       <==> Honest(side, t, NextKey(d))
  {
    var packets', d' := packets + [Packet(d.burst[d.next], t)], Advanced(d, extra, buffers);
    assert packets'[|packets|] == Packet(d.burst[d.next], t);
    forall r | 0 <= r < |d.resolved| ensures HonestEntry(side, d', d'.resolved[r]) {
      assert HonestEntry(side, d, d.resolved[r]);
    }
  }

  lemma StampResult(s: State, t: Stamp, extra: seq<Resolved>)
    requires HasNext(s.disp) && t.worker < |s.disp.buffers|
    requires extra == [] || extra == [Resolved(s.disp.next, t)]
    ensures var s' := if extra == [] then StampNext(s, t) else StampNext(Remember(s, t), t);
      && s'.disp == Advanced(s.disp, extra, Appended(s.disp.buffers, t.worker, |s.packets|))
      && s'.packets == s.packets + [Packet(s.disp.burst[s.disp.next], t)]
      && s'.side == s.side
  {
    assert s.disp.resolved + [] == s.disp.resolved;
  }

  lemma ReuseKeepsHonest(s: State, r: nat)
    requires Inv(s) && Enabled(s, ReuseResolved(r)) && AllHonest(s)
    ensures AllHonest(Do(s, ReuseResolved(r)))
  {
    var t := s.disp.resolved[r].stamp;
    var s1 := s.(side := Touch(s.side, t.slot, s.disp.tsc));
    SideOfStep(s, ReuseResolved(r));
    OldStampsStayHonest(s.side, s1.side, s.flowHash, s.packets, s.disp);
    assert HonestEntry(s1.side, s.disp, s.disp.resolved[r]);
    StampResult(s1, t, []);
    NewStampHonestIff(s1.side, s.packets, s.disp, t, [], Appended(s.disp.buffers, t.worker, |s.packets|));
  }

  lemma HitKeepsHonestIff(s: State)
    requires Inv(s) && Enabled(s, UseHit) && AllHonest(s)
    ensures AllHonest(Do(s, UseHit)) <==> !ReusedHit(s, UseHit)
  {
    var p := s.disp.positions[s.disp.next];
    var t := CurrentStamp(s.side, p);
    var s1 := s.(side := Touch(s.side, p, s.disp.tsc));
    SideOfStep(s, UseHit);
    OldStampsStayHonest(s.side, s1.side, s.flowHash, s.packets, s.disp);
    HitIsHonestIff(s);
    HonestSurvives(s.side, s1.side, t, NextKey(s.disp));
    StampResult(s1, t, [Resolved(s.disp.next, t)]);
    NewStampHonestIff(s1.side, s.packets, s.disp, t, [Resolved(s.disp.next, t)],
                      Appended(s.disp.buffers, t.worker, |s.packets|));
  }

  lemma LastWriteKeepsHonest(s: State)
    requires Inv(s) && AllHonest(s) && s.disp.pc.Publishing? && CanWrite(s.side) && s.side.writer.stage.SetLastSeen?
    requires HasNext(s.disp) && s.side.hot[s.side.writer.slot].worker < |s.disp.buffers|
    ensures AllHonest(DoWrite(s))
  {
    var d, side', p := s.disp, WriterStep(s.side), s.side.writer.slot;
    PublishingFacts(s.hash, s.side, d, s.held);
    LastWriteSide(s.side, s.flowHash, s.packets, d);
    CurrentStampInv(side', p);
    WriterKeepsReaders(s.side);
    OldStampsStayHonest(s.side, side', s.flowHash, s.packets, d);
    var t := CurrentStamp(side', p);
    LastWriteResult(s, t);
    NewStampHonestIff(side', s.packets, d, t, [Resolved(d.next, t)], Appended(d.buffers, t.worker, |s.packets|));
  }

  lemma SameStampsHonest(side: Side, side': Side, flowHash: Key -> u32, packets: seq<Packet>, d: Disp, d': Disp)
    requires SidePart(side, flowHash, packets, d) && KeepsReaders(side, side') && HonestStamps(side, packets, d)
    requires d'.resolved == d.resolved && d'.burst == d.burst
    ensures HonestStamps(side', packets, d')
  {
    OldStampsStayHonest(side, side', flowHash, packets, d);
    forall r | 0 <= r < |d'.resolved| ensures HonestEntry(side', d', d'.resolved[r]) {
      assert HonestEntry(side', d, d.resolved[r]);
    }
  }

  lemma AddKeepsHonest(s: State)
    requires Inv(s) && Enabled(s, AddFlow) && AllHonest(s)
    ensures AllHonest(Do(s, AddFlow))
  {
    SideOfStep(s, AddFlow);
    var s' := DoAdd(s);
    SameStampsHonest(s.side, s'.side, s.flowHash, s.packets, s.disp, s'.disp);
  }

  lemma MiddleWriteKeepsHonest(s: State)
    requires Inv(s) && AllHonest(s) && CanWrite(s.side) && !s.side.writer.stage.SetLastSeen?
    ensures AllHonest(s.(side := WriterStep(s.side)))
  {
    WriterKeepsReaders(s.side);
    SameStampsHonest(s.side, WriterStep(s.side), s.flowHash, s.packets, s.disp, s.disp);
  }

  lemma WriteKeepsHonest(s: State)
    requires Inv(s) && Enabled(s, Write) && AllHonest(s)
    ensures AllHonest(Do(s, Write))
  {
    if s.side.writer.stage.SetLastSeen? { LastWriteKeepsHonest(s); } else { MiddleWriteKeepsHonest(s); }
  }

  /** Steps that neither write slots nor stamp packets. */
  lemma OtherStepKeepsHonest(s: State, step: Step)
    requires Enabled(s, step) && AllHonest(s)
    requires !step.ReuseResolved? && !step.UseHit? && !step.Write? && !step.AddFlow?
    ensures AllHonest(Do(s, step))
  {
    var s' := Do(s, step);
    assert s'.side == s.side && s'.packets == s.packets;
    assert s'.disp.resolved == [] || (s'.disp.resolved == s.disp.resolved && s'.disp.burst == s.disp.burst);
  }

  /** A step keeps every stamp honest exactly when it is not a lookup hit on a slot this burst
      has already resolved for another key. */
  lemma StepHonestIff(s: State, step: Step)
    requires Inv(s) && Enabled(s, step) && AllHonest(s)
    ensures AllHonest(Do(s, step)) <==> !ReusedHit(s, step)
  {
    if step.ReuseResolved? { ReuseKeepsHonest(s, step.entry); }
    else if step.UseHit? { HitKeepsHonestIff(s); }
    else if step.Write? { WriteKeepsHonest(s); }
    else if step.AddFlow? { AddKeepsHonest(s); }
    else { OtherStepKeepsHonest(s, step); }
  }

  /** No step of the run is a lookup hit on a slot the burst has already resolved. */
  ghost predicate NoReusedHit(s: State, steps: seq<Step>)
    decreases steps
  {
    steps == [] || !Enabled(s, steps[0]) || (!ReusedHit(s, steps[0]) && NoReusedHit(Do(s, steps[0]), steps[1..]))
  }

  /** No lookup hit follows a successful replacement in its burst. */
  ghost predicate NoLateHit(s: State, steps: seq<Step>)
    decreases steps
  {
    steps == [] || !Enabled(s, steps[0]) ||
    (!(steps[0].UseHit? && s.disp.replaced) && NoLateHit(Do(s, steps[0]), steps[1..]))
  }

  lemma {:induction false} NoLateHitSuffices(s: State, steps: seq<Step>)
    requires Inv(s) && NoLateHit(s, steps)
    ensures NoReusedHit(s, steps)
    decreases steps
  {
    if steps != [] && Enabled(s, steps[0]) {
      StepKeepsInv(s, steps[0]);
      if steps[0].UseHit? { CleanHitIsHonest(s); }
      NoLateHitSuffices(Do(s, steps[0]), steps[1..]);
    }
  }

  ghost predicate PacketHonest(s: State, i: nat) {
    i < |s.packets| && Honest(s.side, s.packets[i].stamp, s.packets[i].input.key)
  }

  lemma SlotStepAppends(s: State, step: Step)
    requires Enabled(s, step) && (step.ReuseResolved? || step.UseHit? || step.Write? || step.AddFlow?)
    ensures s.packets <= Do(s, step).packets
  {
  }

  lemma OtherStepLeavesSlots(s: State, step: Step)
    requires Enabled(s, step) && !step.ReuseResolved? && !step.UseHit? && !step.Write? && !step.AddFlow?
    ensures Do(s, step).side == s.side && Do(s, step).packets == s.packets
  {
  }

  /** A stamped packet keeps its stamp, and the stamp keeps its source, for ever. */
  lemma PacketUnaffected(s: State, step: Step, i: nat)
    requires Inv(s) && Enabled(s, step) && i < |s.packets|
    ensures i < |Do(s, step).packets| && Do(s, step).packets[i] == s.packets[i]
    ensures PacketHonest(Do(s, step), i) <==> PacketHonest(s, i)
  {
    assert StampInv(s.side, s.packets[i].stamp);
    if step.ReuseResolved? || step.UseHit? || step.Write? || step.AddFlow? {
      SideOfStep(s, step);
      SlotStepAppends(s, step);
      HonestSurvives(s.side, Do(s, step).side, s.packets[i].stamp, s.packets[i].input.key);
    } else {
      OtherStepLeavesSlots(s, step);
    }
  }

  lemma {:induction false} DishonestForever(s: State, steps: seq<Step>, i: nat)
    requires Inv(s) && Run(s, steps).Some? && i < |s.packets| && !PacketHonest(s, i)
    ensures !AllHonest(Run(s, steps).value)
    decreases steps
  {
    if steps == [] {
    } else {
      StepKeepsInv(s, steps[0]);
      PacketUnaffected(s, steps[0], i);
      DishonestForever(Do(s, steps[0]), steps[1..], i);
    }
  }

  lemma ReusedHitIsDishonest(s: State)
    requires Inv(s) && Enabled(s, UseHit) && ReusedHit(s, UseHit)
    ensures |Do(s, UseHit).packets| == |s.packets| + 1 && !PacketHonest(Do(s, UseHit), |s.packets|)
  {
    var p := s.disp.positions[s.disp.next];
    var t := CurrentStamp(s.side, p);
    HitIsHonestIff(s);
    SideOfStep(s, UseHit);
    HonestSurvives(s.side, Do(s, UseHit).side, t, NextKey(s.disp));
  }

  /** Over a whole run: every packet is stamped with its own flow if and only if no lookup hit
      named a slot that its burst had already resolved. */
  lemma {:induction false} RunHonestIff(s: State, steps: seq<Step>)
    requires Inv(s) && AllHonest(s) && Run(s, steps).Some?
    ensures AllHonest(Run(s, steps).value) <==> NoReusedHit(s, steps)
    decreases steps
  {
    if steps == [] {
    } else {
      var s' := Do(s, steps[0]);
      StepKeepsInv(s, steps[0]);
      if ReusedHit(s, steps[0]) {
        ReusedHitIsDishonest(s);
        DishonestForever(s', steps[1..], |s.packets|);
      } else {
        StepHonestIff(s, steps[0]);
        RunHonestIff(s', steps[1..]);
      }
    }
  }

  // ---------------------------------------------------------------- packet by packet

  /** An add stamps its packet with the packet's own flow. */
  lemma AddStampsHonestly(s: State)
    requires Inv(s) && Enabled(s, Write) && s.side.writer.stage.SetLastSeen?
    ensures var s' := Do(s, Write);
      && |s'.packets| == |s.packets| + 1 && s'.packets[|s.packets|].input.key == NextKey(s.disp)
      && PacketHonest(s', |s.packets|)
  {
    var side' := WriterStep(s.side);
    PublishingFacts(s.hash, s.side, s.disp, s.held);
    LastWriteSide(s.side, s.flowHash, s.packets, s.disp);
    CurrentStampInv(side', s.side.writer.slot);
    LastWriteResult(s, CurrentStamp(side', s.side.writer.slot));
  }

  /** A lookup hit does exactly when its slot was not yet resolved in this burst. */
  lemma HitStampsHonestlyIff(s: State)
    requires Inv(s) && Enabled(s, UseHit)
    ensures var s' := Do(s, UseHit);
      && |s'.packets| == |s.packets| + 1 && s'.packets[|s.packets|].input.key == NextKey(s.disp)
      && (PacketHonest(s', |s.packets|) <==> !ReusedHit(s, UseHit))
  {
    var t := CurrentStamp(s.side, s.disp.positions[s.disp.next]);
    HitIsHonestIff(s);
    SideOfStep(s, UseHit);
    HonestSurvives(s.side, Do(s, UseHit).side, t, NextKey(s.disp));
  }

  /** A reused entry does exactly when the entry is of its own flow. */
  lemma ReuseStampsHonestlyIff(s: State, r: nat)
    requires Inv(s) && Enabled(s, ReuseResolved(r))
    ensures var s' := Do(s, ReuseResolved(r));
      && |s'.packets| == |s.packets| + 1 && s'.packets[|s.packets|].input.key == NextKey(s.disp)
      && (PacketHonest(s', |s.packets|) <==> HonestEntry(s.side, s.disp, s.disp.resolved[r]))
  {
    var e := s.disp.resolved[r];
    assert EntryInv(s.side, s.disp, e);
    SideOfStep(s, ReuseResolved(r));
    HonestSurvives(s.side, Do(s, ReuseResolved(r)).side, e.stamp, NextKey(s.disp));
  }

  /** Whether a packet is stamped with its own flow is settled when it is stamped. */
  lemma {:induction false} HonestForeverIff(s: State, steps: seq<Step>, i: nat)
    requires Inv(s) && Run(s, steps).Some? && i < |s.packets|
    ensures var s' := Run(s, steps).value;
      i < |s'.packets| && s'.packets[i] == s.packets[i] && (PacketHonest(s', i) <==> PacketHonest(s, i))
    decreases steps
  {
    if steps == [] {
    } else {
      StepKeepsInv(s, steps[0]);
      PacketUnaffected(s, steps[0], i);
      HonestForeverIff(Do(s, steps[0]), steps[1..], i);
    }
  }

  /** The entries that carry another flow's stamp. */
  ghost function BadOf(side: Side, d: Disp): set<nat> {
    set r | 0 <= r < |d.resolved| && !HonestEntry(side, d, d.resolved[r])
  }

  ghost function BadEntries(s: State): set<nat> {
    BadOf(s.side, s.disp)
  }

  /** The same set kept by the guard alone: a hit on a slot this burst has already resolved makes
      a bad entry, and the next burst starts without entries. */
  ghost function NextBad(s: State, step: Step, bad: set<nat>): set<nat>
    requires Enabled(s, step)
  {
    if Do(s, step).disp.resolved == [] then {}
    else if ReusedHit(s, step) then bad + {|s.disp.resolved|}
    else bad
  }

  /** The step gives a packet another flow's stamp. */
  ghost predicate Misstamps(s: State, step: Step, bad: set<nat>) {
    ReusedHit(s, step) || (step.ReuseResolved? && step.entry in bad)
  }

  lemma EntriesSurvive(side: Side, side': Side, d: Disp, d': Disp)
    requires ResolvedInv(side, d) && KeepsReaders(side, side') && d'.burst == d.burst && d.resolved <= d'.resolved
    ensures forall r | 0 <= r < |d.resolved| ::
      HonestEntry(side', d', d'.resolved[r]) <==> HonestEntry(side, d, d.resolved[r])
  {
    forall r | 0 <= r < |d.resolved|
      ensures HonestEntry(side', d', d'.resolved[r]) <==> HonestEntry(side, d, d.resolved[r])
    {
      var e := d.resolved[r];
      assert EntryInv(side, d, e);
      HonestSurvives(side, side', e.stamp, d.burst[e.index].key);
    }
  }

  lemma BadStays(side: Side, side': Side, d: Disp, d': Disp)
    requires ResolvedInv(side, d) && KeepsReaders(side, side') && d'.burst == d.burst && d'.resolved == d.resolved
    ensures BadOf(side', d') == BadOf(side, d)
  {
    EntriesSurvive(side, side', d, d');
  }

  lemma BadGrows(side: Side, side': Side, d: Disp, d': Disp, e: Resolved)
    requires ResolvedInv(side, d) && KeepsReaders(side, side') && d'.burst == d.burst && d'.resolved == d.resolved + [e]
    ensures BadOf(side', d') == BadOf(side, d) + (if HonestEntry(side', d', e) then {} else {|d.resolved|})
  {
    EntriesSurvive(side, side', d, d');
    assert d'.resolved[|d.resolved|] == e;
  }

  lemma ReuseBad(s: State, r: nat)
    requires Inv(s) && Enabled(s, ReuseResolved(r))
    ensures BadEntries(DoReuse(s, s.disp.resolved[r].stamp)) == BadEntries(s)
  {
    var s' := DoReuse(s, s.disp.resolved[r].stamp);
    SideOfStep(s, ReuseResolved(r));
    BadStays(s.side, s'.side, s.disp, s'.disp);
  }

  lemma HitBad(s: State)
    requires Inv(s) && Enabled(s, UseHit)
    ensures var s' := DoHit(s, s.disp.positions[s.disp.next]);
      && s'.disp.resolved != []
      && BadEntries(s') == BadEntries(s) + (if ReusedHit(s, UseHit) then {|s.disp.resolved|} else {})
  {
    var t := CurrentStamp(s.side, s.disp.positions[s.disp.next]);
    var s' := DoHit(s, s.disp.positions[s.disp.next]);
    HitStampsHonestlyIff(s);
    SideOfStep(s, UseHit);
    StampResult(s.(side := Touch(s.side, t.slot, s.disp.tsc)), t, [Resolved(s.disp.next, t)]);
    BadGrows(s.side, s'.side, s.disp, s'.disp, Resolved(s.disp.next, t));
  }

  lemma LastWriteBad(s: State)
    requires Inv(s) && s.disp.pc.Publishing? && CanWrite(s.side) && s.side.writer.stage.SetLastSeen?
    requires HasNext(s.disp) && s.side.hot[s.side.writer.slot].worker < |s.disp.buffers|
    ensures BadEntries(DoWrite(s)) == BadEntries(s) && DoWrite(s).disp.resolved != []
  {
    var d, side', p := s.disp, WriterStep(s.side), s.side.writer.slot;
    PublishingFacts(s.hash, s.side, d, s.held);
    LastWriteSide(s.side, s.flowHash, s.packets, d);
    CurrentStampInv(side', p);
    WriterKeepsReaders(s.side);
    var t := CurrentStamp(side', p);
    LastWriteResult(s, t);
    BadGrows(s.side, side', d, DoWrite(s).disp, Resolved(d.next, t));
  }

  lemma MiddleWriteBad(s: State)
    requires Inv(s) && CanWrite(s.side) && !s.side.writer.stage.SetLastSeen?
    ensures BadEntries(s.(side := WriterStep(s.side))) == BadEntries(s)
  {
    WriterKeepsReaders(s.side);
    BadStays(s.side, WriterStep(s.side), s.disp, s.disp);
  }

  lemma AddBad(s: State)
    requires Inv(s) && Enabled(s, AddFlow)
    ensures BadEntries(DoAdd(s)) == BadEntries(s)
  {
    SideOfStep(s, AddFlow);
    BadStays(s.side, DoAdd(s).side, s.disp, DoAdd(s).disp);
  }

  lemma OtherStepBad(s: State, step: Step)
    requires Enabled(s, step) && !step.ReuseResolved? && !step.UseHit? && !step.Write? && !step.AddFlow?
    ensures BadEntries(Do(s, step)) == if Do(s, step).disp.resolved == [] then {} else BadEntries(s)
  {
    OtherStepLeavesSlots(s, step);
    var d, d' := s.disp, Do(s, step).disp;
    assert d'.resolved == [] || (d'.resolved == d.resolved && d'.burst == d.burst);
    assert d'.burst == d.burst && d'.resolved == d.resolved ==> BadOf(s.side, d') == BadOf(s.side, d);
  }

  lemma NoEntriesNoBad(side: Side, d: Disp)
    requires d.resolved == []
    ensures BadOf(side, d) == {}
  {
  }

  lemma WriteBad(s: State)
    requires Inv(s) && Enabled(s, Write)
    ensures BadEntries(Do(s, Write)) == BadEntries(s)
  {
    if s.side.writer.stage.SetLastSeen? { LastWriteBad(s); } else { MiddleWriteBad(s); }
  }

  /** Steps that neither hit nor leave the slots alone. */
  lemma KeepingStepBad(s: State, step: Step)
    requires Inv(s) && Enabled(s, step) && (step.ReuseResolved? || step.Write? || step.AddFlow?)
    ensures BadEntries(Do(s, step)) == BadEntries(s)
  {
    match step {
      case ReuseResolved(r) => ReuseBad(s, r);
      case AddFlow => AddBad(s);
      case Write => WriteBad(s);
    }
  }

  lemma HitNext(s: State)
    requires Inv(s) && Enabled(s, UseHit)
    ensures BadEntries(Do(s, UseHit)) == NextBad(s, UseHit, BadEntries(s))
  {
    HitBad(s);
    assert BadEntries(s) + {} == BadEntries(s);
  }

  lemma BadNext(s: State, step: Step)
    requires Inv(s) && Enabled(s, step)
    ensures BadEntries(Do(s, step)) == NextBad(s, step, BadEntries(s))
  {
    if step.UseHit? {
      HitNext(s);
    } else if step.ReuseResolved? || step.Write? || step.AddFlow? {
      KeepingStepBad(s, step);
      if Do(s, step).disp.resolved == [] { NoEntriesNoBad(Do(s, step).side, Do(s, step).disp); }
    } else {
      OtherStepBad(s, step);
    }
  }

  /** In the run, packet i gets another flow's stamp: by a hit on a slot its burst has already
      resolved, or by reuse of the entry such a hit made. */
  ghost predicate Misstamped(s: State, steps: seq<Step>, bad: set<nat>, i: nat)
    decreases steps
  {
    steps != [] && Enabled(s, steps[0]) &&
    if i < |Do(s, steps[0]).packets| then Misstamps(s, steps[0], bad)
    else Misstamped(Do(s, steps[0]), steps[1..], NextBad(s, steps[0], bad), i)
  }

  /** A step that stamps a packet stamps it with its own flow exactly when it is none of these. */
  lemma StampIsHonestIff(s: State, step: Step)
    requires Inv(s) && Enabled(s, step)
    ensures |s.packets| <= |Do(s, step).packets| <= |s.packets| + 1
    ensures |Do(s, step).packets| > |s.packets| ==>
      (PacketHonest(Do(s, step), |s.packets|) <==> !Misstamps(s, step, BadEntries(s)))
  {
    if step.ReuseResolved? { ReuseStampsHonestlyIff(s, step.entry); }
    else if step.UseHit? { HitStampsHonestlyIff(s); }
    else if step.Write? && s.side.writer.stage.SetLastSeen? { AddStampsHonestly(s); }
    else { OtherStepStampsNothing(s, step); }
  }

  lemma OtherStepStampsNothing(s: State, step: Step)
    requires Enabled(s, step) && !step.ReuseResolved? && !step.UseHit?
    requires step.Write? ==> !s.side.writer.stage.SetLastSeen?
    ensures Do(s, step).packets == s.packets
  {
  }

  /** The packet the first step of the run stamps. */
  lemma FirstStampIff(s: State, steps: seq<Step>)
    requires Inv(s) && Run(s, steps).Some? && steps != [] && |s.packets| < |Do(s, steps[0]).packets|
    ensures |s.packets| < |Run(s, steps).value.packets|
    ensures PacketHonest(Run(s, steps).value, |s.packets|) <==> !Misstamps(s, steps[0], BadEntries(s))
  {
    StepKeepsInv(s, steps[0]);
    StampIsHonestIff(s, steps[0]);
    HonestForeverIff(Do(s, steps[0]), steps[1..], |s.packets|);
  }

  /** Packet i is as honest after the run as the rest of the run leaves it. */
  ghost predicate HonestAsRun(s: State, steps: seq<Step>, i: nat) {
    Run(s, steps).Some? && (PacketHonest(Run(s, steps).value, i) <==> !Misstamped(s, steps, BadEntries(s), i))
  }

  lemma LaterStamp(s: State, steps: seq<Step>, i: nat)
    requires Inv(s) && Run(s, steps).Some? && steps != [] && |Do(s, steps[0]).packets| <= i
    requires HonestAsRun(Do(s, steps[0]), steps[1..], i)
    ensures HonestAsRun(s, steps, i)
  {
    BadNext(s, steps[0]);
  }

  lemma NowStamped(s: State, steps: seq<Step>, i: nat)
    requires Inv(s) && Run(s, steps).Some? && steps != [] && |s.packets| <= i < |Do(s, steps[0]).packets|
    ensures HonestAsRun(s, steps, i)
  {
    StampIsHonestIff(s, steps[0]);
    FirstStampIff(s, steps);
  }

  lemma {:induction false} HonestAsRunHolds(s: State, steps: seq<Step>, i: nat)
    requires Inv(s) && Run(s, steps).Some? && |s.packets| <= i < |Run(s, steps).value.packets|
    ensures HonestAsRun(s, steps, i)
    decreases steps
  {
    var s' := Do(s, steps[0]);
    if i < |s'.packets| {
      NowStamped(s, steps, i);
    } else {
      StepKeepsInv(s, steps[0]);
      HonestAsRunHolds(s', steps[1..], i);
      LaterStamp(s, steps, i);
    }
  }

  /** Packet by packet, whatever happens to the others: a packet carries its own flow's stamp for
      ever if and only if neither such a hit nor the entry it made was used for it. */
  lemma PacketHonestIff(s: State, steps: seq<Step>, i: nat)
    requires Inv(s) && Run(s, steps).Some? && |s.packets| <= i < |Run(s, steps).value.packets|
    ensures PacketHonest(Run(s, steps).value, i) <==> !Misstamped(s, steps, BadEntries(s), i)
  {
    HonestAsRunHolds(s, steps, i);
  }

  /** Until a replacement succeeds in a burst, all its entries are of their own flows. */
  ghost predicate CleanUntilReplaced(s: State) {
    !s.disp.replaced ==> BadEntries(s) == {}
  }

  lemma OnlyReplacementSetsReplaced(s: State, step: Step)
    requires Enabled(s, step) && !Do(s, step).disp.replaced
    ensures !s.disp.replaced || Do(s, step).disp.resolved == []
  {
  }

  lemma StepKeepsClean(s: State, step: Step)
    requires Inv(s) && Enabled(s, step) && CleanUntilReplaced(s)
    ensures CleanUntilReplaced(Do(s, step))
    ensures Misstamps(s, step, BadEntries(s)) ==> s.disp.replaced
  {
    BadNext(s, step);
    if step.UseHit? && !s.disp.replaced { CleanHitIsHonest(s); }
    if !Do(s, step).disp.replaced { OnlyReplacementSetsReplaced(s, step); }
  }

  /** Packet i is stamped by a hit or a reuse after a successful replacement in its burst. */
  ghost predicate StampedLate(s: State, steps: seq<Step>, i: nat)
    decreases steps
  {
    steps != [] && Enabled(s, steps[0]) &&
    if i < |Do(s, steps[0]).packets| then s.disp.replaced && !steps[0].Write?
    else StampedLate(Do(s, steps[0]), steps[1..], i)
  }

  lemma {:induction false} MisstampedIsLate(s: State, steps: seq<Step>, i: nat)
    requires Inv(s) && CleanUntilReplaced(s) && Misstamped(s, steps, BadEntries(s), i)
    ensures StampedLate(s, steps, i)
    decreases steps
  {
    StepKeepsClean(s, steps[0]);
    if i >= |Do(s, steps[0]).packets| {
      StepKeepsInv(s, steps[0]);
      BadNext(s, steps[0]);
      MisstampedIsLate(Do(s, steps[0]), steps[1..], i);
    }
  }

  // ---------------------------------------------------------------- what the workers decide

  /** The verdict the active rules give the packet's own 5-tuple. */
  function OwnVerdict(rules: seq<Rule>, key: Key): u8 {
    FirstMatch(rules, ColdFromKey(key, 0))
  }

  /** A single rule decides about a 5-tuple exactly when it agrees with it in every field it asks
      about. */
  lemma OwnVerdictIff(rule: Rule, key: Key)
    requires rule.action != ACTION_FORWARD
    ensures OwnVerdict([rule], key) == rule.action
       <==> && (rule.matchSrcIp ==> key.ipSrc == rule.srcIp) && (rule.matchDstIp ==> key.ipDst == rule.dstIp)
            && (rule.matchSrcPort ==> key.portSrc == rule.srcPort)
            && (rule.matchDstPort ==> key.portDst == rule.dstPort)
            && (rule.matchProtocol ==> key.proto == rule.protocol)
  {
    OneRuleVerdict(rule, ColdFromKey(key, 0));
  }

  /** Every classification made so far: by snapshot, the verdict is that of the publication the
      stamp was taken from (within one generation period); by re-parsing, it is always that of
      the packet's own 5-tuple. */
  lemma VerdictOf(s: State, w: nat, i: nat)
    requires Inv(s) && w < |s.workers| && i < |s.workers[w].done|
    ensures var e := s.workers[w].done[i];
      && e.id < |s.packets| && StampInv(s.side, s.packets[e.id].stamp)
      && (e.path.ByReparse? ==> e.action == OwnVerdict(e.rules, s.packets[e.id].input.key))
      && (e.path.BySnapshot? && e.path.at - s.packets[e.id].stamp.pub < GEN_PERIOD ==>
            e.action == OwnVerdict(e.rules, Source(s.side, s.packets[e.id].stamp).key))
  {
    var e := s.workers[w].done[i];
    assert DoneInv(s.side, s.packets, e);
    if e.path.BySnapshot? {
      var source := Source(s.side, s.packets[e.id].stamp);
      VerdictIgnoresCreateTime(e.rules, source.Record(), ColdFromKey(source.key, 0));
    }
  }

  /** The slot of a packet was republished fewer than 2^32-1 times before its snapshot. */
  ghost predicate InWindow(s: State, e: Done) {
    e.id < |s.packets| && (e.path.BySnapshot? ==> e.path.at - s.packets[e.id].stamp.pub < GEN_PERIOD)
  }

  /** End to end, for every interleaving and packet by packet: a packet gets the first-match action
      of its own 5-tuple, by whichever of the three paths it was decided, unless it carries another
      flow's stamp and was classified by it; what happens to other packets does not matter. */
  lemma PacketGetsItsOwnVerdict(s: State, steps: seq<Step>, n: nat, slots: nat, w: nat, i: nat)
    requires Init(s, n, slots) && Run(s, steps).Some?
    requires w < |Run(s, steps).value.workers| && i < |Run(s, steps).value.workers[w].done|
    ensures var s' := Run(s, steps).value;
      var e := s'.workers[w].done[i];
      && e.id < |s'.packets|
      && (e.path.ByReparse? || (InWindow(s', e) && !Misstamped(s, steps, {}, e.id)) ==>
            e.action == OwnVerdict(e.rules, s'.packets[e.id].input.key))
  {
    var s' := Run(s, steps).value;
    InitInv(s, n, slots);
    RunKeepsInv(s, steps);
    VerdictOf(s', w, i);
    assert BadEntries(s) == {};
    PacketHonestIff(s, steps, s'.workers[w].done[i].id);
  }

  /** In particular: a packet that was resolved by an add, or by a hit or an entry with no
      successful replacement since its bulk lookup. */
  lemma EarlyPacketGetsItsOwnVerdict(s: State, steps: seq<Step>, n: nat, slots: nat, w: nat, i: nat)
    requires Init(s, n, slots) && Run(s, steps).Some?
    requires w < |Run(s, steps).value.workers| && i < |Run(s, steps).value.workers[w].done|
    requires InWindow(Run(s, steps).value, Run(s, steps).value.workers[w].done[i])
    requires !StampedLate(s, steps, Run(s, steps).value.workers[w].done[i].id)
    ensures var s' := Run(s, steps).value;
      var e := s'.workers[w].done[i];
      e.action == OwnVerdict(e.rules, s'.packets[e.id].input.key)
  {
    InitInv(s, n, slots);
    assert BadEntries(s) == {};
    PacketGetsItsOwnVerdict(s, steps, n, slots, w, i);
    var id := Run(s, steps).value.workers[w].done[i].id;
    if Misstamped(s, steps, {}, id) { MisstampedIsLate(s, steps, id); }
  }

  /** End to end, for every interleaving: a run without a reused hit gives every packet the
      first-match action of its own 5-tuple, by whichever of the three paths it was decided. */
  lemma EveryPacketGetsItsOwnVerdict(s: State, steps: seq<Step>, n: nat, slots: nat, w: nat, i: nat)
    requires Init(s, n, slots) && Run(s, steps).Some? && NoReusedHit(s, steps)
    requires var s' := Run(s, steps).value;
      w < |s'.workers| && i < |s'.workers[w].done| && InWindow(s', s'.workers[w].done[i])
    ensures var s' := Run(s, steps).value;
      var e := s'.workers[w].done[i];
      e.action == OwnVerdict(e.rules, s'.packets[e.id].input.key)
  {
    InitInv(s, n, slots);
    RunKeepsInv(s, steps);
    RunHonestIff(s, steps);
    VerdictOf(Run(s, steps).value, w, i);
  }

  /** At the second check a worker holds the complete record of the stamping publication,
      although it never reported to RCU. */
  lemma SnapshotIsNeverTorn(s: State, w: nat)
    requires Inv(s) && Handling(s, w) && s.workers[w].cur.read.Snapshot?
    requires s.workers[w].cur.read.at - CurStamp(s, w).pub < GEN_PERIOD
    ensures StampInv(s.side, CurStamp(s, w))
    ensures s.workers[w].cur.read.buf == Source(s.side, CurStamp(s, w)).Record()
  {
    assert CurInv(s.side, s.packets, s.workers[w].cur);
  }

  // ---------------------------------------------------------------- what a stamp leaves behind

  ghost predicate OnlyTouched(hot: seq<Hot>, hot': seq<Hot>, p: nat, tsc: nat) {
    && |hot'| == |hot| && p < |hot| && hot'[p].lastSeen == tsc
    && forall q | 0 <= q < |hot| && q != p :: hot'[q] == hot[q]
  }

  /** A packet was appended: the next one of the burst, with a stamp whose slot was last seen at the
      clock of the burst while no other slot changed; a current stamp is what the slot carries. */
  ghost predicate Stamped(packets: seq<Packet>, packets': seq<Packet>, hot: seq<Hot>, hot': seq<Hot>, d: Disp,
                          current: bool) {
    && |packets'| == |packets| + 1 && packets <= packets' && HasNext(d)
    && var p := packets'[|packets|];
      && p.input == d.burst[d.next] && OnlyTouched(hot, hot', p.stamp.slot, d.tsc)
      && (current ==> p.stamp.gen == hot'[p.stamp.slot].gen && p.stamp.worker == hot'[p.stamp.slot].worker)
  }

  lemma HitTouches(s: State)
    requires Enabled(s, UseHit)
    ensures Stamped(s.packets, Do(s, UseHit).packets, s.side.hot, Do(s, UseHit).side.hot, s.disp, true)
  {
  }

  lemma ReuseTouches(s: State, r: nat)
    requires Enabled(s, ReuseResolved(r))
    ensures Stamped(s.packets, Do(s, ReuseResolved(r)).packets, s.side.hot, Do(s, ReuseResolved(r)).side.hot, s.disp,
                    false)
  {
  }

  lemma LastWriteTouches(s: State)
    requires PcInv(s.hash, s.side.writer, s.disp) && Enabled(s, Write) && s.side.writer.stage.SetLastSeen?
    ensures Stamped(s.packets, Do(s, Write).packets, s.side.hot, Do(s, Write).side.hot, s.disp, true)
  {
  }

  /** Whenever a packet is stamped, by a hit, an entry of the burst or a new flow. */
  lemma StampTouches(s: State, step: Step)
    requires PcInv(s.hash, s.side.writer, s.disp) && Enabled(s, step) && Do(s, step).packets != s.packets
    ensures Stamped(s.packets, Do(s, step).packets, s.side.hot, Do(s, step).side.hot, s.disp, !step.ReuseResolved?)
  {
    if step.UseHit? {
      HitTouches(s);
    } else if step.ReuseResolved? {
      ReuseTouches(s, step.entry);
    } else {
      StampingStep(s, step);
      LastWriteTouches(s);
    }
  }

  lemma StampingStep(s: State, step: Step)
    requires Enabled(s, step) && Do(s, step).packets != s.packets && !step.UseHit? && !step.ReuseResolved?
    ensures step.Write? && s.side.writer.stage.SetLastSeen?
  {
    if !(step.Write? && s.side.writer.stage.SetLastSeen?) { OtherStepStampsNothing(s, step); }
  }

  // ---------------------------------------------------------------- affinity and order

  /** Packets of one 5-tuple, honestly stamped, all go to the worker that the hash of the 5-tuple
      modulo four names, also across deletion and re-creation of the flow. */
  lemma FlowAffinity(s: State, i: nat)
    requires Inv(s) && PacketHonest(s, i)
    ensures s.packets[i].stamp.worker == s.flowHash(s.packets[i].input.key) % 4
  {
    StampWorkerBound(s.side, s.flowHash, s.packets[i].stamp);
  }

  /** The packets a worker passes on, in the order it does. */
  function Forwarded(done: seq<Done>): seq<nat> {
    if done == [] then []
    else
      var last := done[|done| - 1];
      Forwarded(done[..|done| - 1]) + (if last.action != ACTION_DROP then [last.id] else [])
  }

  lemma {:induction false} ForwardedIncreasing(done: seq<Done>)
    requires Increasing(Ids(done))
    ensures Increasing(Forwarded(done))
    ensures forall id | id in Forwarded(done) :: exists i :: 0 <= i < |done| && done[i].id == id
    decreases |done|
  {
    if done == [] {
    } else {
      var init, last := done[..|done| - 1], done[|done| - 1];
      assert Ids(init) == Ids(done)[..|init|];
      ForwardedIncreasing(init);
      forall id | id in Forwarded(done) ensures exists i :: 0 <= i < |done| && done[i].id == id {
        if id in Forwarded(init) {
          var i :| 0 <= i < |init| && init[i].id == id;
          assert done[i].id == id;
        } else {
          assert done[|done| - 1].id == id;
        }
      }
      forall k | 0 <= k < |Forwarded(init)| ensures Forwarded(init)[k] < last.id {
        assert Forwarded(init)[k] in Forwarded(init);
        var i :| 0 <= i < |init| && init[i].id == Forwarded(init)[k];
        assert Ids(done)[i] < Ids(done)[|done| - 1];
      }
    }
  }

  /** Each worker forwards packets in arrival order. */
  lemma ForwardedInArrivalOrder(s: State, w: nat)
    requires Inv(s) && w < |s.workers|
    ensures Increasing(Forwarded(s.workers[w].done))
  {
    DoneIdsIncrease(s, w);
    ForwardedIncreasing(s.workers[w].done);
  }

  lemma DoneIdsIncrease(s: State, w: nat)
    requires Inv(s) && w < |s.workers|
    ensures Increasing(Ids(s.workers[w].done))
  {
    var queue := Queue(s.workers[w], s.disp.buffers[w]);
    assert QueueInv(s.packets, queue, w);
    assert Ids(s.workers[w].done) == queue[..|s.workers[w].done|];
  }

  lemma DoneByStampedWorker(s: State, w: nat, i: nat)
    requires Inv(s) && w < |s.workers| && i < |s.workers[w].done|
    ensures s.workers[w].done[i].id < |s.packets|
    ensures s.packets[s.workers[w].done[i].id].stamp.worker == w
  {
    var queue := Queue(s.workers[w], s.disp.buffers[w]);
    assert QueueInv(s.packets, queue, w);
    assert queue[i] == Ids(s.workers[w].done)[i];
  }

  /** Order within a flow: of two processed packets of one 5-tuple, the one that arrived first
      was processed first, by the same worker. */
  lemma FlowOrder(s: State, v: nat, i: nat, w: nat, j: nat)
    requires Inv(s)
    requires v < |s.workers| && i < |s.workers[v].done| && w < |s.workers| && j < |s.workers[w].done|
    requires PacketHonest(s, s.workers[v].done[i].id) && PacketHonest(s, s.workers[w].done[j].id)
    ensures var a, b := s.workers[v].done[i].id, s.workers[w].done[j].id;
      a < |s.packets| && b < |s.packets| &&
      (s.packets[a].input.key == s.packets[b].input.key ==> v == w && (a < b <==> i < j))
  {
    DoneByStampedWorker(s, v, i);
    DoneByStampedWorker(s, w, j);
    var a, b := s.workers[v].done[i].id, s.workers[w].done[j].id;
    FlowAffinity(s, a);
    FlowAffinity(s, b);
    if s.packets[a].input.key == s.packets[b].input.key {
      var queue := Queue(s.workers[v], s.disp.buffers[v]);
      assert QueueInv(s.packets, queue, v);
      assert queue[i] == a && queue[j] == b;
    }
  }

  // ---------------------------------------------------------------- grace periods

  /** What the dispatcher's bulk lookup returned is, until it reports quiescent, still the slot
      of that key and cannot be handed to another one. */
  lemma LookupStaysValid(s: State, j: nat)
    requires Inv(s) && !s.disp.replaced && j < |s.disp.positions| && s.disp.positions[j] >= 0
    ensures j < |s.disp.burst| && s.disp.positions[j] < |s.hash.keyStore|
    ensures s.hash.keyStore[s.disp.positions[j]] == s.disp.burst[j].key
    ensures s.disp.positions[j] !in s.hash.free
  {
    assert Held(s.hash, DispatcherActor, s.disp.burst[j].key, s.disp.positions[j]);
  }

  /** A key pointer the aging pass retains still points at the key it was taken for when the
      batch is flushed, and its slot has not been recycled. */
  lemma RetainedKeyStaysValid(s: State, i: nat)
    requires Inv(s) && i < |s.held|
    ensures s.held[i].1 < |s.hash.keyStore| && s.hash.keyStore[s.held[i].1] == s.held[i].0
    ensures s.held[i].1 !in s.hash.free
  {
    assert Held(s.hash, MaintenanceActor, s.held[i].0, s.held[i].1);
  }

  // ---------------------------------------------------------------- victims and accounting

  /** A cached pair (p, g), popped at any later time, passes validation exactly when generation
      g is the latest publication of slot p and its key is still mapped to p; the victim is that
      key. Outdated and repeated candidates therefore remove nothing. */
  lemma VictimValidIff(s: State, p: nat, g: u32)
    requires Inv(s) && s.disp.pc.Evicting?
    ensures VictimValid(s, p, g)
       <==> (s.side.Has(p) && s.side.log[p] != [] && g == GenAfter(|s.side.log[p]|)
             && s.side.Owner(p) in s.hash.mapped && s.hash.mapped[s.side.Owner(p)] == p)
    ensures VictimValid(s, p, g) ==> KeyFromCold(s.side.cold[p]) == s.side.Owner(p)
  {
    if s.side.Has(p) { assert SlotInv(s.side, p); }
  }

  lemma VictimFacts(h: Hash, side: Side, d: Disp, held: seq<(Key, nat)>)
    requires HashPart(h, side, d, held) && SideInv(side) && d.pc.Deleting?
    ensures side.Has(d.pc.slot) && side.log[d.pc.slot] != []
    ensures side.Owner(d.pc.slot) == d.pc.victim && GenAfter(|side.log[d.pc.slot]|) == d.pc.gen
    ensures d.pc.victim in h.mapped ==> h.mapped[d.pc.victim] == d.pc.slot
  {
    assert SlotInv(side, d.pc.slot);
  }

  lemma DelRemovesOnly(h: Hash, k: Key)
    ensures Del(h, k).mapped == h.mapped - {k}
  {
    assert k !in h.mapped ==> h.mapped == h.mapped - {k};
  }

  /** Even if the maintenance thread deletes flows between validation and deletion, only the
      validated owner of the slot can disappear. */
  lemma VictimDeletionIsExact(s: State)
    requires Inv(s) && s.disp.pc.Deleting?
    ensures var pc, h' := s.disp.pc, Do(s, DeleteVictim).hash;
      && s.side.Has(pc.slot) && s.side.log[pc.slot] != []
      && s.side.Owner(pc.slot) == pc.victim && GenAfter(|s.side.log[pc.slot]|) == pc.gen
      && h'.mapped == s.hash.mapped - {pc.victim}
      && (pc.victim in s.hash.mapped ==> s.hash.mapped[pc.victim] == pc.slot)
  {
    VictimFacts(s.hash, s.side, s.disp, s.held);
    DelRemovesOnly(s.hash, s.disp.pc.victim);
    assert Do(s, DeleteVictim).hash == Del(s.hash, s.disp.pc.victim);
  }

  /** The last_seen guard spares exactly the slots that never completed a publication: a reused
      slot between add and publish is not covered by it. */
  lemma UnpublishedGuardIff(s: State, p: nat)
    requires Inv(s) && s.side.Has(p)
    ensures s.side.hot[p].lastSeen == 0
       <==> (s.side.log[p] == [] || (s.side.Rewriting(p) && |s.side.log[p]| == 1))
  {
    assert SlotInv(s.side, p);
  }

  /** Flow accounting: between packets, mapped flows plus counted deletions never exceed the
      created ones, and the gap is exactly the flows replacements removed but did not count. */
  lemma FlowAccounting(s: State)
    requires Inv(s)
    requires s.disp.pc.Idle? || s.disp.pc.Ready? || s.disp.pc.Enqueueing?
    ensures |s.hash.mapped| + s.counters.deleted <= s.counters.created
    ensures |s.hash.mapped| + s.counters.deleted == s.counters.created <==> s.counters.surplus == 0
  {
  }

  /** The guard the replacement lacks: it is about to delete a victim that is still mapped, after
      it has already removed a flow. */
  ghost predicate SecondEviction(s: State, step: Step) {
    step.DeleteVictim? && s.disp.pc.Deleting? && s.disp.pc.evicted > 0 && s.disp.pc.victim in s.hash.mapped
  }

  ghost predicate NoSecondEviction(s: State, steps: seq<Step>)
    decreases steps
  {
    steps == [] || !Enabled(s, steps[0]) ||
    (!SecondEviction(s, steps[0]) && NoSecondEviction(Do(s, steps[0]), steps[1..]))
  }

  /** Flows removed beyond the ones counted or about to be counted. */
  function Uncounted(s: State): int {
    s.counters.surplus + (if EvictedNow(s.disp) > 0 then EvictedNow(s.disp) - 1 else 0)
  }

  lemma UncountedStep(s: State, step: Step)
    requires Enabled(s, step)
    ensures Uncounted(Do(s, step)) == Uncounted(s) + (if SecondEviction(s, step) then 1 else 0)
  {
  }

  lemma {:induction false} UncountedIff(s: State, steps: seq<Step>)
    requires Run(s, steps).Some?
    ensures Uncounted(Run(s, steps).value) >= Uncounted(s)
    ensures Uncounted(Run(s, steps).value) == Uncounted(s) <==> NoSecondEviction(s, steps)
    decreases steps
  {
    if steps == [] {
    } else {
      UncountedIff(Do(s, steps[0]), steps[1..]);
      UncountedStep(s, steps[0]);
    }
  }

  /** Over whole runs: at a burst boundary flows_created equals mapped plus flows_deleted exactly
      when no replacement went on to delete a second flow. */
  lemma RunAccounting(s: State, steps: seq<Step>, n: nat, slots: nat)
    requires Init(s, n, slots) && Run(s, steps).Some? && Run(s, steps).value.disp.pc.Idle?
    ensures var s' := Run(s, steps).value;
      && |s'.hash.mapped| + s'.counters.deleted <= s'.counters.created
      && (|s'.hash.mapped| + s'.counters.deleted == s'.counters.created <==> NoSecondEviction(s, steps))
  {
    InitInv(s, n, slots);
    RunKeepsInv(s, steps);
    UncountedIff(s, steps);
    FlowAccounting(Run(s, steps).value);
  }

  /** The range conditions among the enabling conditions exclude nothing: in every reachable
      state they hold by themselves whenever the thread is at that point. */
  lemma RangesAlwaysHold(s: State)
    requires Inv(s)
    ensures forall r | 0 <= r < |s.disp.resolved| ::
      s.side.Has(s.disp.resolved[r].stamp.slot) && s.disp.resolved[r].stamp.worker < |s.disp.buffers|
    ensures s.disp.pc.Ready? && HasNext(s.disp) && !Seen(s.disp, NextKey(s.disp))
            && s.disp.positions[s.disp.next] >= 0 ==>
      Enabled(s, UseHit)
    ensures s.disp.pc.Publishing? ==> Enabled(s, Write)
  {
    forall r | 0 <= r < |s.disp.resolved|
      ensures s.side.Has(s.disp.resolved[r].stamp.slot) && s.disp.resolved[r].stamp.worker < |s.disp.buffers|
    {
      DuplicateStamp(s.side, s.flowHash, s.packets, s.disp, r);
    }
    if s.disp.pc.Publishing? {
      PublishingFacts(s.hash, s.side, s.disp, s.held);
      assert SlotInv(s.side, s.side.writer.slot);
      if s.side.writer.stage.SetLastSeen? { LastWriteSide(s.side, s.flowHash, s.packets, s.disp); }
    } else if s.disp.pc.Ready? && HasNext(s.disp) && !Seen(s.disp, NextKey(s.disp))
              && s.disp.positions[s.disp.next] >= 0 {
      HitKeepsInv(s);
    }
  }
}
