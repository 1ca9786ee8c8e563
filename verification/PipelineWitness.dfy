/** A run on which the pipeline misroutes a packet: a lookup hit after a successful replacement
    in the same burst names a slot that the burst has given to another flow. */
module PipelineWitness {
  import opened FlowTypes
  import opened Generation
  import opened FlowPacket
  import opened RuleEngine
  import opened HashTable
  import opened SlotSeqlock
  import opened FlowPipeline
  import opened PipelineInvariant
  import opened PipelineDispatch
  import opened PipelineTheorems

  ghost predicate Reachable(s: State) {
    exists start, n, slots, steps :: Init(start, n, slots) && Run(start, steps) == Some(s)
  }

  lemma {:induction false} RunAppend(s: State, steps: seq<Step>, step: Step)
    requires Run(s, steps).Some? && Enabled(Run(s, steps).value, step)
    ensures Run(s, steps + [step]) == Some(Do(Run(s, steps).value, step))
    decreases steps
  {
    var all := steps + [step];
    if steps == [] {
      assert all == [step];
      assert Run(Do(s, step), []) == Some(Do(s, step));
    } else {
      RunAppend(Do(s, steps[0]), steps[1..], step);
      assert all[1..] == steps[1..] + [step];
    }
  }

  lemma ReachableInv(s: State)
    requires Reachable(s)
    ensures Inv(s)
  {
    var start, n, slots, steps :| Init(start, n, slots) && Run(start, steps) == Some(s);
    InitInv(start, n, slots);
    RunKeepsInv(start, steps);
  }

  lemma Next(s: State, step: Step) returns (s': State)
    requires Reachable(s) && Enabled(s, step)
    ensures s' == Do(s, step) && Reachable(s')
  {
    s' := Do(s, step);
    var start, n, slots, steps :| Init(start, n, slots) && Run(start, steps) == Some(s);
    RunAppend(start, steps, step);
    assert Run(start, steps + [step]) == Some(s');
  }

  /** s' is s with the publication in progress completed and its packet stamped. */
  ghost predicate Completed(s: State, s': State) {
    var w := s.side.writer;
    && w.Busy? && s.side.Has(w.slot) && s'.side.writer.Quiet?
    && s'.hash == s.hash && s'.held == s.held && s'.counters == s.counters.(created := s.counters.created + 1)
    && SlotFilled(s.side, s'.side, w.slot, w.pub)
    && exists t: Stamp, buffers :: t.slot == w.slot && s'.disp == Advanced(s.disp, [Resolved(s.disp.next, t)], buffers)
  }

  /** Slot p was published, the other slots are as they were. */
  ghost predicate SlotFilled(side: Side, side': Side, p: nat, pub: Pub) {
    && |side'.log| == |side.log| && |side'.hot| == |side.hot| && p < |side.log| && p < |side.hot|
    && (forall q | 0 <= q < |side.log| ::
          side'.log[q] == if q != p || side.Rewriting(q) then side.log[q] else side.log[q] + [pub])
    && (forall q | 0 <= q < |side.hot| && q != p :: side'.hot[q] == side.hot[q])
    && side'.hot[p].lastSeen == pub.tsc
  }

  lemma FilledOneEarlier(side: Side, side': Side)
    requires SideInv(side) && CanWrite(side) && !side.writer.stage.SetLastSeen?
    requires SlotFilled(WriterStep(side), side', side.writer.slot, side.writer.pub)
    ensures SlotFilled(side, side', side.writer.slot, side.writer.pub)
  {
  }

  lemma CompletedOneEarlier(s: State, s': State)
    requires SideInv(s.side) && CanWrite(s.side) && !s.side.writer.stage.SetLastSeen?
    requires Completed(s.(side := WriterStep(s.side)), s')
    ensures Completed(s, s')
  {
    FilledOneEarlier(s.side, s'.side);
  }

  lemma CompletedLast(s: State)
    requires Inv(s) && s.disp.pc.Publishing? && CanWrite(s.side) && s.side.writer.stage.SetLastSeen?
    requires HasNext(s.disp) && s.side.hot[s.side.writer.slot].worker < |s.disp.buffers|
    ensures Completed(s, DoWrite(s))
  {
    PublishingFacts(s.hash, s.side, s.disp, s.held);
    LastWriteSide(s.side, s.flowHash, s.packets, s.disp);
    var t := CurrentStamp(WriterStep(s.side), s.side.writer.slot);
    LastWriteResult(s, t);
    assert t.slot == s.side.writer.slot && DoWrite(s).disp ==
      Advanced(s.disp, [Resolved(s.disp.next, t)], Appended(s.disp.buffers, t.worker, |s.packets|));
  }

  lemma WriteIsEnabled(s: State)
    requires Reachable(s) && s.disp.pc.Publishing?
    ensures SideInv(s.side) && Enabled(s, Write)
  {
    ReachableInv(s);
    RangesAlwaysHold(s);
  }

  lemma WriteMiddle(s: State) returns (s': State)
    requires Reachable(s) && s.disp.pc.Publishing? && Enabled(s, Write) && !s.side.writer.stage.SetLastSeen?
    ensures Reachable(s') && s' == s.(side := WriterStep(s.side))
  {
    s' := Next(s, Write);
  }

  lemma WriteLast(s: State) returns (s': State)
    requires Reachable(s) && s.disp.pc.Publishing? && Enabled(s, Write) && s.side.writer.stage.SetLastSeen?
    ensures Reachable(s') && Completed(s, s')
  {
    ReachableInv(s);
    CompletedLast(s);
    s' := Next(s, Write);
  }

  /** Running all accesses of the publication in progress. */
  lemma {:induction false} FinishPublishing(s: State) returns (s': State)
    requires Reachable(s) && s.disp.pc.Publishing?
    ensures Reachable(s') && Completed(s, s')
    decreases Remaining(s.side.writer)
  {
    WriteIsEnabled(s);
    if s.side.writer.stage.SetLastSeen? {
      s' := WriteLast(s);
    } else {
      var s1 := WriteMiddle(s);
      s' := FinishPublishing(s1);
      CompletedOneEarlier(s, s');
    }
  }

  // ---------------------------------------------------------------- the run

  function SmallKey(n: u8): Key { Key(n, n, n, n, PROTO_UDP) }

  function SmallFrame(n: u8): (f: Frame)
    ensures WellFormed(f)
  {
    Frame(seq(12, i => 0), 4, 5, 0, 0, 0, 0, 0, 0, [], SmallKey(n), [])
  }

  lemma InputFor(n: u8) returns (input: Input)
    ensures input.key == SmallKey(n) && ExtractKey(input.data, |input.data|) == ParseOk(input.key)
  {
    SerialiseThenParse(SmallFrame(n));
    input := Input(Serialise(SmallFrame(n)), SmallKey(n));
  }

  /** A run starts with n slots. */
  lemma Start(n: nat) returns (s: State)
    ensures Reachable(s) && s.disp.pc.Idle? && s.held == [] && s.counters == Counters(0, 0, 0)
    ensures s.hash == Quiescent(EmptyHash(n), DispatcherActor) && s.side == ZeroSide(n)
  {
    s := State(Quiescent(EmptyHash(n), DispatcherActor), ZeroSide(n),
               Disp(Idle, [], [], 0, [], false, 0, NO_BUFFERS), [],
               [IDLE_WORKER, IDLE_WORKER, IDLE_WORKER, IDLE_WORKER], [], [], k => 0, Counters(0, 0, 0));
    assert Init(s, n, n) && Run(s, []) == Some(s);
  }

  /** Only the dispatcher's own part of the state and the workers have changed. */
  ghost predicate SameShared(s: State, s': State) {
    s'.side == s.side && s'.held == s.held && s'.counters == s.counters
  }

  lemma DropOne(s: State) returns (s': State)
    requires Reachable(s) && s.disp.pc.Enqueueing? && s.disp.pc.worker < NUM_WORKERS
    requires |s.workers| == |s.disp.buffers| == NUM_WORKERS
    ensures Reachable(s') && SameShared(s, s') && |s'.workers| == |s'.disp.buffers| == NUM_WORKERS
    ensures if s.disp.pc.worker + 1 < NUM_WORKERS
            then s'.hash == s.hash && s'.disp.pc == Enqueueing(s.disp.pc.worker + 1)
            else s'.hash == Quiescent(s.hash, DispatcherActor) && s'.disp.pc.Idle?
  {
    s' := Next(s, Enqueue(0));
  }

  lemma BuffersAreFour(s: State)
    requires Reachable(s)
    ensures |s.workers| == |s.disp.buffers| == NUM_WORKERS
  {
    ReachableInv(s);
  }

  /** The end of a burst, with every ring full. */
  lemma DropBuffers(s: State) returns (s': State)
    requires Reachable(s) && s.disp.pc.Ready? && s.disp.next == |s.disp.burst|
    ensures Reachable(s') && s'.disp.pc.Idle? && SameShared(s, s')
    ensures s'.hash == Quiescent(s.hash, DispatcherActor)
  {
    BuffersAreFour(s);
    var s1 := Next(s, EndPackets);
    var s2 := DropOne(s1);
    var s3 := DropOne(s2);
    var s4 := DropOne(s3);
    s' := DropOne(s4);
  }

  lemma LookUp(s: State) returns (s': State)
    requires Reachable(s) && s.disp.pc.LookingUp? && |s.disp.positions| < |s.disp.burst|
    ensures Reachable(s') && s' == s.(disp := LookedUp(s.hash, s.disp))
  {
    s' := Next(s, LookupNext);
  }

  lemma Begun(s: State, inputs: seq<Input>, tsc: nat) returns (s': State)
    requires Reachable(s) && Enabled(s, StartBurst(inputs, tsc))
    ensures Reachable(s') && s' == s.(disp := Disp(LookingUp, inputs, [], 0, [], false, tsc, s.disp.buffers))
  {
    s' := Next(s, StartBurst(inputs, tsc));
  }

  /** The next packet's key gets the oldest free slot; its publication begins. */
  lemma AddBegins(s: State) returns (s': State)
    requires Reachable(s) && (s.disp.pc.Ready? || s.disp.pc.Retry?) && HasNext(s.disp) && !Seen(s.disp, NextKey(s.disp))
    requires s.disp.positions[s.disp.next] < 0 && NextKey(s.disp) !in s.hash.mapped
    requires s.hash.free != [] && s.hash.free[0] < |s.hash.keyStore|
    ensures Reachable(s') && s'.hash == Insert(s.hash, NextKey(s.disp)) && s'.disp == s.disp.(pc := Publishing)
    ensures s'.side
      == Begin(s.side, s.hash.free[0], Pub(NextKey(s.disp), s.disp.tsc, WorkerOf(s.flowHash, NextKey(s.disp))))
    ensures s'.held == s.held && s'.counters == s.counters
  {
    s' := Next(s, AddFlow);
  }

  /** A flow was created for key k in the oldest free slot, at time tsc. */
  ghost predicate Created(s: State, s': State, k: Key, tsc: nat) {
    && s.hash.free != [] && s'.held == s.held && s'.counters == s.counters.(created := s.counters.created + 1)
    && exists pub: Pub :: pub.key == k && pub.tsc == tsc && SlotFilled(s.side, s'.side, s.hash.free[0], pub)
  }

  /** The next packet's flow is added and published. */
  lemma AddNext(s: State) returns (s': State)
    requires Reachable(s) && (s.disp.pc.Ready? || s.disp.pc.Retry?) && HasNext(s.disp) && s.disp.resolved == []
    requires s.disp.positions[s.disp.next] < 0 && NextKey(s.disp) !in s.hash.mapped
    requires s.hash.free != [] && s.hash.free[0] < |s.hash.keyStore|
    ensures Reachable(s') && s'.hash == Insert(s.hash, NextKey(s.disp)) && Created(s, s', NextKey(s.disp), s.disp.tsc)
    ensures exists t: Stamp, buffers ::
      t.slot == s.hash.free[0] && s'.disp == Advanced(s.disp.(pc := Publishing), [Resolved(s.disp.next, t)], buffers)
  {
    var s1 := AddBegins(s);
    s' := FinishPublishing(s1);
    FilledSinceBegin(s, s1, s');
  }

  lemma FilledSinceBegin(s: State, s1: State, s': State)
    requires Reachable(s) && !s.disp.pc.Publishing? && Completed(s1, s') && s.hash.free != []
    requires s1.held == s.held && s1.counters == s.counters && HasNext(s.disp)
    requires s1.side
      == Begin(s.side, s.hash.free[0], Pub(NextKey(s.disp), s.disp.tsc, WorkerOf(s.flowHash, NextKey(s.disp))))
    ensures Created(s, s', NextKey(s.disp), s.disp.tsc)
  {
    ReachableInv(s);
    assert s.side.writer.Quiet?;
    assert SlotFilled(s.side, s'.side, s.hash.free[0], s1.side.writer.pub);
  }

  /** A burst of one packet, after its lookup. */
  lemma OnePacket(s: State, n: u8, tsc: nat) returns (s': State)
    requires Reachable(s) && s.disp.pc.Idle? && tsc > 0
    ensures Reachable(s') && s'.hash == s.hash && SameShared(s, s') && s'.disp.pc.Ready?
    ensures |s'.disp.burst| == 1 && s'.disp.burst[0].key == SmallKey(n)
    ensures s'.disp.positions == [Lookup(s.hash, SmallKey(n))]
    ensures s'.disp.next == 0 && s'.disp.resolved == [] && s'.disp.tsc == tsc && !s'.disp.replaced
  {
    var input := InputFor(n);
    var s1 := Begun(s, [input], tsc);
    s' := LookUp(s1);
  }

  /** A burst of one packet that creates its flow. */
  lemma AddBurst(s: State, n: u8, tsc: nat) returns (s': State)
    requires Reachable(s) && s.disp.pc.Idle? && tsc > 0 && SmallKey(n) !in s.hash.mapped
    requires s.hash.free != [] && s.hash.free[0] < |s.hash.keyStore|
    ensures Reachable(s') && s'.disp.pc.Idle? && Created(s, s', SmallKey(n), tsc)
    ensures s'.hash == Quiescent(Insert(s.hash, SmallKey(n)), DispatcherActor)
  {
    var s1 := OnePacket(s, n, tsc);
    var s2 := AddNext(s1);
    s' := DropBuffers(s2);
  }

  // ---------------------------------------------------------------- steps of a replacement

  lemma AddRefused(s: State) returns (s': State)
    requires Reachable(s) && s.disp.pc.Ready? && HasNext(s.disp) && s.disp.resolved == []
    requires s.disp.positions[s.disp.next] < 0 && NextKey(s.disp) !in s.hash.mapped
    ensures Reachable(s') && s' == s.(disp := s.disp.(pc := Evicting(0)))
  {
    s' := Next(s, AddFails);
  }

  lemma VictimIsValid(s: State, p: nat)
    requires Reachable(s) && s.disp.pc.Evicting? && s.hash.Occupied(p)
    ensures s.side.Has(p) && VictimValid(s, p, GenAfter(|s.side.log[p]|))
    ensures KeyFromCold(s.side.cold[p]) == s.hash.keyStore[p]
  {
    ReachableInv(s);
    assert OwnerIs(s.side, p, s.hash.keyStore[p]);
    VictimValidIff(s, p, GenAfter(|s.side.log[p]|));
  }

  /** The flow of slot p is tried and evicted. */
  lemma EvictSlot(s: State, p: nat) returns (s': State)
    requires Reachable(s) && s.disp.pc.Evicting? && s.hash.Occupied(p)
    ensures Reachable(s')
    ensures s' == s.(hash := Del(s.hash, s.hash.keyStore[p]), disp := s.disp.(pc := Evicting(s.disp.pc.evicted + 1)))
  {
    VictimIsValid(s, p);
    var s1 := Next(s, ValidateVictim(p, GenAfter(|s.side.log[p]|)));
    s' := Next(s1, DeleteVictim);
  }

  lemma EndEviction(s: State) returns (s': State)
    requires Reachable(s) && s.disp.pc.Evicting? && s.disp.pc.evicted > 0
    ensures Reachable(s') && s' == s.(disp := s.disp.(pc := Retry, replaced := true),
                                      hash := Quiescent(s.hash, DispatcherActor), counters := s'.counters)
    ensures s'.counters
      == Counters(s.counters.created, s.counters.deleted + 1, s.counters.surplus + s.disp.pc.evicted - 1)
  {
    s' := Next(s, EndReplacement);
  }

  lemma Reclaimed(s: State) returns (s': State)
    requires Reachable(s) && CanReclaim(s.hash)
    ensures Reachable(s') && s' == s.(hash := ReclaimOne(s.hash))
  {
    s' := Next(s, ReclaimStep);
  }

  // ---------------------------------------------------------------- a hit on a reused slot

  lemma OneSlot()
    ensures Quiescent(EmptyHash(1), DispatcherActor) == Hash(map[], [ZERO_KEY], [0], [], 1, 1, 0)
  {
    assert EmptyHash(1).keyStore == [ZERO_KEY] && EmptyHash(1).free == [0];
  }

  /** First burst: flow 1 takes the only slot. */
  lemma FirstBurst() returns (s: State)
    ensures Reachable(s) && s.disp.pc.Idle? && |s.side.log| == |s.side.hot| == 1
    ensures s.side.hot[0].lastSeen == 1 && s.held == []
    ensures s.hash == Hash(map[SmallKey(1) := 0], [SmallKey(1)], [], [], 1, 1, 0)
  {
    var s0 := Start(1);
    OneSlot();
    s := AddBurst(s0, 1, 1);
  }

  lemma SecondBurstLookups(s: State) returns (s': State)
    requires Reachable(s) && s.disp.pc.Idle?
    requires s.hash == Hash(map[SmallKey(1) := 0], [SmallKey(1)], [], [], 1, 1, 0)
    ensures Reachable(s') && s'.disp.pc.Ready? && s'.side == s.side && s'.hash == s.hash
    ensures s'.disp.positions == [-1, 0] && s'.disp.next == 0 && s'.disp.resolved == []
    ensures |s'.disp.burst| == 2 && s'.disp.burst[0].key == SmallKey(2) && s'.disp.burst[1].key == SmallKey(1)
  {
    var first := InputFor(2);
    var second := InputFor(1);
    var s1 := Begun(s, [first, second], 2);
    var s2 := LookUp(s1);
    assert s2.disp.positions == [-1];
    s' := LookUp(s2);
  }

  /** Flow 1 is replaced, its slot reclaimed. */
  lemma Replacement(s: State) returns (s': State)
    requires Reachable(s) && s.disp.pc.Ready? && HasNext(s.disp) && s.disp.positions[s.disp.next] == -1
    requires s.disp.resolved == [] && NextKey(s.disp) == SmallKey(2)
    requires s.hash == Hash(map[SmallKey(1) := 0], [SmallKey(1)], [], [], 1, 1, 0)
    ensures Reachable(s') && s'.disp == s.disp.(pc := Retry, replaced := true) && s'.side == s.side
    ensures s'.hash.free == [0] && s'.hash.mapped == map[] && |s'.hash.keyStore| == 1
  {
    var s1 := AddRefused(s);
    var s2 := EvictSlot(s1, 0);
    assert s2.hash == Hash(map[], [SmallKey(1)], [], [Deferred(0, 2)], 2, 1, 0);
    var s3 := EndEviction(s2);
    s' := Reclaimed(s3);
  }

  lemma HitIsNext(s: State)
    requires Reachable(s) && s.disp.pc.Ready? && HasNext(s.disp) && !Seen(s.disp, NextKey(s.disp))
    requires s.disp.positions[s.disp.next] == 0
    ensures s.side.Has(0) && Enabled(s, UseHit)
  {
    ReachableInv(s);
    RangesAlwaysHold(s);
  }

  /** There is a run from the start, with a single slot, two flows and one replacement, in which
      a lookup hit stamps a packet with a slot that now belongs to the other flow. */
  lemma ReusedHitHappens() returns (s: State)
    ensures Reachable(s) && Enabled(s, UseHit) && ReusedHit(s, UseHit)
    ensures s.side.Has(0) && s.side.log[0] != [] && s.disp.positions[s.disp.next] == 0
    ensures s.side.Owner(0) == SmallKey(2) && NextKey(s.disp) == SmallKey(1)
  {
    var s0 := FirstBurst();
    var s1 := SecondBurstLookups(s0);
    var s2 := Replacement(s1);
    s := AddNext(s2);
    assert s.disp.resolved[0].stamp.slot == 0;
    ReachableInv(s2);
    HitIsNext(s);
  }
}
