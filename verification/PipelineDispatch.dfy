/** The dispatcher's steps keep the invariant of the pipeline. */
module PipelineDispatch {
  import opened FlowTypes
  import opened Generation
  import opened FlowPacket
  import opened RuleEngine
  import opened HashTable
  import opened SlotSeqlock
  import opened FlowPipeline
  import opened PipelineInvariant

  // ---------------------------------------------------------------- the bulk lookup

  lemma StartKeepsInv(s: State, inputs: seq<Input>, tsc: nat)
    requires Inv(s) && Enabled(s, StartBurst(inputs, tsc))
    ensures Inv(s.(disp := Disp(LookingUp, inputs, [], 0, [], false, tsc, s.disp.buffers)))
  {
  }

  function LookedUp(h: Hash, d: Disp): Disp
    requires |d.positions| < |d.burst|
  {
    var positions := d.positions + [Lookup(h, d.burst[|d.positions|].key)];
    d.(positions := positions, pc := if |positions| == |d.burst| then Ready else LookingUp)
  }

  lemma LookupKeepsHashPart(h: Hash, side: Side, d: Disp, held: seq<(Key, nat)>)
    requires HashPart(h, side, d, held) && d.pc.LookingUp? && |d.positions| < |d.burst|
    ensures HashPart(h, side, LookedUp(h, d), held)
  {
    var d', k := LookedUp(h, d), d.burst[|d.positions|].key;
    if k in h.mapped {
      assert h.Occupied(h.mapped[k]);
      assert Held(h, DispatcherActor, k, h.mapped[k]);
    }
  }

  lemma LookupKeepsSidePart(h: Hash, side: Side, flowHash: Key -> u32, packets: seq<Packet>, d: Disp)
    requires SidePart(side, flowHash, packets, d) && d.pc.LookingUp? && |d.positions| < |d.burst|
    requires HashTable.Valid(h) && CoupleInv(h, side) && side.writer.Quiet? && d.resolved == []
    ensures SidePart(side, flowHash, packets, LookedUp(h, d))
  {
    var d', n := LookedUp(h, d), |d.positions|;
    forall j | 0 <= j < |d'.positions| && d'.positions[j] >= 0 && !Seen(d', d'.burst[j].key)
      ensures PositionInv(side, d', j) {
      if j < n {
        assert !Seen(d, d.burst[j].key);
        assert PositionInv(side, d, j);
      } else {
        var p := h.mapped[d.burst[n].key];
        assert h.Occupied(p) && p !in h.free;
        assert OwnerIs(side, p, h.keyStore[p]);
      }
    }
  }

  lemma LookupKeepsInv(s: State)
    requires Inv(s) && s.disp.pc.LookingUp? && |s.disp.positions| < |s.disp.burst|
    ensures Inv(s.(disp := LookedUp(s.hash, s.disp)))
  {
    LookupKeepsHashPart(s.hash, s.side, s.disp, s.held);
    LookupKeepsSidePart(s.hash, s.side, s.flowHash, s.packets, s.disp);
  }

  // ---------------------------------------------------------------- hits and duplicates

  lemma StampWorkerBound(side: Side, flowHash: Key -> u32, t: Stamp)
    requires LogInv(side, flowHash) && StampInv(side, t)
    ensures t.worker == WorkerOf(flowHash, Source(side, t).key) && t.worker < NUM_WORKERS
  {
  }

  /** On a slot at rest the current generation stamps its latest publication. */
  lemma CurrentStampInv(side: Side, p: nat)
    requires SideInv(side) && side.writer.Quiet? && side.Has(p) && side.log[p] != []
    ensures StampInv(side, CurrentStamp(side, p))
    ensures Source(side, CurrentStamp(side, p)).key == side.Owner(p)
  {
    assert SlotInv(side, p);
  }

  lemma TouchKeepsCouple(h: Hash, side: Side, p: nat, tsc: nat)
    requires CoupleInv(h, side) && side.Has(p)
    ensures CoupleInv(h, Touch(side, p, tsc))
  {
    var side' := Touch(side, p, tsc);
    forall q | 0 <= q < |h.keyStore| && q !in h.free ensures OwnerIs(side', q, h.keyStore[q]) {
      assert OwnerIs(side, q, h.keyStore[q]);
    }
  }

  function Appended(buffers: seq<seq<nat>>, w: nat, id: nat): seq<seq<nat>>
    requires w < |buffers|
  {
    buffers[w := buffers[w] + [id]]
  }

  lemma TouchedHashPart(h: Hash, side: Side, d: Disp, held: seq<(Key, nat)>, t: Stamp, extra: seq<Resolved>, id: nat)
    requires HashPart(h, side, d, held) && d.pc.Ready? && HasNext(d) && side.Has(t.slot) && t.worker < NUM_WORKERS
    ensures |d.buffers| == NUM_WORKERS && d.tsc > 0
    ensures HashPart(h, Touch(side, t.slot, d.tsc), Advanced(d, extra, Appended(d.buffers, t.worker, id)), held)
  {
    TouchKeepsCouple(h, side, t.slot, d.tsc);
    AdvanceHashPart(h, side, Touch(side, t.slot, d.tsc), d, extra, Appended(d.buffers, t.worker, id), held);
  }

  lemma TouchKeepsSidePart(side: Side, flowHash: Key -> u32, packets: seq<Packet>, d: Disp, t: Stamp, tsc: nat)
    requires SidePart(side, flowHash, packets, d) && side.writer.Quiet? && tsc > 0 && StampInv(side, t)
    ensures SidePart(Touch(side, t.slot, tsc), flowHash, packets, d)
    ensures StampInv(Touch(side, t.slot, tsc), t)
    ensures Touch(side, t.slot, tsc).Owner(t.slot) == side.Owner(t.slot)
  {
    TouchIsAccess(side, t.slot, tsc);
    AccessKeepsSidePart(side, Touch(side, t.slot, tsc), flowHash, packets, d);
  }

  lemma TouchedSidePart(side: Side, flowHash: Key -> u32, packets: seq<Packet>, d: Disp, t: Stamp,
                        extra: seq<Resolved>, buffers: seq<seq<nat>>)
    requires SidePart(side, flowHash, packets, d) && side.writer.Quiet? && HasNext(d) && d.tsc > 0
    requires StampInv(side, t)
    requires ExtractKey(d.burst[d.next].data, |d.burst[d.next].data|) == ParseOk(d.burst[d.next].key)
    requires extra == [] || (extra == [Resolved(d.next, t)] && Seen(Advanced(d, extra, buffers), side.Owner(t.slot)))
    ensures SidePart(Touch(side, t.slot, d.tsc), flowHash, packets + [Packet(d.burst[d.next], t)],
                     Advanced(d, extra, buffers))
  {
    TouchKeepsSidePart(side, flowHash, packets, d, t, d.tsc);
    AdvanceSidePart(Touch(side, t.slot, d.tsc), flowHash, packets, d, extra, buffers, Packet(d.burst[d.next], t));
  }

  lemma TouchedWorkerPart(side: Side, packets: seq<Packet>, workers: seq<WorkerState>, buffers: seq<seq<nat>>,
                          input: Input, t: Stamp, tsc: nat)
    requires SideInv(side) && WorkerPart(side, packets, workers, buffers)
    requires StampInv(side, t) && t.worker < NUM_WORKERS
    ensures WorkerPart(Touch(side, t.slot, tsc), packets + [Packet(input, t)], workers,
                       Appended(buffers, t.worker, |packets|))
  {
    TouchKeepsReaders(side, t.slot, tsc);
    ReadersCarryOver(side, Touch(side, t.slot, tsc), packets, workers, buffers);
    NewPacketKeepsWorkers(Touch(side, t.slot, tsc), packets, workers, buffers, Packet(input, t));
  }

  lemma DuplicateStamp(side: Side, flowHash: Key -> u32, packets: seq<Packet>, d: Disp, r: nat)
    requires SidePart(side, flowHash, packets, d) && r < |d.resolved|
    ensures StampInv(side, d.resolved[r].stamp) && d.resolved[r].stamp.worker < NUM_WORKERS
  {
    assert EntryInv(side, d, d.resolved[r]);
    StampWorkerBound(side, flowHash, d.resolved[r].stamp);
  }

  lemma ReuseResult(s: State, t: Stamp)
    requires HasNext(s.disp) && s.side.Has(t.slot) && t.worker < |s.disp.buffers|
    ensures DoReuse(s, t) == s.(side := Touch(s.side, t.slot, s.disp.tsc),
                                packets := s.packets + [Packet(s.disp.burst[s.disp.next], t)],
                                disp := Advanced(s.disp, [], Appended(s.disp.buffers, t.worker, |s.packets|)))
  {
    assert s.disp.resolved + [] == s.disp.resolved;
  }

  lemma ReuseKeepsInv(s: State, r: nat)
    requires Inv(s) && s.disp.pc.Ready? && HasNext(s.disp) && IsDuplicate(s.disp, r)
    ensures s.side.Has(s.disp.resolved[r].stamp.slot) && s.disp.resolved[r].stamp.worker < |s.disp.buffers|
    ensures Inv(DoReuse(s, s.disp.resolved[r].stamp))
  {
    var d, t := s.disp, s.disp.resolved[r].stamp;
    DuplicateStamp(s.side, s.flowHash, s.packets, d, r);
    TouchedHashPart(s.hash, s.side, d, s.held, t, [], |s.packets|);
    TouchedSidePart(s.side, s.flowHash, s.packets, d, t, [], Appended(d.buffers, t.worker, |s.packets|));
    TouchedWorkerPart(s.side, s.packets, s.workers, d.buffers, d.burst[d.next], t, d.tsc);
    ReuseResult(s, t);
  }

  /** The owner of the slot a lookup hit names is either the packet's key or a key that this
      burst has already resolved. */
  lemma HitOwner(side: Side, flowHash: Key -> u32, packets: seq<Packet>, d: Disp)
    requires SidePart(side, flowHash, packets, d) && side.writer.Quiet?
    requires HasNext(d) && !Seen(d, NextKey(d)) && d.positions[d.next] >= 0
    ensures var p := d.positions[d.next];
      && side.Has(p) && side.log[p] != []
      && (InResolved(d, p) ==> Seen(d, side.Owner(p)))
      && (!InResolved(d, p) ==> side.Owner(p) == NextKey(d))
  {
    var p := d.positions[d.next];
    assert PositionInv(side, d, d.next);
    if InResolved(d, p) {
      var r :| 0 <= r < |d.resolved| && d.resolved[r].stamp.slot == p;
      assert EntryInv(side, d, d.resolved[r]);
    }
  }

  lemma HitStamp(side: Side, flowHash: Key -> u32, packets: seq<Packet>, d: Disp, id: nat)
    requires SidePart(side, flowHash, packets, d) && side.writer.Quiet? && |d.buffers| == NUM_WORKERS
    requires HasNext(d) && !Seen(d, NextKey(d)) && d.positions[d.next] >= 0
    ensures var p := d.positions[d.next];
      && side.Has(p) && side.log[p] != []
      && var t := CurrentStamp(side, p);
         && StampInv(side, t) && t.worker < NUM_WORKERS
         && Seen(Advanced(d, [Resolved(d.next, t)], Appended(d.buffers, t.worker, id)), side.Owner(p))
  {
    var p := d.positions[d.next];
    HitOwner(side, flowHash, packets, d);
    CurrentStampInv(side, p);
    var t := CurrentStamp(side, p);
    StampWorkerBound(side, flowHash, t);
    NextIsSeen(d, t, Appended(d.buffers, t.worker, id));
    SeenGrows(d, [Resolved(d.next, t)], Appended(d.buffers, t.worker, id), side.Owner(p));
  }

  lemma HitKeepsInv(s: State)
    requires Inv(s) && s.disp.pc.Ready? && HasNext(s.disp)
    requires !Seen(s.disp, NextKey(s.disp)) && s.disp.positions[s.disp.next] >= 0
    ensures s.side.Has(s.disp.positions[s.disp.next])
    ensures s.side.hot[s.disp.positions[s.disp.next]].worker < |s.disp.buffers|
    ensures Inv(DoHit(s, s.disp.positions[s.disp.next]))
  {
    var d, id := s.disp, |s.packets|;
    HitStamp(s.side, s.flowHash, s.packets, d, id);
    var t := CurrentStamp(s.side, d.positions[d.next]);
    var extra := [Resolved(d.next, t)];
    TouchedHashPart(s.hash, s.side, d, s.held, t, extra, id);
    TouchedSidePart(s.side, s.flowHash, s.packets, d, t, extra, Appended(d.buffers, t.worker, id));
    TouchedWorkerPart(s.side, s.packets, s.workers, d.buffers, d.burst[d.next], t, d.tsc);
    HitResult(s, t.slot);
  }

  lemma HitResult(s: State, p: nat)
    requires HasNext(s.disp) && s.side.Has(p) && s.side.hot[p].worker < |s.disp.buffers|
    ensures var t := CurrentStamp(s.side, p);
      DoHit(s, p) == s.(side := Touch(s.side, p, s.disp.tsc),
                        packets := s.packets + [Packet(s.disp.burst[s.disp.next], t)],
                        disp := Advanced(s.disp, [Resolved(s.disp.next, t)],
                                         Appended(s.disp.buffers, t.worker, |s.packets|)))
  {
  }

  // ---------------------------------------------------------------- adding and publishing a flow

  /** A key the bulk lookup missed and the burst has not resolved is still absent. */
  lemma MissedKeyIsAbsent(h: Hash, d: Disp)
    requires MissInv(h, d) && HasNext(d) && !Seen(d, NextKey(d)) && d.positions[d.next] < 0 && !d.pc.Publishing?
    ensures NextKey(d) !in h.mapped
  {
  }

  lemma InsertKeepsCouple(h: Hash, side: Side, k: Key, pub: Pub)
    requires HashTable.Valid(h) && CoupleInv(h, side) && side.writer.Quiet? && h.free != [] && pub.key == k
    ensures CoupleInv(Insert(h, k), Begin(side, h.free[0], pub))
  {
    var h', side', p := Insert(h, k), Begin(side, h.free[0], pub), h.free[0];
    forall q | 0 <= q < |h'.keyStore| && q !in h'.free ensures OwnerIs(side', q, h'.keyStore[q]) {
      if q != p {
        assert forall i | 0 < i < |h.free| :: h.free[i] == h'.free[i - 1];
        assert q !in h.free;
        assert OwnerIs(side, q, h.keyStore[q]);
      }
    }
  }

  lemma AddKeepsHashPart(h: Hash, side: Side, d: Disp, held: seq<(Key, nat)>, pub: Pub)
    requires HashPart(h, side, d, held) && (d.pc.Ready? || d.pc.Retry?) && HasNext(d)
    requires !Seen(d, NextKey(d)) && d.positions[d.next] < 0 && h.free != []
    requires pub.key == NextKey(d) && pub.tsc == d.tsc
    ensures NextKey(d) !in h.mapped
    ensures HashPart(Insert(h, pub.key), Begin(side, h.free[0], pub), d.(pc := Publishing), held)
  {
    MissedKeyIsAbsent(h, d);
    var h', side', d' := Insert(h, pub.key), Begin(side, h.free[0], pub), d.(pc := Publishing);
    InsertKeepsValid(h, pub.key);
    InsertKeepsCouple(h, side, pub.key, pub);
    forall a, j, p | Held(h, a, j, p) ensures Held(h', a, j, p) { HeldSurvivesInsert(h, a, j, p, pub.key); }
    LookedUpSurvives(h, h', d');
    assert forall k :: Seen(d, k) <==> Seen(d', k);
  }

  lemma AddKeepsInv(s: State)
    requires Inv(s) && (s.disp.pc.Ready? || s.disp.pc.Retry?) && HasNext(s.disp)
    requires !Seen(s.disp, NextKey(s.disp)) && s.disp.positions[s.disp.next] < 0
    requires NextKey(s.disp) in s.hash.mapped || (s.hash.free != [] && s.hash.free[0] < |s.hash.keyStore|)
    ensures Inv(DoAdd(s))
  {
    var d := s.disp;
    MissedKeyIsAbsent(s.hash, d);
    var k, p := NextKey(d), s.hash.free[0];
    var pub := Pub(k, d.tsc, WorkerOf(s.flowHash, k));
    AddKeepsHashPart(s.hash, s.side, d, s.held, pub);
    PcChangeKeepsSidePart(s.side, s.flowHash, s.packets, d, d.(pc := Publishing));
    BeginIsAccess(s.side, p, pub);
    AccessKeepsSidePart(s.side, Begin(s.side, p, pub), s.flowHash, s.packets, d.(pc := Publishing));
    BeginKeepsReaders(s.side, p, pub);
    ReadersCarryOver(s.side, Begin(s.side, p, pub), s.packets, s.workers, d.buffers);
  }

  lemma WriterKeepsCouple(h: Hash, side: Side)
    requires CoupleInv(h, side) && SideInv(side) && CanWrite(side)
    requires side.writer.slot < |h.keyStore| && h.keyStore[side.writer.slot] == side.writer.pub.key
    ensures CoupleInv(h, WriterStep(side))
  {
    var side', p := WriterStep(side), side.writer.slot;
    assert SlotInv(side, p);
    forall q | 0 <= q < |h.keyStore| && q !in h.free ensures OwnerIs(side', q, h.keyStore[q]) {
      assert OwnerIs(side, q, h.keyStore[q]);
    }
  }

  lemma WriteKeepsInv(s: State)
    requires Inv(s) && s.disp.pc.Publishing? && CanWrite(s.side) && !s.side.writer.stage.SetLastSeen?
    ensures Inv(s.(side := WriterStep(s.side)))
  {
    var side' := WriterStep(s.side);
    WriterKeepsCouple(s.hash, s.side);
    WriterKeepsLog(s.side, s.flowHash);
    WriterStepIsAccess(s.side);
    AccessKeepsSidePart(s.side, side', s.flowHash, s.packets, s.disp);
    WriterKeepsReaders(s.side);
    ReadersCarryOver(s.side, side', s.packets, s.workers, s.disp.buffers);
  }

  /** The last access of a publication: the slot is at rest, owned by the packet's key. */
  lemma LastWriteSide(side: Side, flowHash: Key -> u32, packets: seq<Packet>, d: Disp)
    requires SidePart(side, flowHash, packets, d) && CanWrite(side) && side.writer.stage.SetLastSeen?
    requires HasNext(d) && side.writer.pub.key == NextKey(d)
    ensures var side', p := WriterStep(side), side.writer.slot;
      && SideInv(side') && LogInv(side', flowHash) && PacketsInv(side', packets)
      && side'.Has(p) && side'.log[p] != [] && side'.Owner(p) == NextKey(d)
      && StampInv(side', CurrentStamp(side', p)) && CurrentStamp(side', p).worker < NUM_WORKERS
  {
    var side', p := WriterStep(side), side.writer.slot;
    WriterStepKeepsSide(side);
    assert SlotInv(side, p);
    forall i | 0 <= i < |packets| ensures StampInv(side', packets[i].stamp) {
      StampSurvivesWriter(side, packets[i].stamp);
    }
    CurrentStampInv(side', p);
    StampWorkerBound(side', flowHash, CurrentStamp(side', p));
  }

  /** side' is side with the publication of the next packet's slot ended. */
  ghost predicate Ended(side: Side, side': Side, d: Disp) {
    && HasNext(d) && side.writer.Busy? && side'.writer.Quiet?
    && side'.log == side.log && |side'.hot| == |side'.cold| == |side'.log|
    && side.Has(side.writer.slot) && side.log[side.writer.slot] != []
    && side.Owner(side.writer.slot) == NextKey(d)
    && forall t | StampInv(side, t) :: StampInv(side', t)
  }

  lemma EndedEntry(side: Side, side': Side, d: Disp, t: Stamp, buffers: seq<seq<nat>>, r: Resolved)
    requires Ended(side, side', d) && t.slot == side.writer.slot
    requires EntryInv(side, d, r)
    ensures EntryInv(side', Advanced(d, [Resolved(d.next, t)], buffers), r)
  {
    NextIsSeen(d, t, buffers);
    SeenGrows(d, [Resolved(d.next, t)], buffers, side.Owner(r.stamp.slot));
  }

  lemma LastWriteResolved(side: Side, side': Side, d: Disp, t: Stamp, buffers: seq<seq<nat>>)
    requires Ended(side, side', d) && ResolvedInv(side, d)
    requires StampInv(side', t) && t.slot == side.writer.slot
    ensures ResolvedInv(side', Advanced(d, [Resolved(d.next, t)], buffers))
  {
    var d' := Advanced(d, [Resolved(d.next, t)], buffers);
    forall r | 0 <= r < |d'.resolved| ensures EntryInv(side', d', d'.resolved[r]) {
      if r < |d.resolved| {
        EndedEntry(side, side', d, t, buffers, d.resolved[r]);
        assert d'.resolved[r] == d.resolved[r];
      } else {
        EndedNewEntry(side, side', d, t, buffers);
        assert d'.resolved[r] == Resolved(d.next, t);
      }
    }
  }

  lemma EndedNewEntry(side: Side, side': Side, d: Disp, t: Stamp, buffers: seq<seq<nat>>)
    requires Ended(side, side', d) && StampInv(side', t) && t.slot == side.writer.slot
    ensures EntryInv(side', Advanced(d, [Resolved(d.next, t)], buffers), Resolved(d.next, t))
  {
    NextIsSeen(d, t, buffers);
  }

  lemma LastWritePositions(side: Side, side': Side, d: Disp, t: Stamp, buffers: seq<seq<nat>>)
    requires Ended(side, side', d) && PositionsInv(side, d) && t.slot == side.writer.slot
    ensures PositionsInv(side', Advanced(d, [Resolved(d.next, t)], buffers))
  {
    var extra := [Resolved(d.next, t)];
    var d' := Advanced(d, extra, buffers);
    NextIsSeen(d, t, buffers);
    forall j | 0 <= j < |d.positions| && d.positions[j] >= 0 && !Seen(d', d.burst[j].key)
      ensures PositionInv(side', d', j) {
      SeenGrows(d, extra, buffers, d.burst[j].key);
      assert PositionInv(side, d, j);
      if InResolved(d, d.positions[j]) {
        var r :| 0 <= r < |d.resolved| && d.resolved[r].stamp.slot == d.positions[j];
        assert d'.resolved[r] == d.resolved[r];
      }
    }
  }

  lemma LastWriteSidePart(side: Side, flowHash: Key -> u32, packets: seq<Packet>, d: Disp, id: nat)
    requires SidePart(side, flowHash, packets, d) && CanWrite(side) && side.writer.stage.SetLastSeen?
    requires HasNext(d) && side.writer.pub.key == NextKey(d) && |d.buffers| == NUM_WORKERS
    requires ExtractKey(d.burst[d.next].data, |d.burst[d.next].data|) == ParseOk(d.burst[d.next].key)
    ensures var side' := WriterStep(side);
      var t := CurrentStamp(side', side.writer.slot);
      && StampInv(side', t) && t.worker < NUM_WORKERS
      && SidePart(side', flowHash, packets + [Packet(d.burst[d.next], t)],
                  Advanced(d, [Resolved(d.next, t)], Appended(d.buffers, t.worker, id)))
  {
    LastWriteSide(side, flowHash, packets, d);
    var side' := WriterStep(side);
    var t := CurrentStamp(side', side.writer.slot);
    assert Ended(side, side', d) by {
      forall u | StampInv(side, u) ensures StampInv(side', u) { StampSurvivesWriter(side, u); }
    }
    LastWriteResolved(side, side', d, t, Appended(d.buffers, t.worker, id));
    LastWritePositions(side, side', d, t, Appended(d.buffers, t.worker, id));
  }

  lemma LastWriteHashPart(h: Hash, side: Side, d: Disp, held: seq<(Key, nat)>, t: Stamp, id: nat)
    requires HashPart(h, side, d, held) && SideInv(side) && d.pc.Publishing?
    requires CanWrite(side) && side.writer.stage.SetLastSeen? && t.worker < NUM_WORKERS
    ensures |d.buffers| == NUM_WORKERS && HasNext(d)
    ensures HashPart(h, WriterStep(side), Advanced(d, [Resolved(d.next, t)], Appended(d.buffers, t.worker, id)), held)
  {
    NextIsSeen(d, t, Appended(d.buffers, t.worker, id));
    WriterKeepsCouple(h, side);
    AdvanceHashPart(h, side, WriterStep(side), d, [Resolved(d.next, t)], Appended(d.buffers, t.worker, id), held);
  }

  lemma LastWriteWorkerPart(side: Side, packets: seq<Packet>, workers: seq<WorkerState>, buffers: seq<seq<nat>>,
                            p: Packet)
    requires SideInv(side) && CanWrite(side) && WorkerPart(side, packets, workers, buffers)
    requires StampInv(WriterStep(side), p.stamp) && p.stamp.worker < NUM_WORKERS
    ensures WorkerPart(WriterStep(side), packets + [p], workers, Appended(buffers, p.stamp.worker, |packets|))
  {
    WriterKeepsReaders(side);
    ReadersCarryOver(side, WriterStep(side), packets, workers, buffers);
    NewPacketKeepsWorkers(WriterStep(side), packets, workers, buffers, p);
  }

  lemma LastWriteResult(s: State, t: Stamp)
    requires CanWrite(s.side) && s.side.writer.stage.SetLastSeen? && HasNext(s.disp)
    requires t == CurrentStamp(WriterStep(s.side), s.side.writer.slot) && t.worker < |s.disp.buffers|
    requires s.side.hot[s.side.writer.slot].worker < |s.disp.buffers|
    ensures var d := s.disp;
      DoWrite(s) == s.(side := WriterStep(s.side), packets := s.packets + [Packet(d.burst[d.next], t)],
                       disp := Advanced(d, [Resolved(d.next, t)], Appended(d.buffers, t.worker, |s.packets|)),
                       counters := s.counters.(created := s.counters.created + 1))
  {
  }

  lemma PublishingFacts(h: Hash, side: Side, d: Disp, held: seq<(Key, nat)>)
    requires HashPart(h, side, d, held) && d.pc.Publishing?
    ensures HasNext(d) && |d.buffers| == NUM_WORKERS && side.writer.Busy? && side.writer.pub.key == NextKey(d)
    ensures ExtractKey(d.burst[d.next].data, |d.burst[d.next].data|) == ParseOk(d.burst[d.next].key)
  {
  }

  lemma LastWriteKeepsInv(s: State)
    requires Inv(s) && s.disp.pc.Publishing? && CanWrite(s.side) && s.side.writer.stage.SetLastSeen?
    requires HasNext(s.disp) && s.side.hot[s.side.writer.slot].worker < |s.disp.buffers|
    ensures Inv(DoWrite(s))
  {
    PublishingFacts(s.hash, s.side, s.disp, s.held);
    var d, id := s.disp, |s.packets|;
    LastWriteSidePart(s.side, s.flowHash, s.packets, d, id);
    var t := CurrentStamp(WriterStep(s.side), s.side.writer.slot);
    LastWriteHashPart(s.hash, s.side, d, s.held, t, id);
    LastWriteWorkerPart(s.side, s.packets, s.workers, d.buffers, Packet(d.burst[d.next], t));
    LastWriteResult(s, t);
  }

  // ---------------------------------------------------------------- replacement

  lemma PcStepKeepsInv(s: State, pc: Pc)
    requires Inv(s)
    requires || (s.disp.pc.Ready? && HasNext(s.disp) && !Seen(s.disp, NextKey(s.disp))
                 && s.disp.positions[s.disp.next] < 0
                 && pc == Evicting(0))
             || (s.disp.pc.Ready? && s.disp.next == |s.disp.burst| && pc == Enqueueing(0))
    ensures Inv(s.(disp := s.disp.(pc := pc)))
  {
    var d, d' := s.disp, s.disp.(pc := pc);
    PcChangeKeepsSidePart(s.side, s.flowHash, s.packets, d, d');
    assert forall k :: Seen(d, k) <==> Seen(d', k);
  }

  lemma ValidateKeepsInv(s: State, position: nat, gen: u32)
    requires Inv(s) && s.disp.pc.Evicting? && VictimValid(s, position, gen)
    ensures var victim := KeyFromCold(s.side.cold[position]);
      Inv(s.(disp := s.disp.(pc := Deleting(s.disp.pc.evicted, victim, position, gen))))
  {
    var d := s.disp;
    var d' := d.(pc := Deleting(d.pc.evicted, KeyFromCold(s.side.cold[position]), position, gen));
    PcChangeKeepsSidePart(s.side, s.flowHash, s.packets, d, d');
    assert forall k :: Seen(d, k) <==> Seen(d', k);
    assert SlotInv(s.side, position);
  }

  lemma VictimDeleted(h: Hash, side: Side, d: Disp, held: seq<(Key, nat)>, d': Disp)
    requires HashPart(h, side, d, held) && d.pc.Deleting? && d'.pc.Evicting? && d' == d.(pc := d'.pc)
    ensures HashPart(Del(h, d.pc.victim), side, d', held)
  {
    DelKeepsHashPart(h, side, d, held, d.pc.victim);
    assert forall k :: Seen(d, k) <==> Seen(d', k);
  }

  lemma DeleteVictimKeepsInv(s: State)
    requires Inv(s) && s.disp.pc.Deleting?
    ensures Inv(DoDeleteVictim(s))
  {
    var d' := DoDeleteVictim(s).disp;
    VictimDeleted(s.hash, s.side, s.disp, s.held, d');
    PcChangeKeepsSidePart(s.side, s.flowHash, s.packets, s.disp, d');
    DelKeepsHashPart(s.hash, s.side, s.disp, s.held, s.disp.pc.victim);
  }

  lemma DropKeepsInv(s: State)
    requires Inv(s) && (s.disp.pc.Evicting? || s.disp.pc.Retry?)
    requires s.disp.pc.Evicting? ==> s.disp.pc.evicted == 0
    ensures Inv(DropNext(s))
  {
    var d := s.disp;
    var d' := DropNext(s).disp;
    assert d.resolved + [] == d.resolved;
    assert d' == Advanced(d, [], d.buffers);
    AdvanceHashPart(s.hash, s.side, s.side, d, [], d.buffers, s.held);
    assert forall k :: Seen(d, k) <==> Seen(d', k);
    forall r | 0 <= r < |d.resolved| ensures EntryInv(s.side, d', d'.resolved[r]) {
      assert EntryInv(s.side, d, d.resolved[r]);
    }
    forall j | 0 <= j < |d.positions| && d.positions[j] >= 0 && !Seen(d', d.burst[j].key)
      ensures PositionInv(s.side, d', j) {
      assert PositionInv(s.side, d, j);
    }
  }

  lemma ReplacedHashPart(h: Hash, side: Side, d: Disp, held: seq<(Key, nat)>)
    requires HashPart(h, side, d, held) && d.pc.Evicting?
    ensures HashPart(Quiescent(h, DispatcherActor), side, d.(pc := Retry, replaced := true), held)
  {
    DispatcherReport(h, held);
    assert forall k :: Seen(d, k) <==> Seen(d.(pc := Retry, replaced := true), k);
  }

  lemma EndReplacementKeepsInv(s: State)
    requires Inv(s) && s.disp.pc.Evicting?
    ensures Inv(DoEndReplacement(s))
  {
    if s.disp.pc.evicted == 0 {
      DropKeepsInv(s);
    } else {
      ReplacedHashPart(s.hash, s.side, s.disp, s.held);
      PcChangeKeepsSidePart(s.side, s.flowHash, s.packets, s.disp, s.disp.(pc := Retry, replaced := true));
    }
  }

  // ---------------------------------------------------------------- the end of a burst

  lemma EnqueueKeepsWorkers(side: Side, packets: seq<Packet>, workers: seq<WorkerState>, buffers: seq<seq<nat>>,
                            w: nat, sent: nat)
    requires WorkerPart(side, packets, workers, buffers) && w < |workers| && w < |buffers| && sent <= |buffers[w]|
    ensures WorkerPart(side, packets, workers[w := workers[w].(ring := workers[w].ring + buffers[w][..sent])],
                       buffers[w := []])
  {
    var ws := workers[w];
    var ws' := ws.(ring := ws.ring + buffers[w][..sent]);
    var q, q' := Queue(ws, buffers[w]), Queue(ws', []);
    assert q' == q[..|q'|];
    assert QueueInv(packets, q, w);
    assert QueueInv(packets, q', w);
    assert CurInv(side, packets, ws.cur);
    forall i | 0 <= i < |ws'.done| ensures DoneInv(side, packets, ws'.done[i]) {
      assert DoneInv(side, packets, ws.done[i]);
    }
  }

  lemma EnqueueKeepsHashPart(h: Hash, side: Side, d: Disp, held: seq<(Key, nat)>, w: nat)
    requires HashPart(h, side, d, held) && d.pc == Enqueueing(w) && w + 1 < NUM_WORKERS
    ensures HashPart(h, side, d.(pc := Enqueueing(w + 1), buffers := d.buffers[w := []]), held)
  {
    var d' := d.(pc := Enqueueing(w + 1), buffers := d.buffers[w := []]);
    assert forall k :: Seen(d, k) <==> Seen(d', k);
  }

  lemma LastEnqueueKeepsHashPart(h: Hash, side: Side, d: Disp, held: seq<(Key, nat)>, w: nat)
    requires HashPart(h, side, d, held) && d.pc == Enqueueing(w) && w + 1 == NUM_WORKERS
    ensures HashPart(Quiescent(h, DispatcherActor), side, Disp(Idle, [], [], 0, [], false, 0, d.buffers[w := []]), held)
  {
    DispatcherReport(h, held);
  }

  lemma BufferChangeKeepsSidePart(side: Side, flowHash: Key -> u32, packets: seq<Packet>, d: Disp, pc: Pc,
                                  buffers: seq<seq<nat>>)
    requires SidePart(side, flowHash, packets, d)
    ensures SidePart(side, flowHash, packets, d.(pc := pc, buffers := buffers))
    ensures SidePart(side, flowHash, packets, Disp(Idle, [], [], 0, [], false, 0, buffers))
  {
    var d' := d.(pc := pc, buffers := buffers);
    assert forall k :: Seen(d, k) <==> Seen(d', k);
    forall r | 0 <= r < |d.resolved| ensures EntryInv(side, d', d'.resolved[r]) {
      assert EntryInv(side, d, d.resolved[r]);
    }
    forall j | 0 <= j < |d.positions| && d.positions[j] >= 0 && !Seen(d', d.burst[j].key)
      ensures PositionInv(side, d', j) {
      assert PositionInv(side, d, j);
    }
  }

  lemma EnqueueCount(h: Hash, d: Disp, d': Disp, c: Counters)
    requires CountInv(h, d, c) && d.pc.Enqueueing? && (d'.pc.Enqueueing? || d'.pc.Idle?)
    ensures CountInv(h, d', c) && CountInv(Quiescent(h, DispatcherActor), d', c)
  {
  }

  lemma MiddleEnqueueKeepsInv(s: State, sent: nat)
    requires Inv(s) && s.disp.pc.Enqueueing? && s.disp.pc.worker < |s.workers| && s.disp.pc.worker < |s.disp.buffers|
    requires sent <= |s.disp.buffers[s.disp.pc.worker]| && s.disp.pc.worker + 1 < NUM_WORKERS
    ensures Inv(DoEnqueue(s, sent))
  {
    var d, w, s' := s.disp, s.disp.pc.worker, DoEnqueue(s, sent);
    EnqueueKeepsHashPart(s.hash, s.side, d, s.held, w);
    BufferChangeKeepsSidePart(s.side, s.flowHash, s.packets, d, Enqueueing(w + 1), d.buffers[w := []]);
    EnqueueKeepsWorkers(s.side, s.packets, s.workers, d.buffers, w, sent);
    EnqueueCount(s.hash, d, s'.disp, s.counters);
    PartsMakeInv(s');
  }

  lemma LastEnqueueKeepsInv(s: State, sent: nat)
    requires Inv(s) && s.disp.pc.Enqueueing? && s.disp.pc.worker < |s.workers| && s.disp.pc.worker < |s.disp.buffers|
    requires sent <= |s.disp.buffers[s.disp.pc.worker]| && s.disp.pc.worker + 1 == NUM_WORKERS
    ensures Inv(DoEnqueue(s, sent))
  {
    var d, w, s' := s.disp, s.disp.pc.worker, DoEnqueue(s, sent);
    LastEnqueueKeepsHashPart(s.hash, s.side, d, s.held, w);
    BufferChangeKeepsSidePart(s.side, s.flowHash, s.packets, d, Idle, d.buffers[w := []]);
    EnqueueKeepsWorkers(s.side, s.packets, s.workers, d.buffers, w, sent);
    EnqueueCount(s.hash, d, s'.disp, s.counters);
    PartsMakeInv(s');
  }

  lemma PartsMakeInv(s: State)
    requires HashPart(s.hash, s.side, s.disp, s.held) && SidePart(s.side, s.flowHash, s.packets, s.disp)
    requires WorkerPart(s.side, s.packets, s.workers, s.disp.buffers) && CountInv(s.hash, s.disp, s.counters)
    ensures Inv(s)
  {
  }

  lemma EnqueueKeepsInv(s: State, sent: nat)
    requires Inv(s) && s.disp.pc.Enqueueing? && s.disp.pc.worker < |s.workers| && s.disp.pc.worker < |s.disp.buffers|
    requires sent <= |s.disp.buffers[s.disp.pc.worker]|
    ensures Inv(DoEnqueue(s, sent))
  {
    if s.disp.pc.worker + 1 < NUM_WORKERS { MiddleEnqueueKeepsInv(s, sent); } else { LastEnqueueKeepsInv(s, sent); }
  }

  lemma EmptyPollKeepsInv(s: State)
    requires Inv(s) && s.disp.pc.Idle?
    ensures Inv(s.(hash := Quiescent(s.hash, DispatcherActor)))
  {
    DispatcherReport(s.hash, s.held);
  }

  // ---------------------------------------------------------------- every step

  lemma BurstStepKeepsInv(s: State, step: Step)
    requires Inv(s) && Enabled(s, step)
    requires step.ReuseResolved? || step.UseHit? || step.LookupNext? || step.StartBurst?
    ensures Inv(Do(s, step))
  {
    match step {
      case StartBurst(inputs, tsc) => StartKeepsInv(s, inputs, tsc);
      case LookupNext => LookupKeepsInv(s);
      case ReuseResolved(r) => ReuseKeepsInv(s, r);
      case UseHit => HitKeepsInv(s);
    }
  }

  lemma PublishStepKeepsInv(s: State, step: Step)
    requires Inv(s) && Enabled(s, step)
    requires step.AddFlow? || step.Write?
    ensures Inv(Do(s, step))
  {
    if step.AddFlow? {
      AddKeepsInv(s);
    } else if s.side.writer.stage.SetLastSeen? {
      LastWriteKeepsInv(s);
    } else {
      WriteKeepsInv(s);
    }
  }

  lemma ReplacementStepKeepsInv(s: State, step: Step)
    requires Inv(s) && Enabled(s, step)
    requires step.AddFails? || step.ValidateVictim? || step.DeleteVictim? || step.EndReplacement? || step.RetryFails?
    ensures Inv(Do(s, step))
  {
    match step {
      case AddFails => PcStepKeepsInv(s, Evicting(0));
      case ValidateVictim(position, gen) => ValidateKeepsInv(s, position, gen);
      case DeleteVictim => DeleteVictimKeepsInv(s);
      case EndReplacement => EndReplacementKeepsInv(s);
      case RetryFails => DropKeepsInv(s);
    }
  }

  lemma EndStepKeepsInv(s: State, step: Step)
    requires Inv(s) && Enabled(s, step)
    requires step.EndPackets? || step.Enqueue? || step.EmptyPoll?
    ensures Inv(Do(s, step))
  {
    match step {
      case EndPackets => PcStepKeepsInv(s, Enqueueing(0));
      case Enqueue(sent) => EnqueueKeepsInv(s, sent);
      case EmptyPoll => EmptyPollKeepsInv(s);
    }
  }

  lemma QueueStepKeepsInv(s: State, step: Step)
    requires Inv(s) && Enabled(s, step)
    requires step.Dequeue? || step.Classify?
    ensures Inv(Do(s, step))
  {
    if step.Dequeue? { DequeueKeepsInv(s, step.worker); } else { ClassifyKeepsInv(s, step.worker); }
  }

  /** No step of any thread breaks the invariant. */
  lemma StepKeepsInv(s: State, step: Step)
    requires Inv(s) && Enabled(s, step)
    ensures Inv(Do(s, step))
  {
    if step.ReuseResolved? || step.UseHit? || step.LookupNext? || step.StartBurst? { BurstStepKeepsInv(s, step); }
    else if step.AddFlow? || step.Write? { PublishStepKeepsInv(s, step); }
    else if step.AddFails? || step.ValidateVictim? || step.DeleteVictim? || step.EndReplacement? || step.RetryFails? {
      ReplacementStepKeepsInv(s, step);
    }
    else if step.EndPackets? || step.Enqueue? || step.EmptyPoll? { EndStepKeepsInv(s, step); }
    else if step.Dequeue? || step.Classify? { QueueStepKeepsInv(s, step); }
    else if step.CheckFirst? || step.Copy? || step.CheckSecond? { ReadStepKeepsInv(s, step); }
    else if step.Observe? || step.DeleteHeld? || step.ReclaimStep? || step.SetRules? {
      MaintenanceStepKeepsInv(s, step);
    }
    else { ReportStepKeepsInv(s, step); }
  }
}
