/** The threads' classes joined: the stamp DispatcherThread enqueues is the one WorkerThread checks,
    and what WorkerThread keeps in its arrays and hands to the driver (src/worker.c) is what a lane
    of the datapath has pending and sent. */
module TransmitOrder {
  import opened FlowTypes
  import opened FlowPacket
  import opened RuleEngine
  import opened FlowPipeline
  import opened PipelineTheorems
  import opened Datapath
  import Reload = RuleReload
  import DispatcherSpec
  import WorkerSpec
  import Worker

  /** A packet p enqueued for flow f of key k, which still stands in the table: a worker that loads
      the generation of its slot passes the first check, and the second load alone decides whether
      it uses the record it copied or the packet's own bytes. */
  lemma StandingStampPasses(t: DispatcherSpec.Table, k: Key, f: DispatcherSpec.Flow, m: Mbuf, p: Mbuf,
                            o: WorkerSpec.Loads)
    requires DispatcherSpec.StampStands(t, k, Some(f)) && DispatcherSpec.Carries(p, m, f)
    requires o.gen1 == t.hot[f.position].gen
    ensures k in t.hash.mapped && p.flowIdx == t.hash.mapped[k] < |t.hot| && WorkerSpec.FirstCheckPasses(p, o, |t.hot|)
    ensures f.worker == t.hot[p.flowIdx].worker
    ensures var record := WorkerSpec.OutcomeOf(p, o, |t.hot|).record;
      && (o.gen2 == t.hot[p.flowIdx].gen ==> record == Some(o.slotCold))
      && (o.gen2 != t.hot[p.flowIdx].gen ==> record == ExtractCold(m.data, |m.data|))
  {
    WorkerSpec.RecordIsValidated(p, o, |t.hot|);
  }

  /** The thread has handled the packets its lane has, with the same decisions. */
  ghost predicate SameDecisions(done: seq<Done>, log: seq<Answer>, history: seq<WorkerSpec.Outcome>) {
    && |history| == |done| == |log|
    && forall i | 0 <= i < |done| ::
         history[i].mbuf.id == done[i].id && (history[i].forward <==> log[i].action != ACTION_DROP)
  }

  lemma {:induction false} ForwardedAlike(done: seq<Done>, log: seq<Answer>, history: seq<WorkerSpec.Outcome>)
    requires SameDecisions(done, log, history)
    ensures DispatcherSpec.Ids(WorkerSpec.Forwarded(history)) == Kept(Ids(done), log)
    decreases |done|
  {
    if done != [] {
      var n := |done| - 1;
      ForwardedAlike(done[..n], log[..n], history[..n]);
      assert Ids(done)[..n] == Ids(done[..n]);
      var init := WorkerSpec.Forwarded(history[..n]);
      assert DispatcherSpec.Ids(init + [history[n].mbuf]) == DispatcherSpec.Ids(init) + [history[n].mbuf.id];
    }
  }

  /** The lane a thread's arrays spell. */
  ghost function LaneFor(log: seq<Answer>, wire: seq<Mbuf>, pending: seq<Mbuf>, lost: seq<Mbuf>, exited: bool): Lane {
    Lane(Reload.NotReading, false, log, DispatcherSpec.Ids(pending), DispatcherSpec.Ids(wire),
         DispatcherSpec.Ids(lost), exited)
  }

  lemma SplitIds(a: seq<Mbuf>, b: seq<Mbuf>, c: seq<Mbuf>)
    ensures DispatcherSpec.Ids(a + b + c) == DispatcherSpec.Ids(a) + DispatcherSpec.Ids(b) + DispatcherSpec.Ids(c)
  {
  }

  /** At every loop boundary, however the staging was cut up, sent and retried, the thread's TX
      state is a state of its lane. */
  lemma SettledIsLane(t: Worker.WorkerThread, done: seq<Done>, log: seq<Answer>, history: seq<WorkerSpec.Outcome>)
    requires t.Settled(history) && SameDecisions(done, log, history)
    ensures TxInv(done, LaneFor(log, t.wire, t.Pending(), [], false))
  {
    ForwardedAlike(done, log, history);
    SplitIds(t.wire, t.Pending(), []);
    assert t.wire + t.Pending() + [] == t.wire + t.Pending();
  }

  /** So is what WorkerThread.Run leaves. */
  lemma ExitedIsLane(wire: seq<Mbuf>, lost: seq<Mbuf>, done: seq<Done>, log: seq<Answer>,
                     history: seq<WorkerSpec.Outcome>)
    requires wire + lost == WorkerSpec.Forwarded(history) && SameDecisions(done, log, history)
    ensures TxInv(done, LaneFor(log, wire, [], lost, true))
  {
    ForwardedAlike(done, log, history);
    SplitIds(wire, [], lost);
    assert wire + [] + lost == wire + lost;
  }

  /** A packet the thread classifies with the loads its lane made gets the lane's decision. */
  lemma DecisionAlike(d: Sys, w: nat, m: Mbuf, o: WorkerSpec.Loads, storageEntries: nat, at: nat,
                      history: seq<WorkerSpec.Outcome>)
    requires SysInv(d) && CanMove(d, Finish(w)) && w < |d.s.workers| && !d.lanes[w].torn
    requires SameDecisions(d.s.workers[w].done, d.lanes[w].log, history)
    requires var cur := d.s.workers[w].cur;
      && m.id == cur.id && m.data == d.s.packets[cur.id].input.data
      && o.rules == d.lanes[w].reader.seen.Active() && WorkerSpec.ReadOf(m, o, storageEntries, at) == cur.read
    ensures var d' := Moved(d, Finish(w));
      SameDecisions(d'.s.workers[w].done, d'.lanes[w].log, history + [WorkerSpec.OutcomeOf(m, o, storageEntries)])
  {
    assert LaneInv(d, w);
    ClassifiedFacts(d.s, w, o.rules);
    var e, a := Classification(d.s, w, o.rules), Answer(d.lanes[w].reader.action, false);
    WorkerSpec.ForwardsAsThePipeline(m, o, storageEntries, d.s.packets[m.id].input.key, at);
    DecisionsGrow(d.s.workers[w].done, d.lanes[w].log, history, e, a, WorkerSpec.OutcomeOf(m, o, storageEntries));
  }

  lemma DecisionsGrow(done: seq<Done>, log: seq<Answer>, history: seq<WorkerSpec.Outcome>, e: Done, a: Answer,
                      outcome: WorkerSpec.Outcome)
    requires SameDecisions(done, log, history)
    requires outcome.mbuf.id == e.id && (outcome.forward <==> a.action != ACTION_DROP)
    ensures SameDecisions(done + [e], log + [a], history + [outcome])
  {
  }

  /** The thread itself transmits in arrival order. */
  lemma ThreadSendsInOrder(d: Sys, w: nat, t: Worker.WorkerThread, history: seq<WorkerSpec.Outcome>, i: nat, j: nat)
    requires SysInv(d) && w < NUM_WORKERS && t.Settled(history) && i < j < |t.wire|
    requires SameDecisions(d.s.workers[w].done, d.lanes[w].log, history)
    ensures t.wire[i].id < t.wire[j].id
  {
    var done, log := d.s.workers[w].done, d.lanes[w].log;
    assert LaneInv(d, w);
    SettledIsLane(t, done, log, history);
    DoneIdsIncrease(d.s, w);
    KeptIncreasing(Ids(done), log);
    var wire := DispatcherSpec.Ids(t.wire);
    assert Kept(Ids(done), log)[i] == wire[i] && Kept(Ids(done), log)[j] == wire[j];
  }
}
