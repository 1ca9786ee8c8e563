/** A worker thread (src/worker.c): its TX queue over two parallel arrays, the driver that takes
    any prefix of what it is offered, and the receive/classify/stage/flush loop. */
module Worker {
  import opened FlowTypes
  import opened FlowPacket
  import opened RuleEngine
  import opened WorkerSpec

  /** What happens before one turn of the loop: packets arrive in the ring, and the loads the
      turn's packets will see. */
  datatype Turn = Turn(arrivals: seq<Mbuf>, loads: seq<Loads>)

  class WorkerThread {
    const storageEntries: nat
    /** worker_rings[worker_id], oldest first. */
    var ring: seq<Mbuf>
    // struct worker_tx_pending
    const pkts: array<Mbuf>
    const pktLens: array<nat>
    var count: nat
    // struct lcore_stats
    var workerRx: nat
    var txPkts: nat
    var txBytes: nat
    var txDrop: nat
    var spiForwarded: nat
    var spiDropped: nat
    var spiRuleChecks: nat
    var protocols: ProtocolCounters
    /** What left through the port, what went back to the pool, and the driver's answers. */
    ghost var wire: seq<Mbuf>
    ghost var freed: seq<Mbuf>
    ghost var answers: seq<nat>

    ghost predicate Valid()
      reads this, pkts, pktLens
    {
      && pkts.Length == pktLens.Length == BURST_SIZE && count <= BURST_SIZE
      && forall i | 0 <= i < count :: pktLens[i] == pkts[i].len
    }

    ghost function Pending(): seq<Mbuf>
      reads this, pkts
      requires count <= pkts.Length
    {
      pkts[..count]
    }

    constructor (storageEntries: nat, idle: Mbuf)
      ensures Valid() && fresh(pkts) && fresh(pktLens)
      ensures Settled([]) && ring == [] && this.storageEntries == storageEntries
    {
      this.storageEntries := storageEntries;
      ring := [];
      pkts := new Mbuf[BURST_SIZE](i => idle);
      pktLens := new nat[BURST_SIZE](i => 0);
      count, workerRx, txPkts, txBytes, txDrop := 0, 0, 0, 0, 0;
      spiForwarded, spiDropped, spiRuleChecks := 0, 0, 0;
      protocols := ProtocolCounters(0, 0, 0, 0, 0, 0);
      wire, freed, answers := [], [], [];
    }

    /** The books of a worker that has handled `history` and never lost a packet it forwarded:
        what it sent followed by what it still holds is what it forwarded, in order. */
    ghost predicate Settled(history: seq<Outcome>)
      reads this, pkts
    {
      && count <= pkts.Length
      && wire + Pending() == Forwarded(history)
      && workerRx == |history| && Judged(history) && Transmitted() && txDrop == 0
    }

    /** The classification counters. */
    ghost predicate Classified(history: seq<Outcome>)
      reads `spiForwarded, `spiDropped, `spiRuleChecks, `protocols
    {
      && spiForwarded == |Forwarded(history)| && spiDropped == |Dropped(history)|
      && spiRuleChecks == |Records(history)| && protocols == Accounted(Records(history))
    }

    /** So far exactly the dropped packets went back to the pool. */
    ghost predicate Judged(history: seq<Outcome>)
      reads `spiForwarded, `spiDropped, `spiRuleChecks, `protocols, `freed
    {
      Classified(history) && freed == Dropped(history)
    }

    /** The transmit counters. */
    ghost predicate Transmitted()
      reads `txPkts, `txBytes, `wire
    {
      txPkts == |wire| && txBytes == TotalLen(wire)
    }

    /** rte_eth_tx_burst: the driver takes any prefix of the packets offered to it. */
    method TxBurst(from: nat, n: nat) returns (sent: nat)
      requires from + n <= pkts.Length
      modifies `wire, `answers
      ensures sent <= n && wire == old(wire) + pkts[from..from + sent]
      ensures answers == old(answers) + [sent]
    {
      sent :| sent <= n;
      wire := wire + pkts[from..from + sent];
      answers := answers + [sent];
    }

    /** The tx_pkts and tx_bytes updates for a burst the driver took. */
    method CountSent(from: nat, sent: nat)
      requires Valid() && from + sent <= count
      modifies `txPkts, `txBytes
      ensures txPkts == old(txPkts) + sent
      ensures txBytes == old(txBytes) + TotalLen(pkts[from..from + sent])
    {
      txPkts := txPkts + sent;
      for i := 0 to sent
        invariant txPkts == old(txPkts) + sent && txBytes == old(txBytes) + TotalLen(pkts[from..from + i])
      {
        TotalLenLast(pkts[from..from + i], pkts[from + i]);
        assert pkts[from..from + i + 1] == pkts[from..from + i] + [pkts[from + i]];
        txBytes := txBytes + pktLens[from + i];
      }
    }

    /** One turn of the send loop: offer the rest of the queue and count what was taken. */
    method OfferRest(from: nat) returns (sent: nat)
      requires Valid() && Transmitted() && from <= count
      modifies `txPkts, `txBytes, `wire, `answers
      ensures Transmitted() && sent <= count - from
      ensures wire == old(wire) + pkts[from..from + sent] && answers == old(answers) + [sent]
    {
      sent := TxBurst(from, count - from);
      TotalLenAppend(old(wire), pkts[from..from + sent]);
      if sent > 0 {
        CountSent(from, sent);
      }
    }

    /** The loop of worker_flush_tx_pending: it stops when everything is sent, or after
        TX_RETRY_BUDGET answers of 0 in a row; the driver is asked a bounded number of times. */
    method SendPending() returns (sentTotal: nat)
      requires Valid() && Transmitted()
      modifies `txPkts, `txBytes, `wire, `answers
      ensures Valid() && Transmitted() && sentTotal <= count
      ensures wire == old(wire) + pkts[..sentTotal]
      ensures sentTotal < count ==> GaveUp(answers, old(answers))
      ensures old(answers) <= answers && |answers| - |old(answers)| <= 8 * (sentTotal + 1)
    {
      sentTotal := 0;
      var noProgress := 0;
      while sentTotal < count
        invariant Valid() && Transmitted() && sentTotal <= count && noProgress < TX_RETRY_BUDGET
        invariant wire == old(wire) + pkts[..sentTotal]
        invariant old(answers) <= answers && noProgress <= |answers| - |old(answers)|
        invariant |answers| - |old(answers)| <= TX_RETRY_BUDGET * sentTotal + noProgress
        invariant forall i | |answers| - noProgress <= i < |answers| :: answers[i] == 0
        decreases count - sentTotal, TX_RETRY_BUDGET - noProgress
      {
        var sent := OfferRest(sentTotal);
        assert pkts[..sentTotal] + pkts[sentTotal..sentTotal + sent] == pkts[..sentTotal + sent];
        if sent > 0 {
          sentTotal := sentTotal + sent;
          noProgress := 0;
          continue;
        }
        noProgress := noProgress + 1;
        if noProgress >= TX_RETRY_BUDGET {
          break;
        }
      }
    }

    /** The driver's last eight answers, all given since `before`, were 0. */
    static ghost predicate GaveUp(answers: seq<nat>, before: seq<nat>) {
      && |before| + 8 <= |answers|
      && forall i | |answers| - 8 <= i < |answers| :: answers[i] == 0
    }

    /** The two memmove calls: what was not sent moves to the front of both arrays. */
    method MoveRemaining(sentTotal: nat)
      requires Valid() && sentTotal <= count
      modifies `count, pkts, pktLens
      ensures Valid() && Pending() == old(Pending())[sentTotal..]
    {
      var remaining := count - sentTotal;
      forall i | 0 <= i < remaining {
        pkts[i] := pkts[sentTotal + i];
      }
      forall i | 0 <= i < remaining {
        pktLens[i] := pktLens[sentTotal + i];
      }
      count := remaining;
    }

    /** worker_flush_tx_pending: sends a prefix of the queue; nothing is lost or reordered. */
    method FlushTxPending() returns (sentTotal: nat)
      requires Valid() && Transmitted()
      modifies `txPkts, `txBytes, `wire, `answers, `count, pkts, pktLens
      ensures Valid() && Transmitted()
      ensures wire + Pending() == old(wire) + old(Pending())
      ensures sentTotal == |wire| - |old(wire)| == old(count) - count
      ensures count > 0 ==> GaveUp(answers, old(answers))
      ensures 0 <= |answers| - |old(answers)| <= TX_RETRY_BUDGET * (sentTotal + 1)
    {
      sentTotal := SendPending();
      SplitAt(old(wire), Pending(), sentTotal);
      assert pkts[..sentTotal] == Pending()[..sentTotal];
      if sentTotal == 0 {
        return;
      }
      if sentTotal < count {
        MoveRemaining(sentTotal);
      } else {
        count := 0;
      }
    }

    /** worker_stage_tx_burst: fills the free space; the excess is dropped and counted. */
    method StageTxBurst(tx: array<Mbuf>, txCount: nat)
      requires Valid() && txCount <= tx.Length && tx != pkts
      modifies `count, `txDrop, `freed, pkts, pktLens
      ensures Valid()
      ensures var staged := Min(txCount, BURST_SIZE - old(count));
        && Pending() == old(Pending()) + tx[..staged]
        && freed == old(freed) + tx[staged..txCount] && txDrop == old(txDrop) + txCount - staged
    {
      var space := BURST_SIZE - count;
      var staged := if txCount < space then txCount else space;
      for i := 0 to staged
        invariant Valid() && count == old(count) + i && freed == old(freed) && txDrop == old(txDrop)
        invariant Pending() == old(Pending()) + tx[..i]
      {
        pkts[count] := tx[i];
        pktLens[count] := tx[i].len;
        count := count + 1;
      }
      if staged < txCount {
        txDrop := txDrop + txCount - staged;
        freed := freed + tx[staged..txCount];
      }
    }

    /** worker_drop_tx_pending */
    method DropTxPending()
      requires Valid()
      modifies `count, `txDrop, `freed
      ensures Valid() && count == 0
      ensures txDrop == old(txDrop) + old(count) && freed == old(freed) + old(Pending())
    {
      if count == 0 {
        return;
      }
      txDrop := txDrop + count;
      freed := freed + pkts[..count];
      count := 0;
    }

    /** worker_drain_tx_pending_on_exit: at most TX_RETRY_BUDGET flushes, then the rest is
        dropped and counted. */
    method DrainTxPendingOnExit() returns (ghost lost: seq<Mbuf>)
      requires Valid() && Transmitted()
      modifies `txPkts, `txBytes, `txDrop, `wire, `freed, `answers, `count, pkts, pktLens
      ensures Valid() && Transmitted() && count == 0
      ensures wire + lost == old(wire) + old(Pending())
      ensures freed == old(freed) + lost && txDrop == old(txDrop) + |lost|
      ensures lost != [] ==> |answers| >= |old(answers)| + 8 * 8
    {
      var i := 0;
      while i < TX_RETRY_BUDGET && count > 0
        invariant Valid() && Transmitted() && i <= TX_RETRY_BUDGET
        invariant freed == old(freed) && txDrop == old(txDrop)
        invariant wire + Pending() == old(wire) + old(Pending())
        invariant count > 0 ==> |answers| >= |old(answers)| + TX_RETRY_BUDGET * i
      {
        var sent := FlushTxPending();
        i := i + 1;
      }
      lost := Pending();
      DropTxPending();
    }

    /** The decision for one packet: snapshot, or fall back to the packet's own bytes when either
        generation check fails; a packet that cannot be parsed is dropped uncounted. */
    method ClassifyPacket(m: Mbuf, o: Loads) returns (forward: bool)
      modifies `spiForwarded, `spiDropped, `spiRuleChecks, `protocols, `freed
      ensures var e := OutcomeOf(m, o, storageEntries);
        && forward == e.forward
        && spiForwarded == old(spiForwarded) + (if e.forward then 1 else 0)
        && spiDropped == old(spiDropped) + (if e.forward then 0 else 1)
        && spiRuleChecks == old(spiRuleChecks) + (if e.record.Some? then 1 else 0)
        && protocols == (if e.record.Some? then AccountProtocol(old(protocols), e.record.value) else old(protocols))
        && freed == (if e.forward then old(freed) else old(freed) + [m])
      ensures var copied := m.flowIdx < storageEntries && o.gen1 == m.flowGen && o.gen2 == m.flowGen;
        var record := if copied then Some(o.slotCold) else ExtractCold(m.data, |m.data|);
        && (record.None? ==> !forward && protocols == old(protocols))
        && (record.Some? ==> && (forward <==> FirstMatch(o.rules, record.value) != ACTION_DROP)
                             && protocols == AccountProtocol(old(protocols), record.value))
    {
      RecordIsValidated(m, o, storageEntries);
      var cold, action;
      if m.flowIdx < storageEntries && o.gen1 == m.flowGen {
        cold := o.slotCold;
        if o.gen2 != m.flowGen {
          var parsed := ExtractCold(m.data, |m.data|);
          if parsed.None? {
            spiDropped, freed := spiDropped + 1, freed + [m];
            return false;
          }
          cold := parsed.value;
        }
        spiRuleChecks := spiRuleChecks + 1;
        action := FirstMatch(o.rules, cold);
      } else {
        var parsed := ExtractCold(m.data, |m.data|);
        if parsed.None? {
          spiDropped, freed := spiDropped + 1, freed + [m];
          return false;
        }
        cold := parsed.value;
        spiRuleChecks := spiRuleChecks + 1;
        action := FirstMatch(o.rules, cold);
      }
      protocols := AccountProtocol(protocols, cold);
      if action == ACTION_DROP {
        spiDropped, freed := spiDropped + 1, freed + [m];
        return false;
      }
      spiForwarded := spiForwarded + 1;
      return true;
    }

    /** One packet of a burst, in terms of the history. */
    method JudgeNext(m: Mbuf, o: Loads, ghost history: seq<Outcome>)
      returns (forward: bool, ghost history': seq<Outcome>)
      requires Judged(history)
      modifies `spiForwarded, `spiDropped, `spiRuleChecks, `protocols, `freed
      ensures Judged(history') && history' == history + [OutcomeOf(m, o, storageEntries)]
      ensures Forwarded(history') == if forward then Forwarded(history) + [m] else Forwarded(history)
    {
      ghost var e := OutcomeOf(m, o, storageEntries);
      HistoryLast(history, e);
      history' := history + [e];
      forward := ClassifyPacket(m, o);
    }

    /** tx_pkts[tx_count++] = m, for a forwarded packet, after those gathered `before`. */
    method Gather(tx: array<Mbuf>, txCount: nat, m: Mbuf, forward: bool, ghost before: seq<Mbuf>) returns (count': nat)
      requires txCount < tx.Length
      modifies tx
      ensures count' <= txCount + 1 && count' <= tx.Length
      ensures before + tx[..count']
           == if forward then before + old(tx[..txCount]) + [m] else before + old(tx[..txCount])
    {
      count' := txCount;
      if forward {
        tx[txCount] := m;
        count' := txCount + 1;
        assert tx[..count'] == old(tx[..txCount]) + [m];
      }
    }

    /** The loop over a dequeued burst: forwarded packets are gathered in order. */
    method ClassifyBurst(burst: array<Mbuf>, nbRx: nat, loads: seq<Loads>, tx: array<Mbuf>, ghost history: seq<Outcome>)
      returns (txCount: nat, ghost history': seq<Outcome>)
      requires nbRx <= burst.Length && nbRx <= tx.Length && nbRx <= |loads| && tx != burst && tx != pkts
      requires Judged(history)
      modifies `spiForwarded, `spiDropped, `spiRuleChecks, `protocols, `freed, tx
      ensures Judged(history')
      ensures history' == history + Outcomes(burst[..nbRx], loads, storageEntries)
      ensures txCount <= nbRx && Forwarded(history') == Forwarded(history) + tx[..txCount]
    {
      txCount, history' := 0, history;
      ghost var ms, before := burst[..nbRx], Forwarded(history);
      for i := 0 to nbRx
        invariant Judged(history') && burst[..nbRx] == ms
        invariant history' == history + Outcomes(ms[..i], loads, storageEntries)
        invariant txCount <= i && Forwarded(history') == before + tx[..txCount]
      {
        OutcomesLast(history, ms, i, loads, storageEntries);
        assert burst[i] == ms[i];
        var forward;
        forward, history' := JudgeNext(burst[i], loads[i], history');
        txCount := Gather(tx, txCount, burst[i], forward, before);
      }
      assert ms[..nbRx] == ms;
    }

    /** rte_ring_dequeue_burst */
    method DequeueBurst(burst: array<Mbuf>) returns (nbRx: nat)
      requires burst.Length == BURST_SIZE && burst != pkts
      modifies `ring, burst
      ensures nbRx == Min(BURST_SIZE, |old(ring)|)
      ensures burst[..nbRx] == old(ring)[..nbRx] && ring == old(ring)[nbRx..]
    {
      nbRx := if |ring| < BURST_SIZE then |ring| else BURST_SIZE;
      forall i | 0 <= i < nbRx {
        burst[i] := ring[i];
      }
      ring := ring[nbRx..];
    }

    /** What one turn adds: the oldest packets left the ring and were judged by the turn's loads. */
    ghost predicate TurnAdds(history: seq<Outcome>, history': seq<Outcome>, loads: seq<Loads>, before: seq<Mbuf>)
      reads `ring
    {
      var taken := |history'| - |history|;
      && 0 <= taken <= |before| && taken <= |loads| && ring == before[taken..]
      && history' == history + Outcomes(before[..taken], loads, storageEntries)
    }

    /** A flush between bursts: what is left keeps its place behind what was sent. */
    method FlushLeftover(ghost history: seq<Outcome>)
      requires Valid() && Settled(history)
      modifies `txPkts, `txBytes, `wire, `answers, `count, pkts, pktLens
      ensures Valid() && Settled(history) && |answers| >= |old(answers)|
      ensures count > 0 ==> GaveUp(answers, old(answers))
    {
      if count > 0 {
        var sent := FlushTxPending();
      }
    }

    /** One turn of the worker's loop. Staging always finds an empty queue, so no forwarded
        packet is ever dropped here. A full burst is taken unless an earlier one is still stuck,
        and nothing is left pending unless the driver refused eight times in a row. */
    method LoopOnce(turn: Turn, ghost history: seq<Outcome>) returns (ghost history': seq<Outcome>)
      requires Valid() && Settled(history) && |turn.loads| >= BURST_SIZE
      modifies this, pkts, pktLens
      ensures Valid() && Settled(history')
      ensures TurnAdds(history, history', turn.loads, old(ring) + turn.arrivals)
      ensures count > 0 ==> GaveUp(answers, old(answers))
      ensures |history'| - |history| == Min(32, |old(ring) + turn.arrivals|)
              || (history' == history && count > 0)
    {
      ring := ring + turn.arrivals;
      history' := history;
      NothingTaken(history, turn.loads, ring, storageEntries);
      FlushLeftover(history);
      if count > 0 || |ring| == 0 {
        return;
      }
      history' := HandleBurst(turn.loads, history);
    }

    /** Staging into an empty queue loses nothing, whatever the driver then accepts. */
    method Transmit(tx: array<Mbuf>, txCount: nat)
      requires Valid() && Transmitted() && count == 0 && txCount <= BURST_SIZE <= tx.Length && tx != pkts
      modifies `txPkts, `txBytes, `txDrop, `wire, `freed, `answers, `count, pkts, pktLens
      ensures Valid() && Transmitted() && wire + Pending() == old(wire) + tx[..txCount]
      ensures freed == old(freed) && txDrop == old(txDrop) && (count > 0 ==> GaveUp(answers, old(answers)))
    {
      StageTxBurst(tx, txCount);
      assert Pending() == tx[..txCount] && freed == old(freed) + [];
      var sent := FlushTxPending();
    }

    /** Dequeue a burst and classify it. */
    method ReceiveBurst(tx: array<Mbuf>, loads: seq<Loads>, ghost history: seq<Outcome>)
      returns (txCount: nat, ghost history': seq<Outcome>)
      requires workerRx == |history| && Judged(history) && |loads| >= BURST_SIZE && tx.Length == BURST_SIZE
      requires tx != pkts
      modifies `ring, `workerRx, `spiForwarded, `spiDropped, `spiRuleChecks, `protocols, `freed, tx
      ensures workerRx == |history'| && Judged(history') && TurnAdds(history, history', loads, old(ring))
      ensures |history'| - |history| == Min(BURST_SIZE, |old(ring)|)
      ensures txCount <= BURST_SIZE && Forwarded(history') == Forwarded(history) + tx[..txCount]
    {
      var burst := new Mbuf[BURST_SIZE](i => Mbuf(0, 0, 0, 0, []));
      var nbRx := DequeueBurst(burst);
      workerRx := workerRx + nbRx;
      txCount, history' := ClassifyBurst(burst, nbRx, loads, tx, history);
    }

    /** The rest of a turn, reached with an empty TX queue. */
    method HandleBurst(loads: seq<Loads>, ghost history: seq<Outcome>) returns (ghost history': seq<Outcome>)
      requires Valid() && Settled(history) && |loads| >= BURST_SIZE && count == 0
      modifies this, pkts, pktLens
      ensures Valid() && Settled(history')
      ensures TurnAdds(history, history', loads, old(ring)) && |history'| - |history| == Min(BURST_SIZE, |old(ring)|)
      ensures count > 0 ==> GaveUp(answers, old(answers))
    {
      assert wire + [] == wire && Pending() == [];
      var tx := new Mbuf[BURST_SIZE](i => Mbuf(0, 0, 0, 0, []));
      var txCount;
      txCount, history' := ReceiveBurst(tx, loads, history);
      if txCount == 0 {
        return;
      }
      Transmit(tx, txCount);
    }

    /** Any number of turns of worker_thread's loop. */
    method RunTurns(turns: seq<Turn>) returns (ghost history: seq<Outcome>)
      requires Valid() && Settled([]) && ring == []
      requires forall t | 0 <= t < |turns| :: |turns[t].loads| >= BURST_SIZE
      modifies this, pkts, pktLens
      ensures Valid() && Settled(history)
      ensures Mbufs(history) + ring == Arrivals(turns)
    {
      history := [];
      for t := 0 to |turns|
        invariant Valid() && Settled(history)
        invariant Mbufs(history) + ring == Arrivals(turns[..t])
      {
        assert turns[..t + 1][..t] == turns[..t];
        ghost var before, held := history, ring;
        history := LoopOnce(turns[t], history);
        FifoStep(before, held, turns[t].arrivals, Arrivals(turns[..t]), |history| - |before|, turns[t].loads,
                 storageEntries);
      }
      assert turns[..|turns|] == turns;
    }

    /** worker_thread: any number of turns, then the exit drain. The sequence of packets sent,
        followed by what the exit drops, is the forwarded subsequence of what was dequeued; every
        dequeued packet was sent or freed exactly once. */
    method Run(turns: seq<Turn>) returns (ghost history: seq<Outcome>, ghost lost: seq<Mbuf>)
      requires Valid() && Settled([]) && ring == []
      requires forall t | 0 <= t < |turns| :: |turns[t].loads| >= BURST_SIZE
      modifies this, pkts, pktLens
      ensures wire + lost == Forwarded(history) && freed == Dropped(history) + lost
      ensures Mbufs(history) + ring == Arrivals(turns)
      ensures multiset(wire) + multiset(freed) == multiset(Mbufs(history))
      ensures workerRx == |history| && Classified(history) && Transmitted() && txDrop == |lost| && count == 0
      ensures lost != [] ==> |answers| >= 8 * 8
    {
      history := RunTurns(turns);
      lost := DrainTxPendingOnExit();
      BooksClose(history, wire, lost, freed);
    }

    /** The counters at every loop boundary. */
    lemma BoundaryCounts(history: seq<Outcome>)
      requires Settled(history)
      ensures workerRx == spiDropped + spiForwarded
      ensures spiForwarded == txPkts + txDrop + count
      ensures protocols.Total() == spiRuleChecks <= workerRx
    {
      HistoryCounts(history);
      AccountedTotal(Records(history));
      assert |Forwarded(history)| == |wire| + |Pending()|;
    }
  }

  lemma SplitAt(sent: seq<Mbuf>, ms: seq<Mbuf>, n: nat)
    requires n <= |ms|
    ensures sent + ms[..n] + ms[n..] == sent + ms
  {
    assert ms[..n] + ms[n..] == ms;
  }

  lemma NothingTaken(history: seq<Outcome>, loads: seq<Loads>, ring: seq<Mbuf>, storageEntries: nat)
    ensures history == history + Outcomes(ring[..0], loads, storageEntries) && ring[0..] == ring
  {
  }

  /** Packets leave the ring in the order they arrived. */
  lemma FifoStep(history: seq<Outcome>, ring: seq<Mbuf>, arrivals: seq<Mbuf>, arrived: seq<Mbuf>, taken: nat,
                 loads: seq<Loads>, storageEntries: nat)
    requires Mbufs(history) + ring == arrived && taken <= |loads| && taken <= |ring + arrivals|
    ensures var all := ring + arrivals;
      Mbufs(history + Outcomes(all[..taken], loads, storageEntries)) + all[taken..] == arrived + arrivals
  {
    var all := ring + arrivals;
    var os := Outcomes(all[..taken], loads, storageEntries);
    OutcomesMbufs(all[..taken], loads, storageEntries);
    assert Mbufs(history + os) == Mbufs(history) + Mbufs(os);
    assert Mbufs(history) + all[..taken] + all[taken..] == Mbufs(history) + all;
  }

  /** Everything that ever arrived in the ring. */
  function Arrivals(turns: seq<Turn>): seq<Mbuf> {
    if turns == [] then []
    else Arrivals(turns[..|turns| - 1]) + turns[|turns| - 1].arrivals
  }
}
