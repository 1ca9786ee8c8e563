/** Functions that specify a worker thread (src/worker.c): what it decides about a packet from
    the memory loads it made, and what a history of packets adds up to. */
module WorkerSpec {
  import opened FlowTypes
  import opened FlowPacket
  import opened RuleEngine
  import opened Generation
  import opened SlotSeqlock
  import Pipeline = FlowPipeline

  /** What a worker's loads for one packet returned: the two generation checks, the structure
      copy between them, and the rules in force. Other threads decide these values. */
  datatype Loads = Loads(gen1: u32, slotCold: Cold, gen2: u32, rules: seq<Rule>)

  predicate FirstCheckPasses(m: Mbuf, o: Loads, storageEntries: nat) {
    m.flowIdx < storageEntries && o.gen1 == m.flowGen
  }

  predicate SnapshotAccepted(m: Mbuf, o: Loads, storageEntries: nat) {
    FirstCheckPasses(m, o, storageEntries) && o.gen2 == m.flowGen
  }

  /** A handled packet: the record it was classified with, None when it had to be parsed again
      and could not, and whether it goes on to the TX queue. */
  datatype Outcome = Outcome(mbuf: Mbuf, record: Option<Cold>, forward: bool)

  function OutcomeOf(m: Mbuf, o: Loads, storageEntries: nat): Outcome {
    var record := if SnapshotAccepted(m, o, storageEntries) then Some(o.slotCold) else ExtractCold(m.data, |m.data|);
    Outcome(m, record, record.Some? && FirstMatch(o.rules, record.value) != ACTION_DROP)
  }

  /** The copied record is used exactly when the index is in range and the generation was the
      stamp's before and after the copy; otherwise the packet's own bytes are. */
  lemma RecordIsValidated(m: Mbuf, o: Loads, storageEntries: nat)
    ensures m.flowIdx < storageEntries && o.gen1 == m.flowGen && o.gen2 == m.flowGen ==>
      OutcomeOf(m, o, storageEntries).record == Some(o.slotCold)
    ensures m.flowIdx >= storageEntries || o.gen1 != m.flowGen || o.gen2 != m.flowGen ==>
      OutcomeOf(m, o, storageEntries).record == ExtractCold(m.data, |m.data|)
  {
  }

  /** The loads, seen as the pipeline's reader state at the end of its checks. */
  function ReadOf(m: Mbuf, o: Loads, storageEntries: nat, at: nat): Read {
    if SnapshotAccepted(m, o, storageEntries) then Snapshot(o.slotCold, at)
    else Reparse(FirstCheckPasses(m, o, storageEntries))
  }

  /** The loads were made from the slot of stamp t, the first check in s1, the second in s2. */
  ghost predicate LoadedFrom(m: Mbuf, o: Loads, s1: Side, s2: Side, t: Stamp) {
    && t.slot == m.flowIdx && t.gen == m.flowGen
    && |s1.hot| == |s1.cold| == |s1.log| == |s2.hot| == |s2.cold| == |s2.log|
    && (t.slot < |s1.hot| ==> o.gen1 == s1.hot[t.slot].gen && o.gen2 == s2.hot[t.slot].gen)
  }

  /** What the worker does with its loads is the reader of the seqlock: the first check in the
      state of the first load, the second in the state of the last. */
  lemma ReadIsTheSeqlock(m: Mbuf, o: Loads, s1: Side, s2: Side, t: Stamp, done: set<Field>)
    requires LoadedFrom(m, o, s1, s2, t)
    ensures var first := FirstCheck(s1, t);
      && (first.Copying? ==> s2.Has(t.slot))
      && ReadOf(m, o, |s1.hot|, if t.slot < |s2.log| then |s2.log[t.slot]| else 0)
         == if first.Reparse? then first else SecondCheck(s2, t, Copying(o.slotCold, done))
  {
  }

  /** So a record the worker uses without parsing is the complete record of the publication its
      packet was stamped from, whatever the dispatcher stored in between. */
  lemma AcceptedRecordIsTheOwners(m: Mbuf, o: Loads, s1: Side, s2: Side, t: Stamp, done: set<Field>)
    requires LoadedFrom(m, o, s1, s2, t) && SideInv(s2) && StampInv(s2, t) && CopiedAll(Copying(o.slotCold, done))
    requires ReadInv(s2, t, Copying(o.slotCold, done))
    requires |s2.log[t.slot]| - t.pub < GEN_PERIOD && OutcomeOf(m, o, |s1.hot|).record != ExtractCold(m.data, |m.data|)
    ensures OutcomeOf(m, o, |s1.hot|).record == Some(Source(s2, t).Record())
  {
    RecordIsValidated(m, o, |s1.hot|);
    SecondCheckKeepsRead(s2, t, Copying(o.slotCold, done));
  }

  /** The worker forwards a packet exactly when the interleaved pipeline classifies the same
      reader state with another action than DROP. */
  lemma ForwardsAsThePipeline(m: Mbuf, o: Loads, storageEntries: nat, key: Key, at: nat)
    ensures OutcomeOf(m, o, storageEntries).forward
       <==> Pipeline.ActionFor(o.rules, Pipeline.Input(m.data, key), ReadOf(m, o, storageEntries, at)) != ACTION_DROP
  {
  }

  /** The outcomes of a burst, packet i judged by loads[i]. */
  function Outcomes(ms: seq<Mbuf>, loads: seq<Loads>, storageEntries: nat): (os: seq<Outcome>)
    requires |ms| <= |loads|
    ensures |os| == |ms|
  {
    if ms == [] then []
    else
      var n := |ms| - 1;
      Outcomes(ms[..n], loads, storageEntries) + [OutcomeOf(ms[n], loads[n], storageEntries)]
  }

  /** One more packet of the burst. */
  lemma OutcomesLast(history: seq<Outcome>, ms: seq<Mbuf>, i: nat, loads: seq<Loads>, storageEntries: nat)
    requires i < |ms| <= |loads|
    ensures history + Outcomes(ms[..i], loads, storageEntries) + [OutcomeOf(ms[i], loads[i], storageEntries)]
         == history + Outcomes(ms[..i + 1], loads, storageEntries)
  {
    assert ms[..i + 1][..i] == ms[..i] && ms[..i + 1] != [];
    assert Outcomes(ms[..i + 1], loads, storageEntries)
      == Outcomes(ms[..i], loads, storageEntries) + [OutcomeOf(ms[i], loads[i], storageEntries)];
  }

  lemma {:induction false} OutcomesMbufs(ms: seq<Mbuf>, loads: seq<Loads>, storageEntries: nat)
    requires |ms| <= |loads|
    ensures Mbufs(Outcomes(ms, loads, storageEntries)) == ms
    decreases |ms|
  {
    if ms == [] {
    } else {
      var n := |ms| - 1;
      OutcomesMbufs(ms[..n], loads, storageEntries);
      OutcomesLast([], ms, n, loads, storageEntries);
      var init, e := Outcomes(ms[..n], loads, storageEntries), OutcomeOf(ms[n], loads[n], storageEntries);
      assert Mbufs(init + [e]) == Mbufs(init) + [e.mbuf];
      assert ms == ms[..n] + [ms[n]];
    }
  }

  /** The packets of a history that were forwarded / dropped, in order. */
  function Forwarded(history: seq<Outcome>): seq<Mbuf> {
    if history == [] then []
    else
      var n := |history| - 1;
      if history[n].forward then Forwarded(history[..n]) + [history[n].mbuf] else Forwarded(history[..n])
  }

  function Dropped(history: seq<Outcome>): seq<Mbuf> {
    if history == [] then []
    else
      var n := |history| - 1;
      if history[n].forward then Dropped(history[..n]) else Dropped(history[..n]) + [history[n].mbuf]
  }

  /** The records of the packets that reached the rule engine. */
  function Records(history: seq<Outcome>): seq<Cold> {
    if history == [] then []
    else
      var n := |history| - 1;
      if history[n].record.Some? then Records(history[..n]) + [history[n].record.value] else Records(history[..n])
  }

  function Accounted(records: seq<Cold>): ProtocolCounters {
    if records == [] then ProtocolCounters(0, 0, 0, 0, 0, 0)
    else AccountProtocol(Accounted(records[..|records| - 1]), records[|records| - 1])
  }

  function Mbufs(history: seq<Outcome>): (ms: seq<Mbuf>)
    ensures |ms| == |history| && forall i | 0 <= i < |ms| :: ms[i] == history[i].mbuf
  {
    seq(|history|, i requires 0 <= i < |history| => history[i].mbuf)
  }

  function TotalLen(ms: seq<Mbuf>): nat {
    if ms == [] then 0 else TotalLen(ms[..|ms| - 1]) + ms[|ms| - 1].len
  }

  lemma TotalLenLast(ms: seq<Mbuf>, m: Mbuf)
    ensures TotalLen(ms + [m]) == TotalLen(ms) + m.len
  {
    assert (ms + [m])[..|ms|] == ms;
  }

  lemma {:induction false} TotalLenAppend(a: seq<Mbuf>, b: seq<Mbuf>)
    ensures TotalLen(a + b) == TotalLen(a) + TotalLen(b)
    decreases |b|
  {
    if b == [] {
      assert a + b == a;
    } else {
      var n := |b| - 1;
      TotalLenAppend(a, b[..n]);
      TotalLenLast(a + b[..n], b[n]);
      assert a + b == a + b[..n] + [b[n]];
    }
  }

  /** Appending one handled packet to a history. */
  lemma HistoryLast(history: seq<Outcome>, e: Outcome)
    ensures Forwarded(history + [e]) == if e.forward then Forwarded(history) + [e.mbuf] else Forwarded(history)
    ensures Dropped(history + [e]) == if e.forward then Dropped(history) else Dropped(history) + [e.mbuf]
    ensures Records(history + [e]) == if e.record.Some? then Records(history) + [e.record.value] else Records(history)
    ensures e.record.Some? ==>
      Accounted(Records(history + [e])) == AccountProtocol(Accounted(Records(history)), e.record.value)
    ensures Mbufs(history + [e]) == Mbufs(history) + [e.mbuf]
  {
    assert (history + [e])[..|history|] == history;
    if e.record.Some? {
      var r := Records(history);
      assert (r + [e.record.value])[..|r|] == r;
    }
  }

  /** Every handled packet is forwarded or dropped, never both and never lost. */
  lemma {:induction false} HistoryConserves(history: seq<Outcome>)
    ensures multiset(Forwarded(history)) + multiset(Dropped(history)) == multiset(Mbufs(history))
    decreases |history|
  {
    if history == [] {
    } else {
      var n := |history| - 1;
      var init, e := history[..n], history[n];
      HistoryConserves(init);
      assert history == init + [e];
      assert Mbufs(history) == Mbufs(init) + [e.mbuf];
    }
  }

  lemma {:induction false} HistoryCounts(history: seq<Outcome>)
    ensures |Forwarded(history)| + |Dropped(history)| == |history|
    ensures |Records(history)| <= |history|
    decreases |history|
  {
    if history == [] {
    } else {
      HistoryCounts(history[..|history| - 1]);
    }
  }

  /** Every packet with a record is in exactly one protocol counter. */
  lemma {:induction false} AccountedTotal(records: seq<Cold>)
    ensures Accounted(records).Total() == |records|
    decreases |records|
  {
    if records == [] {
    } else {
      AccountedTotal(records[..|records| - 1]);
    }
  }

  /** When a worker has exited, every packet it took from its ring was either sent or freed,
      exactly once, even though the exit may have dropped packets it had already forwarded. */
  lemma BooksClose(history: seq<Outcome>, wire: seq<Mbuf>, lost: seq<Mbuf>, freed: seq<Mbuf>)
    requires wire + lost == Forwarded(history) && freed == Dropped(history) + lost
    ensures multiset(wire) + multiset(freed) == multiset(Mbufs(history))
    ensures |Forwarded(history)| == |wire| + |lost| && |history| == |wire| + |freed|
  {
    HistoryConserves(history);
    HistoryCounts(history);
    assert multiset(wire + lost) == multiset(wire) + multiset(lost);
    assert multiset(Dropped(history) + lost) == multiset(Dropped(history)) + multiset(lost);
  }
}
