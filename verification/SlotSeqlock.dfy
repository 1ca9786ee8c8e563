/** The side arrays at the granularity of single memory accesses: the dispatcher publishing a
    slot (src/dispatcher.c, publish_new_flow) against a worker validating and copying it
    (src/worker.c). The worker takes no part in RCU: only the generation protects it.

    Each store and load is one step and memory is sequentially consistent. `log` is the history
    of publications of each slot; the program does not keep it. */
module SlotSeqlock {
  import opened FlowTypes
  import opened Generation

  datatype Field = SrcIp | DstIp | SrcPort | DstPort | Protocol | CreateTime

  const FIELDS := 6

  /** The order in which flow_cold_from_key stores the fields. */
  function FieldAt(n: nat): Field
    requires n < FIELDS
  {
    if n == 0 then SrcIp else if n == 1 then DstIp else if n == 2 then SrcPort
    else if n == 3 then DstPort else if n == 4 then Protocol else CreateTime
  }

  predicate SameField(a: Cold, b: Cold, f: Field) {
    match f
    case SrcIp => a.srcIp == b.srcIp
    case DstIp => a.dstIp == b.dstIp
    case SrcPort => a.srcPort == b.srcPort
    case DstPort => a.dstPort == b.dstPort
    case Protocol => a.protocol == b.protocol
    case CreateTime => a.createTime == b.createTime
  }

  /** dst with field f taken from src. */
  function CopyField(dst: Cold, src: Cold, f: Field): (r: Cold)
    ensures SameField(r, src, f)
    ensures forall g | g != f :: SameField(r, dst, g)
  {
    match f
    case SrcIp => dst.(srcIp := src.srcIp)
    case DstIp => dst.(dstIp := src.dstIp)
    case SrcPort => dst.(srcPort := src.srcPort)
    case DstPort => dst.(dstPort := src.dstPort)
    case Protocol => dst.(protocol := src.protocol)
    case CreateTime => dst.(createTime := src.createTime)
  }

  lemma AllFieldsSame(a: Cold, b: Cold)
    requires forall f: Field :: SameField(a, b, f)
    ensures a == b
  {
    assert SameField(a, b, SrcIp) && SameField(a, b, DstIp) && SameField(a, b, SrcPort);
    assert SameField(a, b, DstPort) && SameField(a, b, Protocol) && SameField(a, b, CreateTime);
  }

  /** One publication of a slot: the owner, its creation time and its worker. */
  datatype Pub = Pub(key: Key, tsc: nat, worker: u8) {
    function Record(): Cold { ColdFromKey(key, tsc) }
  }

  /** Program points of publish_new_flow. Clear(n)/Fill(n): n stores of the memset / of the
      field assignments are done. */
  datatype Stage = Bump | BumpAgain | Clear(n: nat) | Fill(n: nat) | SetWorker | SetLastSeen

  datatype Writer = Quiet | Busy(slot: nat, pub: Pub, stage: Stage)

  datatype Side = Side(hot: seq<Hot>, cold: seq<Cold>, log: seq<seq<Pub>>, writer: Writer) {
    predicate Has(p: nat) { p < |hot| && p < |cold| && p < |log| }

    /** The key of the latest publication of slot p. */
    function Owner(p: nat): Key
      requires Has(p) && log[p] != []
    {
      log[p][|log[p]| - 1].key
    }

    /** The dispatcher is publishing p but has not yet advanced its generation. */
    predicate BeforeBump(p: nat) {
      writer.Busy? && writer.slot == p && (writer.stage.Bump? || writer.stage.BumpAgain?)
    }

    /** The generation of p has just wrapped to 0 and is about to be bumped once more. */
    predicate Wrapping(p: nat) {
      writer.Busy? && writer.slot == p && writer.stage.BumpAgain?
    }

    /** The dispatcher is publishing p and its generation has already advanced. */
    predicate Rewriting(p: nat) {
      writer.Busy? && writer.slot == p && !BeforeBump(p)
    }
  }

  function ZeroSide(slots: nat): Side {
    Side(seq(slots, i => ZERO_HOT), seq(slots, i => ZERO_COLD), seq(slots, i => []), Quiet)
  }

  function Begin(s: Side, p: nat, pub: Pub): Side {
    s.(writer := Busy(p, pub, Bump))
  }

  /** flow_hot_last_seen_store on a lookup hit. */
  function Touch(s: Side, p: nat, tsc: nat): Side
    requires s.Has(p)
  {
    s.(hot := s.hot[p := s.hot[p].(lastSeen := tsc)])
  }

  function SetGen(s: Side, p: nat): Side
    requires s.Has(p)
  {
    s.(hot := s.hot[p := s.hot[p].(gen := AddFetch(s.hot[p].gen))])
  }

  function SetCold(s: Side, p: nat, src: Cold, f: Field): Side
    requires s.Has(p)
  {
    s.(cold := s.cold[p := CopyField(s.cold[p], src, f)])
  }

  function Logged(s: Side, p: nat, pub: Pub): Side
    requires s.Has(p)
  {
    s.(log := s.log[p := s.log[p] + [pub]], writer := Busy(p, pub, Clear(0)))
  }

  predicate CanWrite(s: Side) {
    s.writer.Busy? && s.Has(s.writer.slot) &&
    (s.writer.stage.Clear? || s.writer.stage.Fill? ==> s.writer.stage.n < FIELDS)
  }

  /** The next memory access of publish_new_flow. */
  function WriterStep(s: Side): Side
    requires CanWrite(s)
  {
    var p, pub := s.writer.slot, s.writer.pub;
    match s.writer.stage
    case Bump =>
      var s' := SetGen(s, p);
      if s'.hot[p].gen == 0 then s'.(writer := Busy(p, pub, BumpAgain)) else Logged(s', p, pub)
    case BumpAgain => Logged(SetGen(s, p), p, pub)
    case Clear(n) =>
      SetCold(s, p, ZERO_COLD, FieldAt(n)).(writer := Busy(p, pub, if n + 1 < FIELDS then Clear(n + 1) else Fill(0)))
    case Fill(n) =>
      var next := if n + 1 < FIELDS then Fill(n + 1) else SetWorker;
      SetCold(s, p, pub.Record(), FieldAt(n)).(writer := Busy(p, pub, next))
    case SetWorker =>
      s.(hot := s.hot[p := s.hot[p].(worker := pub.worker)], writer := Busy(p, pub, SetLastSeen))
    case SetLastSeen =>
      Touch(s, p, pub.tsc).(writer := Quiet)
  }

  /** Slot p shows exactly its latest publication, or nothing if it never had one. */
  ghost predicate Complete(s: Side, p: nat)
    requires s.Has(p)
  {
    && (s.hot[p].lastSeen == 0 <==> s.log[p] == [])
    && (s.log[p] != [] ==>
          var last := s.log[p][|s.log[p]| - 1];
          s.cold[p] == last.Record() && s.hot[p].worker == last.worker)
  }

  /** What holds of slot p while it is being rewritten. */
  ghost predicate Partial(s: Side, p: nat)
    requires s.Has(p) && s.writer.Busy?
  {
    var pub, stage := s.writer.pub, s.writer.stage;
    && s.log[p] != [] && s.log[p][|s.log[p]| - 1] == pub
    && (s.hot[p].lastSeen == 0 <==> |s.log[p]| == 1)
    && (stage.Clear? ==> stage.n < FIELDS)
    && (stage.Fill? ==>
        stage.n < FIELDS && forall i | 0 <= i < stage.n :: SameField(s.cold[p], pub.Record(), FieldAt(i)))
    && (stage.SetWorker? || stage.SetLastSeen? ==> s.cold[p] == pub.Record())
    && (stage.SetLastSeen? ==> s.hot[p].worker == pub.worker)
  }

  ghost predicate SlotInv(s: Side, p: nat)
    requires s.Has(p)
  {
    && (s.Wrapping(p) ==> s.hot[p].gen == 0 && s.log[p] != [] && GenAfter(|s.log[p]|) == GEN_PERIOD)
    && (!s.Wrapping(p) ==> s.hot[p].gen == GenAfter(|s.log[p]|))
    && (s.Rewriting(p) ==> Partial(s, p))
    && (!s.Rewriting(p) ==> Complete(s, p))
  }

  ghost predicate SideInv(s: Side) {
    && |s.hot| == |s.cold| == |s.log|
    && (forall p | 0 <= p < |s.log| :: SlotInv(s, p))
    && (s.writer.Busy? ==> s.Has(s.writer.slot) && s.writer.pub.tsc > 0)
  }

  lemma ZeroSideInv(slots: nat)
    ensures SideInv(ZeroSide(slots))
  {
  }

  lemma BeginKeepsSide(s: Side, p: nat, pub: Pub)
    requires SideInv(s) && s.writer.Quiet? && s.Has(p) && pub.tsc > 0
    ensures SideInv(Begin(s, p, pub))
  {
    var s' := Begin(s, p, pub);
    forall q | 0 <= q < |s.log| ensures SlotInv(s', q) {
      assert SlotInv(s, q) && Complete(s, q);
    }
  }

  lemma TouchKeepsSide(s: Side, p: nat, tsc: nat)
    requires SideInv(s) && s.writer.Quiet? && s.Has(p) && tsc > 0 && s.log[p] != []
    ensures SideInv(Touch(s, p, tsc))
  {
    var s' := Touch(s, p, tsc);
    assert SlotInv(s, p);
    forall q | 0 <= q < |s.log| ensures SlotInv(s', q) {
      assert SlotInv(s, q);
    }
  }

  lemma FillDone(c: Cold, src: Cold)
    requires forall i | 0 <= i < FIELDS :: SameField(c, src, FieldAt(i))
    ensures c == src
  {
    assert SameField(c, src, FieldAt(0)) && SameField(c, src, FieldAt(1)) && SameField(c, src, FieldAt(2));
    assert SameField(c, src, FieldAt(3)) && SameField(c, src, FieldAt(4)) && SameField(c, src, FieldAt(5));
  }

  lemma WriterStepOnSlot(s: Side)
    requires SideInv(s) && CanWrite(s)
    ensures SlotInv(WriterStep(s), s.writer.slot)
  {
    var s', p, stage := WriterStep(s), s.writer.slot, s.writer.stage;
    assert SlotInv(s, p);
    match stage {
      case Bump =>
        if s.log[p] != [] { GenAfterClosedForm(|s.log[p]|); }
        assert s.log[p] + [s.writer.pub] != [];
      case Fill(n) =>
        forall i | 0 <= i < n + 1 ensures SameField(s'.cold[p], s.writer.pub.Record(), FieldAt(i)) {}
        if n + 1 == FIELDS { FillDone(s'.cold[p], s.writer.pub.Record()); }
      case _ =>
    }
  }

  /** Every memory access of a publication keeps the slot invariant, so after the last one the
      slot shows the new owner completely. */
  lemma WriterStepKeepsSide(s: Side)
    requires SideInv(s) && CanWrite(s)
    ensures SideInv(WriterStep(s))
  {
    var s' := WriterStep(s);
    forall q | 0 <= q < |s.log| ensures SlotInv(s', q) {
      if q == s.writer.slot { WriterStepOnSlot(s); } else { assert SlotInv(s, q); }
    }
  }

  // ---------------------------------------------------------------- stamps and readers

  /** The (flow_idx, flow_gen) stamp of a packet together with the worker it was routed to.
      pub is the ordinal of the publication the stamp was taken from. */
  datatype Stamp = Stamp(slot: nat, gen: u32, worker: u8, pub: nat)

  ghost predicate StampInv(s: Side, t: Stamp) {
    && s.Has(t.slot)
    && 1 <= t.pub <= |s.log[t.slot]|
    && t.gen == GenAfter(t.pub)
    && t.worker == s.log[t.slot][t.pub - 1].worker
    && (s.Rewriting(t.slot) ==> t.pub < |s.log[t.slot]|)
  }

  /** The publication a stamp was taken from. */
  ghost function Source(s: Side, t: Stamp): Pub
    requires StampInv(s, t)
  {
    s.log[t.slot][t.pub - 1]
  }

  lemma StampSurvivesWriter(s: Side, t: Stamp)
    requires SideInv(s) && CanWrite(s) && StampInv(s, t)
    ensures StampInv(WriterStep(s), t) && Source(WriterStep(s), t) == Source(s, t)
  {
    var s' := WriterStep(s);
    assert s.log[t.slot] <= s'.log[t.slot];
  }

  /** A worker's progress on one packet. */
  datatype Read =
    | Unchecked
    | Copying(buf: Cold, done: set<Field>)  // first check passed
    | Snapshot(buf: Cold, at: nat)          // second check passed, `at` publications seen then
    | Reparse(second: bool)                 // a check failed: fall back to the packet bytes

  /** First generation check. */
  function FirstCheck(s: Side, t: Stamp): Read {
    if s.Has(t.slot) && s.hot[t.slot].gen == t.gen then Copying(ZERO_COLD, {}) else Reparse(false)
  }

  /** One field of the structure copy; the compiler may choose any order. */
  function CopyOne(s: Side, t: Stamp, r: Read, f: Field): Read
    requires r.Copying? && s.Has(t.slot)
  {
    Copying(CopyField(r.buf, s.cold[t.slot], f), r.done + {f})
  }

  ghost predicate CopiedAll(r: Read) {
    r.Copying? && forall f: Field :: f in r.done
  }

  /** Second generation check. */
  function SecondCheck(s: Side, t: Stamp, r: Read): Read
    requires r.Copying? && s.Has(t.slot)
  {
    if s.hot[t.slot].gen == t.gen then Snapshot(r.buf, |s.log[t.slot]|) else Reparse(true)
  }

  ghost predicate ReadInv(s: Side, t: Stamp, r: Read)
    requires StampInv(s, t)
  {
    match r
    case Copying(buf, done) =>
      |s.log[t.slot]| == t.pub && s.hot[t.slot].gen == t.gen ==>
        forall f | f in done :: SameField(buf, Source(s, t).Record(), f)
    case Snapshot(buf, at) =>
      && t.pub <= at <= |s.log[t.slot]|
      && (at - t.pub < GEN_PERIOD ==> buf == Source(s, t).Record())
    case _ => true
  }

  lemma WriterKeepsRead(s: Side, t: Stamp, r: Read)
    requires SideInv(s) && CanWrite(s) && StampInv(s, t) && ReadInv(s, t, r)
    ensures StampInv(WriterStep(s), t) && ReadInv(WriterStep(s), t, r)
  {
    StampSurvivesWriter(s, t);
    assert SlotInv(s, t.slot);
    WriterStepKeepsSide(s);
    assert SlotInv(WriterStep(s), t.slot);
    GenAfterClosedForm(t.pub);
  }

  lemma CopyKeepsRead(s: Side, t: Stamp, r: Read, f: Field)
    requires SideInv(s) && StampInv(s, t) && ReadInv(s, t, r) && r.Copying?
    ensures ReadInv(s, t, CopyOne(s, t, r, f))
  {
    assert SlotInv(s, t.slot);
  }

  /** Passing the second check within one generation period means the slot was never
      republished, so the copy is the complete record of the stamping publication. */
  lemma SecondCheckKeepsRead(s: Side, t: Stamp, r: Read)
    requires SideInv(s) && StampInv(s, t) && ReadInv(s, t, r) && CopiedAll(r)
    ensures ReadInv(s, t, SecondCheck(s, t, r))
  {
    assert SlotInv(s, t.slot);
    var n := |s.log[t.slot]|;
    if s.hot[t.slot].gen == t.gen && n - t.pub < GEN_PERIOD {
      GenAfterClosedForm(t.pub);
      StampIsUnique(t.pub, n);
      AllFieldsSame(r.buf, Source(s, t).Record());
    }
  }

  /** When the window is exceeded the check is only as good as the 32-bit counter: on a slot at
      rest it accepts exactly the stamps whose distance is a multiple of 2^32-1, and then copies
      the current owner, who is the packet's own only if no republication happened or the
      record is the same. */
  lemma RestingSlotAccepts(s: Side, t: Stamp)
    requires SideInv(s) && s.writer.Quiet? && StampInv(s, t)
    ensures FirstCheck(s, t).Copying? <==> (|s.log[t.slot]| - t.pub) % GEN_PERIOD == 0
    ensures s.cold[t.slot] == s.log[t.slot][|s.log[t.slot]| - 1].Record()
  {
    assert SlotInv(s, t.slot);
    SameStampIff(t.pub, |s.log[t.slot]|);
  }

  // ---------------------------------------------------------------- an undisturbed publication

  /** The whole of publish_new_flow on the arrays, as one update. */
  function Published(s: Side, p: nat, pub: Pub): Side
    requires s.Has(p)
  {
    Side(s.hot[p := Hot(pub.tsc, NextGen(s.hot[p].gen), pub.worker)], s.cold[p := pub.Record()],
         s.log[p := s.log[p] + [pub]], Quiet)
  }

  /** Number of accesses still to come. */
  function Remaining(w: Writer): nat {
    match w
    case Quiet => 0
    case Busy(_, _, stage) =>
      match stage
      case Bump => 17
      case BumpAgain => 16
      case Clear(n) => if n < FIELDS then 15 - n else 9
      case Fill(n) => if n < FIELDS then 9 - n else 3
      case SetWorker => 2
      case SetLastSeen => 1
  }

  /** Running the remaining accesses of a publication without interruption. */
  function Finish(s: Side): Side
    requires SideInv(s)
    decreases Remaining(s.writer)
  {
    if s.writer.Quiet? then s
    else
      assert SlotInv(s, s.writer.slot);
      WriterStepKeepsSide(s);
      Finish(WriterStep(s))
  }

  lemma {:induction false} FinishResult(s: Side)
    requires SideInv(s) && s.writer.Busy?
    requires s.Rewriting(s.writer.slot)
    ensures var p, pub, f := s.writer.slot, s.writer.pub, Finish(s);
      && f.writer == Quiet && f.log == s.log && f.cold == s.cold[p := pub.Record()]
      && f.hot == s.hot[p := Hot(pub.tsc, s.hot[p].gen, pub.worker)]
    decreases Remaining(s.writer)
  {
    var p := s.writer.slot;
    assert SlotInv(s, p);
    var s' := WriterStep(s);
    WriterStepKeepsSide(s);
    if !s.writer.stage.SetLastSeen? {
      FinishResult(s');
    }
  }

  /** The access-by-access publication refines the single update that the sequential
      dispatcher performs. */
  lemma PublicationRefinesUpdate(s: Side, p: nat, pub: Pub)
    requires SideInv(s) && s.writer.Quiet? && s.Has(p) && pub.tsc > 0
    ensures SideInv(Begin(s, p, pub))
    ensures Finish(Begin(s, p, pub)) == Published(s, p, pub)
  {
    BeginKeepsSide(s, p, pub);
    var b := Begin(s, p, pub);
    assert SlotInv(b, p);
    WriterStepKeepsSide(b);
    var b1 := WriterStep(b);
    assert SlotInv(b1, p);
    if b1.writer.stage.BumpAgain? {
      WriterStepKeepsSide(b1);
      FinishResult(WriterStep(b1));
    } else {
      FinishResult(b1);
    }
  }
}
