/** Safety of delivery over whole runs: every interleaving of the two probe loops, the link and central. */
module DeliveryRuns {
  import opened Wrappers
  import opened Wire
  import opened SpillBuffer
  import opened Ingest
  import opened Delivery

  datatype State = State(now: int, central: Central, probe: Probe, replies: set<(nat, Reply)>)

  datatype Event =
    | Write(sample: Sample)
    | WriteChange(change: Change)
    | Advance(ms: nat)
    | Flush(id: nat, size: nat, built: bool)
    | Flushed(flushReply: Option<Reply>, at: int, working: nat)
    | Pick
    | Drained(drainReply: Option<Reply>, deleteWorks: bool)
    | Arrive(k: nat, gate: Gate, statements: nat)
    | Sweep(sweepWorks: bool)

  function Init(now: int): State {
    State(now, Central(map[], [], [], []), IDLE, {})
  }

  // A loop may see a reply only if central gave it to that batch; seeing none is always possible.
  predicate Heard(s: State, b: Option<Batch>, reply: Option<Reply>) {
    reply.Some? ==> b.Some? && (b.value.id, reply.value) in s.replies
  }

  // The link may deliver any batch ever built, at any time and any number of times.
  function Apply(cfg: Config, s: State, e: Event): State {
    match e
    case Write(x) => s.(probe := Accept(cfg, s.probe, x))
    case WriteChange(x) => s.(probe := AcceptChange(cfg, s.probe, x))
    case Advance(ms) => s.(now := s.now + ms)
    case Flush(id, size, built) => s.(probe := TakeQueue(cfg, s.probe, id, size, built))
    case Flushed(r, at, w) =>
      if !Heard(s, s.probe.flushing, r) then s
      else s.(probe := SettleFlush(cfg, s.probe, Classify(r), at, w))
    case Pick => s.(probe := PickOldest(s.probe))
    case Drained(r, dw) =>
      if !Heard(s, s.probe.draining, r) then s
      else s.(probe := SettleDrain(s.probe, Classify(r), dw))
    case Arrive(k, gate, w) =>
      if k >= |s.probe.formed| then s
      else
        var (c, r) := Handle(s.central, s.probe.formed[k], s.now, gate, w);
        s.(central := c, replies := s.replies + {(s.probe.formed[k].id, r)})
    case Sweep(works) => if works then s.(central := Prune(s.central, s.now - DAY)) else s
  }

  function Run(cfg: Config, s: State, es: seq<Event>): State {
    if es == [] then s else Apply(cfg, Run(cfg, s, es[..|es| - 1]), es[|es| - 1])
  }

  // ---- what every step keeps ----

  predicate Stored(rs: seq<Receipt>, b: Batch) {
    exists i :: 0 <= i < |rs| && rs[i].batch == b
  }

  predicate Spilled(t: seq<Pending>, b: Batch) {
    exists i :: 0 <= i < |t| && t[i].batch == b
  }

  function AllRows(bs: seq<Batch>): multiset<Row> {
    if bs == [] then multiset{} else AllRows(bs[..|bs| - 1]) + multiset(Rows(bs[|bs| - 1]))
  }

  function ReceiptBatches(rs: seq<Receipt>): seq<Batch> {
    seq(|rs|, i requires 0 <= i < |rs| => rs[i].batch)
  }

  predicate DistinctIds(bs: seq<Batch>) {
    forall i, j | 0 <= i < j < |bs| :: bs[i].id != bs[j].id
  }

  // Every batch in sight is one the probe built.
  predicate Known(formed: seq<Batch>, b: Option<Batch>) {
    b.Some? ==> b.value in formed
  }

  predicate PendingKnown(formed: seq<Batch>, t: seq<Pending>) {
    forall i | 0 <= i < |t| :: t[i].batch in formed
  }

  predicate ReceiptsKnown(formed: seq<Batch>, rs: seq<Receipt>) {
    forall i | 0 <= i < |rs| :: rs[i].batch in formed
  }

  // Ids in the log and in replies were all issued by the probe.
  predicate Issued(formed: seq<Batch>, log: map<nat, int>, replies: set<(nat, Reply)>) {
    && (forall id | id in log :: UsedId(formed, id))
    && (forall x | x in replies :: UsedId(formed, x.0))
  }

  // No silent loss, part one: every accepted row is queued, in a built batch, or in the
  // batch-id/marshal loss class.
  predicate Conserved(cfg: Config, ss: seq<Sample>, cs: seq<Change>, accepted: multiset<Row>, unbuilt: multiset<Row>,
                      formed: seq<Batch>)
  {
    accepted == QueueRows(cfg, ss, cs) + unbuilt + AllRows(formed)
  }

  // Part two: every built batch is somewhere.
  predicate Located(formed: seq<Batch>, flushing: Option<Batch>, t: seq<Pending>, rs: seq<Receipt>,
                    lost: map<nat, Loss>)
  {
    forall i | 0 <= i < |formed| :: Placed(formed[i], flushing, t, rs, lost)
  }

  predicate Placed(b: Batch, flushing: Option<Batch>, t: seq<Pending>, rs: seq<Receipt>, lost: map<nat, Loss>) {
    flushing == Some(b) || Spilled(t, b) || Stored(rs, b) || b.id in lost
  }

  // What central acknowledged or remembers, it wrote.
  predicate Honest(formed: seq<Batch>, log: map<nat, int>, replies: set<(nat, Reply)>, rs: seq<Receipt>) {
    forall i | 0 <= i < |formed| ::
      formed[i].id in log || (formed[i].id, Status2xx) in replies ==> Stored(rs, formed[i])
  }

  // The tables hold the rows of the batches written, and nothing else.
  predicate Tables(c: Central) {
    multiset(c.samples) + multiset(c.changes) == AllRows(ReceiptBatches(c.receipts))
  }

  // A written batch is remembered, or was written more than a day ago.
  predicate Window(now: int, log: map<nat, int>, rs: seq<Receipt>) {
    forall i | 0 <= i < |rs| ::
      && rs[i].at <= now
      && ((rs[i].batch.id in log && log[rs[i].batch.id] >= rs[i].at) || rs[i].at < now - DAY)
  }

  // Two writes of one batch id: every row of the second is newer than the first write.
  predicate Repeats(rs: seq<Receipt>) {
    forall i, j | 0 <= i < j < |rs| && rs[i].batch.id == rs[j].batch.id :: AllAfter(rs[j].batch, rs[i].at)
  }

  predicate Inv(cfg: Config, s: State) {
    var p, c := s.probe, s.central;
    && DistinctIds(p.formed) && Known(p.formed, p.flushing) && Known(p.formed, p.draining)
    && PendingKnown(p.formed, p.pending) && ReceiptsKnown(p.formed, c.receipts) && Keyed(p.pending)
    && Issued(p.formed, c.log, s.replies)
    && Conserved(cfg, p.samples, p.changes, p.accepted, p.unbuilt, p.formed)
    && Located(p.formed, p.flushing, p.pending, c.receipts, p.lost)
    && Honest(p.formed, c.log, s.replies, c.receipts)
    && Tables(c) && Window(s.now, c.log, c.receipts) && Repeats(c.receipts)
  }

  // ---- one lemma per event ----

  lemma WriteKeeps(cfg: Config, s: State, x: Sample)
    requires Inv(cfg, s)
    ensures Inv(cfg, Apply(cfg, s, Write(x)))
  {
    hide Located, Honest, Window, Repeats, Issued, PendingKnown, ReceiptsKnown, DistinctIds, Keyed, Tables, AllRows;
    var ss := s.probe.samples;
    assert Measured(cfg.probeId, ss + [x]) == Measured(cfg.probeId, ss) + [SampleAsMeasured(cfg.probeId, x)];
  }

  lemma WriteChangeKeeps(cfg: Config, s: State, x: Change)
    requires Inv(cfg, s)
    ensures Inv(cfg, Apply(cfg, s, WriteChange(x)))
  {
    hide Located, Honest, Window, Repeats, Issued, PendingKnown, ReceiptsKnown, DistinctIds, Keyed, Tables, AllRows;
    var cs := s.probe.changes;
    assert Seen(cfg.probeId, cs + [x]) == Seen(cfg.probeId, cs) + [ChangeAsSeen(cfg.probeId, x)];
  }

  lemma FlushKeeps(cfg: Config, s: State, id: nat, size: nat, built: bool)
    requires Inv(cfg, s)
    ensures Inv(cfg, Apply(cfg, s, Flush(id, size, built)))
  {
    var p := s.probe;
    if p.flushing.None? && !(p.samples == [] && p.changes == []) {
      if !built {
        UnbuiltKeeps(cfg, s, id, size, built);
      } else if !UsedId(p.formed, id) {
        var b := Batch(cfg.probeId, id, ToWireSamples(cfg.toMs, p.samples), ToWireChanges(p.changes), size);
        BuiltConserves(cfg, p, b);
        NewBatchKnown(s, b);
      }
    }
  }

  lemma UnbuiltKeeps(cfg: Config, s: State, id: nat, size: nat, built: bool)
    requires Inv(cfg, s) && !built
    ensures Inv(cfg, Apply(cfg, s, Flush(id, size, built)))
  {
    hide Located, Honest, Window, Repeats, Issued, PendingKnown, ReceiptsKnown, DistinctIds, Keyed, Tables, AllRows;
    assert QueueRows(cfg, [], []) == multiset{};
  }

  lemma BuiltConserves(cfg: Config, p: Probe, b: Batch)
    requires Conserved(cfg, p.samples, p.changes, p.accepted, p.unbuilt, p.formed)
    requires b.probe == cfg.probeId
    requires b.samples == ToWireSamples(cfg.toMs, p.samples) && b.changes == ToWireChanges(p.changes)
    ensures Conserved(cfg, [], [], p.accepted, p.unbuilt, p.formed + [b])
  {
    BuiltRows(cfg.toMs, cfg.probeId, b.id, p.samples, p.changes, b.size);
    assert (p.formed + [b])[..|p.formed|] == p.formed;
    assert multiset(Rows(b)) == QueueRows(cfg, p.samples, p.changes);
    assert QueueRows(cfg, [], []) == multiset{};
  }

  lemma NewBatchKnown(s: State, b: Batch)
    requires !UsedId(s.probe.formed, b.id)
    requires var p, c := s.probe, s.central;
             && DistinctIds(p.formed) && Known(p.formed, p.draining)
             && PendingKnown(p.formed, p.pending) && ReceiptsKnown(p.formed, c.receipts)
             && Issued(p.formed, c.log, s.replies) && p.flushing.None?
             && Located(p.formed, p.flushing, p.pending, c.receipts, p.lost)
             && Honest(p.formed, c.log, s.replies, c.receipts)
    ensures var p, c, f := s.probe, s.central, s.probe.formed + [b];
            && DistinctIds(f) && Known(f, p.draining)
            && PendingKnown(f, p.pending) && ReceiptsKnown(f, c.receipts)
            && Issued(f, c.log, s.replies)
            && Located(f, Some(b), p.pending, c.receipts, p.lost)
            && Honest(f, c.log, s.replies, c.receipts)
  {
    hide Spilled, Stored;
    var p, f := s.probe, s.probe.formed + [b];
    assert forall id :: UsedId(p.formed, id) ==> UsedId(f, id) by {
      assert forall k | 0 <= k < |p.formed| :: f[k] == p.formed[k];
    }
    forall i | 0 <= i < |f|
      ensures Placed(f[i], Some(b), p.pending, s.central.receipts, p.lost)
    {
      if i < |p.formed| {
        assert Placed(p.formed[i], None, p.pending, s.central.receipts, p.lost);
      }
    }
  }

  lemma AdvanceKeeps(cfg: Config, s: State, ms: nat)
    requires Inv(cfg, s)
    ensures Inv(cfg, Apply(cfg, s, Advance(ms)))
  {
    hide Located, Honest, Repeats, Issued, PendingKnown, ReceiptsKnown, DistinctIds, Keyed, Tables, Conserved;
  }

  lemma PickKeeps(cfg: Config, s: State)
    requires Inv(cfg, s)
    ensures Inv(cfg, Apply(cfg, s, Pick))
  {
    hide Located, Honest, Repeats, Issued, ReceiptsKnown, DistinctIds, Tables, Window, AllRows;
    if Apply(cfg, s, Pick).probe != s.probe {
      DrainOrderSorted(s.probe.pending);
      assert DrainOrder(s.probe.pending)[0] in s.probe.pending;
    }
  }

  // A spill keeps every pending batch or names it as evicted.
  lemma SpillMembers(t: seq<Pending>, row: Pending, maxBytes: nat, working: nat)
    requires Keyed(t) && AfterAdd(t, row, maxBytes, working).Ok?
    ensures var kept := AfterAdd(t, row, maxBytes, working).value;
            && Keyed(kept)
            && (forall q | q in kept :: q in t || q == row)
            && (forall q | (q in t && q.batch.id != row.batch.id) || q == row ::
                  q in kept || q.batch.id in EvictedIds(Inserted(t, row), kept))
  {
    hide DrainOrder, EvictDown;
    var ins := Inserted(t, row);
    KeyedInserted(t, row);
    RemovedMembers(t, row.batch.id);
    EvictDownKeyed(ins, maxBytes);
    assert forall q :: q in ins <==> q in Removed(t, row.batch.id) || q == row;
  }

  lemma FlushedKeeps(cfg: Config, s: State, r: Option<Reply>, at: int, working: nat)
    requires Inv(cfg, s)
    ensures Inv(cfg, Apply(cfg, s, Flushed(r, at, working)))
  {
    hide Repeats, Issued, ReceiptsKnown, DistinctIds, Tables, Window, AllRows, AfterAdd;
    hide Located, Honest, PendingKnown, Keyed, EvictedIds, Conserved, Stored;
    var p := s.probe;
    if Heard(s, p.flushing, r) && p.flushing.Some? {
      var q := SettleFlush(cfg, p, Classify(r), at, working);
      if Classify(r).Retry? && AfterAdd(p.pending, Pending(at, p.flushing.value), cfg.maxBytes, working).Ok? {
        SpillLocates(cfg, s, at, working);
      } else {
        AckedIsStored(s, p.flushing.value);
        GivenUpLocates(s, q.lost);
      }
    }
  }

  lemma AckedIsStored(s: State, b: Batch)
    requires b in s.probe.formed && Honest(s.probe.formed, s.central.log, s.replies, s.central.receipts)
    ensures (b.id, Status2xx) in s.replies ==> Stored(s.central.receipts, b)
  {
  }

  // The flush loop lets go of its batch: central has it, or it is named as lost.
  lemma GivenUpLocates(s: State, lost: map<nat, Loss>)
    requires var p, c := s.probe, s.central;
             && p.flushing.Some? && Known(p.formed, p.flushing)
             && Located(p.formed, p.flushing, p.pending, c.receipts, p.lost)
             && (Stored(c.receipts, p.flushing.value) || p.flushing.value.id in lost)
             && (forall id | id in p.lost :: id in lost)
    ensures Located(s.probe.formed, None, s.probe.pending, s.central.receipts, lost)
  {
    hide Stored, Spilled;
    var p := s.probe;
    forall i | 0 <= i < |p.formed|
      ensures Placed(p.formed[i], None, p.pending, s.central.receipts, lost)
    {
      assert Placed(p.formed[i], p.flushing, p.pending, s.central.receipts, p.lost);
    }
  }

  lemma SpillLocates(cfg: Config, s: State, at: int, working: nat)
    requires var p, c := s.probe, s.central;
             && p.flushing.Some? && Known(p.formed, p.flushing) && DistinctIds(p.formed)
             && Keyed(p.pending) && PendingKnown(p.formed, p.pending)
             && Located(p.formed, p.flushing, p.pending, c.receipts, p.lost)
             && AfterAdd(p.pending, Pending(at, p.flushing.value), cfg.maxBytes, working).Ok?
    ensures var q := SettleFlush(cfg, s.probe, Retry, at, working);
            && Keyed(q.pending) && PendingKnown(q.formed, q.pending)
            && Located(q.formed, None, q.pending, s.central.receipts, q.lost)
  {
    hide Stored, AfterAdd;
    var p := s.probe;
    var row := Pending(at, p.flushing.value);
    var q := SettleFlush(cfg, p, Retry, at, working);
    SpillMembers(p.pending, row, cfg.maxBytes, working);
    forall i | 0 <= i < |q.pending|
      ensures q.pending[i].batch in q.formed
    {
      assert q.pending[i] in q.pending;
    }
    forall i | 0 <= i < |q.formed|
      ensures Placed(q.formed[i], None, q.pending, s.central.receipts, q.lost)
    {
      var x := q.formed[i];
      assert Placed(x, p.flushing, p.pending, s.central.receipts, p.lost);
      if p.flushing == Some(x) {
        StillSpilled(row, q.pending);
      } else if Spilled(p.pending, x) {
        var k :| 0 <= k < |p.pending| && p.pending[k].batch == x;
        StillSpilled(p.pending[k], q.pending);
      }
    }
  }

  lemma StillSpilled(y: Pending, t: seq<Pending>)
    ensures y in t ==> Spilled(t, y.batch)
  {
    if y in t {
      var k :| 0 <= k < |t| && t[k] == y;
    }
  }

  lemma DrainedKeeps(cfg: Config, s: State, r: Option<Reply>, deleteWorks: bool)
    requires Inv(cfg, s)
    ensures Inv(cfg, Apply(cfg, s, Drained(r, deleteWorks)))
  {
    hide Repeats, Issued, ReceiptsKnown, DistinctIds, Tables, Window, AllRows;
    hide Located, Honest, PendingKnown, Keyed, Removed, Conserved, Stored;
    var p := s.probe;
    if Heard(s, p.draining, r) && p.draining.Some? {
      var q := SettleDrain(p, Classify(r), deleteWorks);
      if (Classify(r).Delivered? || Classify(r).Drop?) && deleteWorks {
        AckedIsStored(s, p.draining.value);
        DeleteLocates(s, p.draining.value, q.lost);
      }
    }
  }

  // The drain loop deletes a batch that central has or that is named as lost.
  lemma DeleteLocates(s: State, b: Batch, lost: map<nat, Loss>)
    requires var p, c := s.probe, s.central;
             && b in p.formed && DistinctIds(p.formed) && Keyed(p.pending) && PendingKnown(p.formed, p.pending)
             && Located(p.formed, p.flushing, p.pending, c.receipts, p.lost)
             && (Stored(c.receipts, b) || b.id in lost)
             && (forall id | id in p.lost :: id in lost)
    ensures var p, t := s.probe, Removed(s.probe.pending, b.id);
            && Keyed(t) && PendingKnown(p.formed, t)
            && Located(p.formed, p.flushing, t, s.central.receipts, lost)
  {
    hide Stored;
    var p, t := s.probe, Removed(s.probe.pending, b.id);
    KeyedRemoved(p.pending, b.id);
    RemovedMembers(p.pending, b.id);
    forall i | 0 <= i < |t|
      ensures t[i].batch in p.formed
    {
      assert t[i] in t;
    }
    forall i | 0 <= i < |p.formed|
      ensures Placed(p.formed[i], p.flushing, t, s.central.receipts, lost)
    {
      var x := p.formed[i];
      assert Placed(x, p.flushing, p.pending, s.central.receipts, p.lost);
      if x != b && Spilled(p.pending, x) {
        assert x.id != b.id;
        var k :| 0 <= k < |p.pending| && p.pending[k].batch == x;
        StillSpilled(p.pending[k], t);
      }
    }
  }

  lemma SweepKeeps(cfg: Config, s: State, works: bool)
    requires Inv(cfg, s)
    ensures Inv(cfg, Apply(cfg, s, Sweep(works)))
  {
    hide Located, Repeats, PendingKnown, ReceiptsKnown, DistinctIds, Keyed, Conserved, AllRows, Stored, UsedId;
  }

  lemma ArriveKeeps(cfg: Config, s: State, k: nat, gate: Gate, working: nat)
    requires Inv(cfg, s)
    ensures Inv(cfg, Apply(cfg, s, Arrive(k, gate, working)))
  {
    hide Located, Repeats, PendingKnown, ReceiptsKnown, DistinctIds, Keyed;
    hide Conserved, AllRows, Stored, Window, Acceptable;
    if k < |s.probe.formed| {
      var b := s.probe.formed[k];
      assert UsedId(s.probe.formed, b.id);
      if gate.Pass? && Acceptable(b, s.now) && b.id !in s.central.log && working >= WriteStatements(s.central.log, b) {
        ArriveWrites(cfg, s, b);
      }
    }
  }

  lemma ArriveWrites(cfg: Config, s: State, b: Batch)
    requires Inv(cfg, s) && b in s.probe.formed && Acceptable(b, s.now) && b.id !in s.central.log
    ensures Inv(cfg, s.(central := Ingest.Write(s.central, b, s.now), replies := s.replies + {(b.id, Status2xx)}))
  {
    hide PendingKnown, Keyed, Conserved, Acceptable, AllRows, Spilled;
    var c, d := s.central, Ingest.Write(s.central, b, s.now);
    StoredGrows(c.receipts, Receipt(b, s.now));
    WriteTables(c, b, s.now);
    WriteRepeats(s, b);
    WriteLocated(s, d.receipts);
    assert UsedId(s.probe.formed, b.id);
  }

  lemma StoredGrows(rs: seq<Receipt>, r: Receipt)
    ensures forall x :: Stored(rs, x) ==> Stored(rs + [r], x)
    ensures Stored(rs + [r], r.batch)
  {
    assert forall i | 0 <= i < |rs| :: (rs + [r])[i] == rs[i];
    assert (rs + [r])[|rs|] == r;
  }

  lemma WriteLocated(s: State, rs: seq<Receipt>)
    requires Located(s.probe.formed, s.probe.flushing, s.probe.pending, s.central.receipts, s.probe.lost)
    requires forall x :: Stored(s.central.receipts, x) ==> Stored(rs, x)
    ensures Located(s.probe.formed, s.probe.flushing, s.probe.pending, rs, s.probe.lost)
  {
    hide Stored, Spilled;
    var p := s.probe;
    forall i | 0 <= i < |p.formed|
      ensures Placed(p.formed[i], p.flushing, p.pending, rs, p.lost)
    {
      assert Placed(p.formed[i], p.flushing, p.pending, s.central.receipts, p.lost);
    }
  }

  lemma WriteTables(c: Central, b: Batch, now: int)
    requires Tables(c) && b.id !in c.log
    ensures Tables(Ingest.Write(c, b, now))
  {
    var d := Ingest.Write(c, b, now);
    var bs := ReceiptBatches(d.receipts);
    assert bs == ReceiptBatches(c.receipts) + [b];
    assert bs[..|bs| - 1] == ReceiptBatches(c.receipts);
    assert multiset(d.samples) == multiset(c.samples) + multiset(SampleRows(b));
    assert multiset(d.changes) == multiset(c.changes) + multiset(ChangeRows(b));
  }

  lemma WriteRepeats(s: State, b: Batch)
    requires Window(s.now, s.central.log, s.central.receipts) && Repeats(s.central.receipts)
    requires Acceptable(b, s.now) && b.id !in s.central.log
    ensures Repeats(s.central.receipts + [Receipt(b, s.now)])
    ensures Window(s.now, s.central.log[b.id := s.now], s.central.receipts + [Receipt(b, s.now)])
  {
    AcceptableTimes(b, s.now);
    hide Acceptable, RowTimes;
    var old', rs := s.central.receipts, s.central.receipts + [Receipt(b, s.now)];
    forall i, j | 0 <= i < j < |rs| && rs[i].batch.id == rs[j].batch.id
      ensures AllAfter(rs[j].batch, rs[i].at)
    {
      if j < |old'| {
        assert old'[i].batch.id == old'[j].batch.id;
      } else {
        assert old'[i].at < s.now - DAY;
      }
    }
  }

  lemma StepKeeps(cfg: Config, s: State, e: Event)
    requires Inv(cfg, s)
    ensures Inv(cfg, Apply(cfg, s, e))
  {
    hide Inv, Apply;
    match e
    case Write(x) => WriteKeeps(cfg, s, x);
    case WriteChange(x) => WriteChangeKeeps(cfg, s, x);
    case Advance(ms) => AdvanceKeeps(cfg, s, ms);
    case Flush(id, size, built) => FlushKeeps(cfg, s, id, size, built);
    case Flushed(r, at, w) => FlushedKeeps(cfg, s, r, at, w);
    case Pick => PickKeeps(cfg, s);
    case Drained(r, dw) => DrainedKeeps(cfg, s, r, dw);
    case Arrive(k, g, w) => ArriveKeeps(cfg, s, k, g, w);
    case Sweep(w) => SweepKeeps(cfg, s, w);
  }

  lemma {:induction false} InvAlways(cfg: Config, now: int, es: seq<Event>)
    ensures Inv(cfg, Run(cfg, Init(now), es))
    decreases |es|
  {
    if es != [] {
      hide Inv, Apply;
      InvAlways(cfg, now, es[..|es| - 1]);
      StepKeeps(cfg, Run(cfg, Init(now), es[..|es| - 1]), es[|es| - 1]);
    }
  }

  // ---- main results ----

  /** In every reachable state each accepted row is queued, in a built batch, or in the one unnamed
      loss class; and each built batch is being flushed, spilled, written by central, or named lost. */
  lemma NoSilentLoss(cfg: Config, now: int, es: seq<Event>)
    ensures var s := Run(cfg, Init(now), es);
            var p, c := s.probe, s.central;
            && p.accepted == QueueRows(cfg, p.samples, p.changes) + p.unbuilt + AllRows(p.formed)
            && (forall b | b in p.formed ::
                  p.flushing == Some(b) || Spilled(p.pending, b) || Stored(c.receipts, b) || b.id in p.lost)
            && multiset(c.samples) + multiset(c.changes) == AllRows(ReceiptBatches(c.receipts))
  {
    InvAlways(cfg, now, es);
    hide Run, Stored, Spilled, AllRows, Honest, Window, Repeats;
    var s := Run(cfg, Init(now), es);
    var p := s.probe;
    forall b | b in p.formed
      ensures Placed(b, p.flushing, p.pending, s.central.receipts, p.lost)
    {
      var i :| 0 <= i < |p.formed| && p.formed[i] == b;
    }
  }

  // The batch in the flush loop's hands is in no other.
  predicate FlushingIsNew(p: Probe) {
    p.flushing.Some? ==> forall i | 0 <= i < |p.pending| :: p.pending[i].batch.id != p.flushing.value.id
  }

  lemma PendingIdUsed(formed: seq<Batch>, t: seq<Pending>)
    requires PendingKnown(formed, t)
    ensures forall i | 0 <= i < |t| :: UsedId(formed, t[i].batch.id)
  {
    forall i | 0 <= i < |t|
      ensures UsedId(formed, t[i].batch.id)
    {
      var k :| 0 <= k < |formed| && formed[k] == t[i].batch;
    }
  }

  lemma StepFlushing(cfg: Config, s: State, e: Event)
    requires FlushingIsNew(s.probe) && PendingKnown(s.probe.formed, s.probe.pending)
    ensures FlushingIsNew(Apply(cfg, s, e).probe)
  {
    hide UsedId, PendingKnown, AfterAdd, EvictedIds, Handle, DrainOrder, Prune, QueueRows, Known;
    hide SettleFlush, SettleDrain, TakeQueue;
    match e
    case Flush(id, size, built) => TakenIsNew(cfg, s.probe, id, size, built);
    case Flushed(r, at, w) => SettledFlushIsNew(cfg, s.probe, Classify(r), at, w);
    case Drained(r, works) => SettledDrainIsNew(s.probe, Classify(r), works);
    case _ =>
  }

  lemma TakenIsNew(cfg: Config, p: Probe, id: nat, size: nat, built: bool)
    requires FlushingIsNew(p) && PendingKnown(p.formed, p.pending)
    ensures FlushingIsNew(TakeQueue(cfg, p, id, size, built))
  {
    PendingIdUsed(p.formed, p.pending);
    hide UsedId, PendingKnown, QueueRows;
  }

  lemma SettledFlushIsNew(cfg: Config, p: Probe, o: Outcome, at: int, working: nat)
    requires FlushingIsNew(p)
    ensures FlushingIsNew(SettleFlush(cfg, p, o, at, working))
  {
    hide AfterAdd, EvictedIds;
  }

  lemma SettledDrainIsNew(p: Probe, o: Outcome, works: bool)
    requires FlushingIsNew(p)
    ensures FlushingIsNew(SettleDrain(p, o, works))
  {
    if p.draining.Some? {
      RemovedMembers(p.pending, p.draining.value.id);
      hide Removed;
      var t := SettleDrain(p, o, works).pending;
      assert forall i | 0 <= i < |t| :: t[i] in p.pending;
    }
  }

  lemma {:induction false} FlushingIsAlwaysNew(cfg: Config, now: int, es: seq<Event>)
    ensures FlushingIsNew(Run(cfg, Init(now), es).probe)
    decreases |es|
  {
    if es != [] {
      hide FlushingIsNew, Apply;
      FlushingIsAlwaysNew(cfg, now, es[..|es| - 1]);
      InvAlways(cfg, now, es[..|es| - 1]);
      StepFlushing(cfg, Run(cfg, Init(now), es[..|es| - 1]), es[|es| - 1]);
    }
  }

  /** In every reachable state a retryable failure leaves the batch in the spill buffer if and only if
      every statement of the Add works and the batch fits together with the pending rows it sorts before. */
  lemma SpilledIff(cfg: Config, now: int, es: seq<Event>, at: int, working: nat)
    requires Run(cfg, Init(now), es).probe.flushing.Some?
    ensures var p := Run(cfg, Init(now), es).probe; var row := Pending(at, p.flushing.value);
            row in SettleFlush(cfg, p, Retry, at, working).pending <==>
              && working >= AddStatements(p.pending, row, cfg.maxBytes)
              && row.batch.size + SizeAfter(p.pending, row) <= cfg.maxBytes
  {
    FlushingIsAlwaysNew(cfg, now, es);
    InvAlways(cfg, now, es);
    hide Run, Located, Honest, Window, Repeats, Issued, Tables, Conserved, PendingKnown, ReceiptsKnown;
    hide SettleFlush, SizeAfter, AddStatements;
    RetryKeepsIff(cfg, Run(cfg, Init(now), es).probe, at, working);
  }

  /** Whatever the link repeats and the sweep forgets, a batch is written a second time only if
      every one of its rows is newer than the first write. */
  lemma WrittenAgainOnlyIfNewer(cfg: Config, now: int, es: seq<Event>, i: nat, j: nat)
    requires var rs := Run(cfg, Init(now), es).central.receipts;
             i < j < |rs| && rs[i].batch.id == rs[j].batch.id
    ensures var rs := Run(cfg, Init(now), es).central.receipts;
            rs[i].batch == rs[j].batch && AllAfter(rs[i].batch, rs[i].at)
  {
    InvAlways(cfg, now, es);
    hide Run, Located, Honest, Window, Conserved, Tables, Issued, PendingKnown, Keyed, AllAfter;
  }

  // The probe stamps no observation later than central's clock.
  predicate NotAhead(s: State, e: Event) {
    match e
    case Write(x) => x.ts <= s.now
    case WriteChange(x) => x.ts <= s.now
    case _ => true
  }

  predicate ProbeClockNotAhead(cfg: Config, now: int, es: seq<Event>) {
    forall k | 0 <= k < |es| :: NotAhead(Run(cfg, Init(now), es[..k]), es[k])
  }

  predicate QueuePast(now: int, ss: seq<Sample>, cs: seq<Change>) {
    && (forall i | 0 <= i < |ss| :: ss[i].ts <= now)
    && (forall i | 0 <= i < |cs| :: cs[i].ts <= now)
  }

  // The batch has rows, none newer than `at`.
  predicate BatchPast(at: int, b: Batch) {
    RowTimes(b) != {} && forall ts | ts in RowTimes(b) :: ts <= at
  }

  predicate Past(s: State) {
    && QueuePast(s.now, s.probe.samples, s.probe.changes)
    && (forall i | 0 <= i < |s.probe.formed| :: BatchPast(s.now, s.probe.formed[i]))
    && (forall i | 0 <= i < |s.central.receipts| :: BatchPast(s.central.receipts[i].at, s.central.receipts[i].batch))
  }

  lemma TakenPast(cfg: Config, s: State, id: nat, size: nat)
    requires QueuePast(s.now, s.probe.samples, s.probe.changes)
    requires s.probe.samples != [] || s.probe.changes != []
    ensures var ws, wc := ToWireSamples(cfg.toMs, s.probe.samples), ToWireChanges(s.probe.changes);
            BatchPast(s.now, Batch(cfg.probeId, id, ws, wc, size))
  {
    var ws, wc := ToWireSamples(cfg.toMs, s.probe.samples), ToWireChanges(s.probe.changes);
    var b := Batch(cfg.probeId, id, ws, wc, size);
    if ws != [] {
      assert ws[0] in b.samples && ws[0].ts in RowTimes(b);
    } else {
      assert wc[0] in b.changes && wc[0].ts in RowTimes(b);
    }
    forall ts | ts in RowTimes(b)
      ensures ts <= s.now
    {
      if w :| w in ws && w.ts == ts {
        var i :| 0 <= i < |ws| && ws[i] == w;
        assert s.probe.samples[i].ts <= s.now;
      } else {
        var w :| w in wc && w.ts == ts;
        var i :| 0 <= i < |wc| && wc[i] == w;
        assert s.probe.changes[i].ts <= s.now;
      }
    }
  }

  lemma StepPast(cfg: Config, s: State, e: Event)
    requires Past(s) && NotAhead(s, e)
    ensures Past(Apply(cfg, s, e))
  {
    hide BatchPast, UsedId, AfterAdd, EvictedIds, Acceptable;
    match e
    case Flush(id, size, built) => FlushedPast(cfg, s, id, size, built);
    case Flushed(r, at, working) => SettledPast(cfg, s, r, at, working);
    case Advance(ms) => LaterPast(s.now, s.now + ms);
    case Arrive(k, gate, statements) => ArrivedPast(cfg, s, k, gate, statements);
    case _ =>
  }

  lemma FlushedPast(cfg: Config, s: State, id: nat, size: nat, built: bool)
    requires Past(s)
    ensures Past(Apply(cfg, s, Flush(id, size, built)))
  {
    hide BatchPast, UsedId, QueueRows;
    if s.probe.samples != [] || s.probe.changes != [] {
      TakenPast(cfg, s, id, size);
    }
  }

  lemma ArrivedPast(cfg: Config, s: State, k: nat, gate: Gate, statements: nat)
    requires Past(s)
    ensures Past(Apply(cfg, s, Arrive(k, gate, statements)))
  {
    hide BatchPast, Acceptable, SampleRows, ChangeRows;
  }

  lemma SettledPast(cfg: Config, s: State, r: Option<Reply>, at: int, working: nat)
    requires Past(s)
    ensures Past(Apply(cfg, s, Flushed(r, at, working)))
  {
    hide BatchPast, AfterAdd, EvictedIds;
  }

  lemma LaterPast(now: int, later: int)
    requires now <= later
    ensures forall b :: BatchPast(now, b) ==> BatchPast(later, b)
  {
  }

  lemma {:induction false} PastAlways(cfg: Config, now: int, es: seq<Event>)
    requires ProbeClockNotAhead(cfg, now, es)
    ensures Past(Run(cfg, Init(now), es))
    decreases |es|
  {
    if es != [] {
      hide Past, Apply, NotAhead, ProbeClockNotAhead;
      var n := |es| - 1;
      NotAheadSoFar(cfg, now, es);
      PastAlways(cfg, now, es[..n]);
      StepPast(cfg, Run(cfg, Init(now), es[..n]), es[n]);
    }
  }

  lemma NotAheadSoFar(cfg: Config, now: int, es: seq<Event>)
    requires es != [] && ProbeClockNotAhead(cfg, now, es)
    ensures var n := |es| - 1;
            ProbeClockNotAhead(cfg, now, es[..n]) && NotAhead(Run(cfg, Init(now), es[..n]), es[n])
  {
    hide Run, NotAhead;
    var n := |es| - 1;
    assert forall k | 0 <= k < n :: es[..n][..k] == es[..k] && es[..n][k] == es[k];
  }

  lemma PastIsNotAfter(at: int, b: Batch)
    requires BatchPast(at, b)
    ensures !AllAfter(b, at)
  {
    var ts :| ts in RowTimes(b);
    assert ts <= at;
  }

  /** Exactly-once storage: while the probe's clock is not ahead of central's, no run of flushes,
      lost requests, lost replies, repeats, drains and sweeps writes any batch twice. */
  lemma AtMostOnce(cfg: Config, now: int, es: seq<Event>)
    requires ProbeClockNotAhead(cfg, now, es)
    ensures DistinctIds(ReceiptBatches(Run(cfg, Init(now), es).central.receipts))
  {
    PastAlways(cfg, now, es);
    hide Run, ProbeClockNotAhead, QueuePast;
    var rs := Run(cfg, Init(now), es).central.receipts;
    forall i, j | 0 <= i < j < |rs|
      ensures rs[i].batch.id != rs[j].batch.id
    {
      if rs[i].batch.id == rs[j].batch.id {
        WrittenAgainOnlyIfNewer(cfg, now, es, i, j);
        PastIsNotAfter(rs[i].at, rs[i].batch);
      }
    }
  }

  // ---- a full drain ----

  lemma {:induction false} AllRowsWithout(before: seq<Batch>, b: Batch, after: seq<Batch>)
    ensures AllRows(before + [b] + after) == AllRows(before + after) + multiset(Rows(b))
    decreases |after|
  {
    hide Rows;
    var n := |after| - 1;
    if after == [] {
      assert before + [b] + after == before + [b];
      assert (before + [b])[..|before|] == before && before + after == before;
    } else {
      AllRowsWithout(before, b, after[..n]);
      var x, y := before + [b] + after, before + after;
      assert x[..|x| - 1] == before + [b] + after[..n];
      assert y[..|y| - 1] == before + after[..n];
    }
  }

  lemma {:induction false} SameBatchesSameRows(a: seq<Batch>, b: seq<Batch>)
    requires DistinctIds(a) && DistinctIds(b)
    requires forall x :: x in a <==> x in b
    ensures AllRows(a) == AllRows(b)
    decreases |a|
  {
    hide Rows, DistinctIds;
    if a == [] {
      HasMember(b);
    } else {
      var n := |a| - 1;
      assert AllRows(a) == AllRows(a[..n]) + multiset(Rows(a[n]));
      hide AllRows;
      assert a[n] in b;
      var i :| 0 <= i < |b| && b[i] == a[n];
      var c, d := a[..n] + a[n + 1..], b[..i] + b[i + 1..];
      assert c == a[..n] && b[..i] + [b[i]] + b[i + 1..] == b;
      AllRowsWithout(b[..i], b[i], b[i + 1..]);
      DistinctWithout(b, i);
      DistinctWithout(a, n);
      forall x
        ensures x in c <==> x in d
      {
        assert x in c <==> x in a && x != a[n];
        assert x in d <==> x in b && x != b[i];
      }
      SameBatchesSameRows(c, d);
    }
  }

  lemma HasMember(bs: seq<Batch>)
    ensures bs != [] ==> exists x :: x in bs
  {
    if bs != [] {
      assert bs[0] in bs;
    }
  }

  lemma DistinctWithout(bs: seq<Batch>, i: nat)
    requires i < |bs| && DistinctIds(bs)
    ensures DistinctIds(bs[..i] + bs[i + 1..])
    ensures forall x :: x in bs[..i] + bs[i + 1..] <==> x in bs && x != bs[i]
  {
    var w := bs[..i] + bs[i + 1..];
    assert forall j | 0 <= j < |w| :: w[j] == bs[if j < i then j else j + 1];
    forall x | x in bs && x != bs[i]
      ensures x in w
    {
      var j :| 0 <= j < |bs| && bs[j] == x;
      assert w[if j < i then j else j - 1] == x;
    }
  }

  lemma StoredAreReceived(rs: seq<Receipt>, f: seq<Batch>)
    requires forall i | 0 <= i < |f| :: Stored(rs, f[i])
    requires forall i | 0 <= i < |rs| :: rs[i].batch in f
    ensures forall x :: x in f <==> x in ReceiptBatches(rs)
  {
    var w := ReceiptBatches(rs);
    forall x
      ensures x in f <==> x in w
    {
      if x in f {
        assert Stored(rs, x);
        var i :| 0 <= i < |rs| && rs[i].batch == x;
        assert w[i] == x;
      }
      if x in w {
        var i :| 0 <= i < |w| && w[i] == x;
        assert rs[i].batch in f;
      }
    }
  }

  // Nothing queued, in flight, spilled or lost.
  predicate FullyDrained(p: Probe) {
    && p.samples == [] && p.changes == [] && p.flushing.None? && p.pending == []
    && p.unbuilt == multiset{} && p.lost == map[]
  }

  /** When no loss class was ever used and the probe has drained, central's tables hold exactly the
      accepted observations, each once and each as measured. */
  lemma FullDrainIsExact(cfg: Config, now: int, es: seq<Event>)
    requires ProbeClockNotAhead(cfg, now, es)
    requires FullyDrained(Run(cfg, Init(now), es).probe)
    ensures var s := Run(cfg, Init(now), es);
            multiset(s.central.samples) + multiset(s.central.changes) == s.probe.accepted
  {
    AtMostOnce(cfg, now, es);
    NoSilentLoss(cfg, now, es);
    InvAlways(cfg, now, es);
    hide Run, AllRows, ProbeClockNotAhead, Conserved, Located, Honest, Window, Repeats, Issued, Tables;
    var s := Run(cfg, Init(now), es);
    var f, w := s.probe.formed, ReceiptBatches(s.central.receipts);
    assert QueueRows(cfg, [], []) == multiset{};
    StoredAreReceived(s.central.receipts, f);
    SameBatchesSameRows(f, w);
  }
}
