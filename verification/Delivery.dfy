/** Probe-to-central delivery as one system: the flush loop, the drain loop, a link that may lose,
    delay or repeat requests and lose replies, and central with its retention sweep
    (internal/agent/sink.go over SpillBuffer and Ingest). */
module Delivery {
  import opened Wrappers
  import opened Wire
  import opened SpillBuffer
  import opened Ingest

  datatype Outcome = Delivered | Retry | Drop | Unauthorized

  // PostJSON; None is a connection failure, a timeout or a cancelled context.
  function Classify(reply: Option<Reply>): Outcome {
    match reply
    case None => Retry
    case Some(Status2xx) => Delivered
    case Some(Status401) => Unauthorized
    case Some(Status4xx) => Drop
    case Some(Status5xx) => Retry
  }

  // The named ways in which a built batch can be given up.
  datatype Loss = Evicted | Rejected | Revoked | SpillFailed

  datatype Config = Config(probeId: string, maxBytes: nat, toMs: Quotient)

  datatype Probe = Probe(
    samples: seq<Sample>,      // memory queue
    changes: seq<Change>,
    flushing: Option<Batch>,   // being posted by the flush loop
    draining: Option<Batch>,   // being posted by the drain loop
    pending: seq<Pending>,     // spill buffer
    fatal: bool,
    accepted: multiset<Row>,   // history: everything written to the sink, as measured
    unbuilt: multiset<Row>,    // history: drained but lost to a batch-id or marshal failure
    formed: seq<Batch>,        // history: every batch built
    lost: map<nat, Loss>)      // history: batches given up, by id

  const IDLE := Probe([], [], None, None, [], false, multiset{}, multiset{}, [], map[])

  function Accept(cfg: Config, p: Probe, s: Sample): Probe {
    p.(samples := p.samples + [s], accepted := p.accepted + multiset{SampleAsMeasured(cfg.probeId, s)})
  }

  function AcceptChange(cfg: Config, p: Probe, c: Change): Probe {
    p.(changes := p.changes + [c], accepted := p.accepted + multiset{ChangeAsSeen(cfg.probeId, c)})
  }

  function QueueRows(cfg: Config, ss: seq<Sample>, cs: seq<Change>): multiset<Row> {
    multiset(Measured(cfg.probeId, ss)) + multiset(Seen(cfg.probeId, cs))
  }

  predicate UsedId(formed: seq<Batch>, id: nat) {
    exists i :: 0 <= i < |formed| && formed[i].id == id
  }

  // The first half of flushOnce: swap the queue out and build a batch under a new id.
  function TakeQueue(cfg: Config, p: Probe, id: nat, size: nat, built: bool): Probe {
    if p.flushing.Some? || (p.samples == [] && p.changes == []) then p
    else if !built then
      p.(samples := [], changes := [], unbuilt := p.unbuilt + QueueRows(cfg, p.samples, p.changes))
    else if UsedId(p.formed, id) then p
    else
      var b := Batch(cfg.probeId, id, ToWireSamples(cfg.toMs, p.samples), ToWireChanges(p.changes), size);
      p.(samples := [], changes := [], flushing := Some(b), formed := p.formed + [b])
  }

  function EvictedIds(before: seq<Pending>, after: seq<Pending>): set<nat> {
    set p | p in before && p !in after :: p.batch.id
  }

  // The second half of flushOnce, once the POST has an outcome.
  function SettleFlush(cfg: Config, p: Probe, outcome: Outcome, at: int, working: nat): Probe {
    if p.flushing.None? then p
    else
      var b := p.flushing.value;
      var q := p.(flushing := None);
      match outcome
      case Delivered => q
      case Drop => q.(lost := q.lost[b.id := Rejected])
      case Unauthorized => q.(lost := q.lost[b.id := Revoked], fatal := true)
      case Retry =>
        match AfterAdd(p.pending, Pending(at, b), cfg.maxBytes, working)
        case Failed => q.(lost := q.lost[b.id := SpillFailed])
        case Ok(kept) =>
          q.(pending := kept,
             lost := q.lost + map id | id in EvictedIds(Inserted(p.pending, Pending(at, b)), kept) :: Evicted)
  }

  // One turn of drainBuffer: read the oldest batch, then settle its POST.
  function PickOldest(p: Probe): Probe {
    if p.draining.Some? || p.pending == [] then p
    else p.(draining := Some(DrainOrder(p.pending)[0].batch))
  }

  function SettleDrain(p: Probe, outcome: Outcome, deleteWorks: bool): Probe {
    if p.draining.None? then p
    else
      var b := p.draining.value;
      var q := p.(draining := None);
      match outcome
      case Retry => q
      case Unauthorized => q.(fatal := true)
      case Delivered => if deleteWorks then q.(pending := Removed(p.pending, b.id)) else q
      case Drop =>
        if deleteWorks then q.(pending := Removed(p.pending, b.id), lost := q.lost[b.id := Rejected]) else q
  }

  // ---- the sink object ----

  // What the outside world does during one turn of the drain loop.
  datatype Turn = Turn(readWorks: bool, reply: Option<Reply>, deleteWorks: bool)

  // drainBuffer under a schedule of turns; once the schedule runs out the read fails.
  function Drain(p: Probe, turns: seq<Turn>): (Probe, bool)
    decreases |turns|
  {
    if turns == [] || !turns[0].readWorks then (p, false)
    else if p.pending == [] then (p, true)
    else
      var o := Classify(turns[0].reply);
      var q := SettleDrain(PickOldest(p), o, turns[0].deleteWorks);
      if (o.Delivered? || o.Drop?) && turns[0].deleteWorks then Drain(q, turns[1..]) else (q, false)
  }

  // The batches that drain posts, in the order it posts them.
  function DrainPosts(p: Probe, turns: seq<Turn>): seq<Batch>
    decreases |turns|
  {
    if turns == [] || !turns[0].readWorks || p.pending == [] then []
    else
      var o := Classify(turns[0].reply);
      [DrainOrder(p.pending)[0].batch]
      + if (o.Delivered? || o.Drop?) && turns[0].deleteWorks
        then DrainPosts(SettleDrain(PickOldest(p), o, turns[0].deleteWorks), turns[1..]) else []
  }

  class HTTPSink {
    const cfg: Config
    const flushSize: nat
    const buffer: Buffer
    var samples: seq<Sample>
    var changes: seq<Change>
    var fatal: bool
    var flushSignal: bool
    ghost var accepted: multiset<Row>
    ghost var unbuilt: multiset<Row>
    ghost var formed: seq<Batch>
    ghost var lost: map<nat, Loss>

    ghost predicate Valid()
      reads this, buffer
    {
      buffer.Valid() && buffer.maxBytes == cfg.maxBytes
    }

    ghost function View(): Probe
      reads this, buffer
    {
      Probe(samples, changes, None, None, buffer.rows, fatal, accepted, unbuilt, formed, lost)
    }

    constructor (cfg: Config, flushSize: nat, buffer: Buffer)
      requires buffer.Valid() && buffer.maxBytes == cfg.maxBytes && buffer.rows == []
      ensures Valid() && View() == IDLE && !flushSignal
      ensures this.cfg == cfg && this.flushSize == flushSize && this.buffer == buffer
    {
      this.cfg, this.flushSize, this.buffer := cfg, flushSize, buffer;
      samples, changes, fatal, flushSignal := [], [], false, false;
      accepted, unbuilt, formed, lost := multiset{}, multiset{}, [], map[];
    }

    /** Queues a sample and asks for a flush once the queue has reached the threshold. */
    method WriteSample(s: Sample)
      requires Valid()
      modifies this
      ensures Valid() && View() == Accept(cfg, old(View()), s)
      ensures flushSignal == (old(flushSignal) || |samples| >= flushSize)
    {
      samples := samples + [s];
      if |samples| >= flushSize {
        flushSignal := true;
      }
      accepted := accepted + multiset{SampleAsMeasured(cfg.probeId, s)};
    }

    method WriteRouteChange(c: Change)
      requires Valid()
      modifies this
      ensures Valid() && View() == AcceptChange(cfg, old(View()), c) && flushSignal == old(flushSignal)
    {
      changes := changes + [c];
      accepted := accepted + multiset{ChangeAsSeen(cfg.probeId, c)};
    }

    /** One flush: `built` is false when the batch id or the marshalling fails, `reply` is what the
        POST came back with, `at` and `working` are the spill's timestamp and statement budget. */
    method FlushOnce(id: nat, size: nat, built: bool, reply: Option<Reply>, at: int, working: nat)
      requires Valid()
      requires !UsedId(formed, id)
      modifies this, buffer
      ensures Valid() && flushSignal == old(flushSignal)
      ensures View() == SettleFlush(cfg, TakeQueue(cfg, old(View()), id, size, built), Classify(reply), at, working)
    {
      hide UsedId, AfterAdd, EvictedIds, TakeQueue, QueueRows;
      var batch := Take(id, size, built);
      if batch.Some? {
        Settle(batch.value, Classify(reply), at, working);
      }
    }

    // Swaps the queue out under the lock and builds the batch.
    method Take(id: nat, size: nat, built: bool) returns (batch: Option<Batch>)
      requires Valid()
      requires !UsedId(formed, id)
      modifies this
      ensures Valid() && buffer.rows == old(buffer.rows) && flushSignal == old(flushSignal)
      ensures View().(flushing := batch) == TakeQueue(cfg, old(View()), id, size, built)
    {
      hide UsedId, Rows, Measured, Seen, ToWireSamples, ToWireChanges, QueueRows;
      var ss, cs := samples, changes;
      samples, changes := [], [];
      if |ss| == 0 && |cs| == 0 {
        return None;
      }
      if !built {
        unbuilt := unbuilt + QueueRows(cfg, ss, cs);
        return None;
      }
      var b := BuildPayload(cfg.toMs, cfg.probeId, id, ss, cs, size);
      formed := formed + [b];
      batch := Some(b);
    }

    // The switch on the POST's outcome: done, spill, drop, or die.
    method Settle(b: Batch, outcome: Outcome, at: int, working: nat)
      requires Valid()
      modifies this`fatal, this`lost, buffer
      ensures Valid()
      ensures View() == SettleFlush(cfg, old(View()).(flushing := Some(b)), outcome, at, working)
    {
      match outcome {
        case Delivered =>
        case Retry =>
          ghost var ins := Inserted(buffer.rows, Pending(at, b));
          var evicted := buffer.Add(b, at, working);
          if evicted.Failed? {
            lost := lost[b.id := SpillFailed];
          } else {
            lost := lost + map i | i in EvictedIds(ins, buffer.rows) :: Evicted;
          }
        case Drop =>
          lost := lost[b.id := Rejected];
        case Unauthorized =>
          lost := lost[b.id := Revoked];
          fatal := true;
      }
    }

    /** Posts pending batches oldest-first until the buffer is empty or a turn goes wrong. */
    method DrainBuffer(turns: seq<Turn>) returns (healthy: bool)
      requires Valid()
      modifies this, buffer
      ensures Valid() && flushSignal == old(flushSignal)
      ensures (View(), healthy) == Drain(old(View()), turns)
    {
      hide Removed, DrainOrder, Keyed;
      var i := 0;
      while true
        invariant Valid() && 0 <= i <= |turns| && flushSignal == old(flushSignal)
        invariant Drain(View(), turns[i..]) == Drain(old(View()), turns)
        decreases |turns| - i
      {
        if i == |turns| {
          return false;
        }
        var turn := turns[i];
        assert turns[i..][0] == turn && turns[i..][1..] == turns[i + 1..];
        var oldest := buffer.Oldest(turn.readWorks);
        if oldest.Failed? {
          return false;
        }
        if oldest.value.None? {
          return true;
        }
        var b := oldest.value.value;
        match Classify(turn.reply) {
          case Delivered =>
            var ok := buffer.Delete(b.id, turn.deleteWorks);
            if !ok {
              return false;
            }
          case Retry =>
            return false;
          case Drop =>
            var ok := buffer.Delete(b.id, turn.deleteWorks);
            if !ok {
              return false;
            }
            lost := lost[b.id := Rejected];
          case Unauthorized =>
            fatal := true;
            return false;
        }
        i := i + 1;
      }
    }
  }

  // The spill itself goes through: the batch fits the whole buffer and every statement of the Add works.
  predicate Adds(cfg: Config, p: Probe, row: Pending, working: nat) {
    row.batch.size <= cfg.maxBytes && working >= AddStatements(p.pending, row, cfg.maxBytes)
  }

  /** What a retryable failure makes of the batch, whatever the probe's clock says. It is kept exactly when
      the Add goes through and the batch fits the buffer together with the pending rows it sorts before;
      evicted by its own Add, and named so, when only those rows are in the way; and named lost to the
      spill otherwise. The POST and the Add share one context, so a flush cancelled mid-POST
      (working == 0) always loses its batch. */
  lemma RetryKeepsIff(cfg: Config, p: Probe, at: int, working: nat)
    requires p.flushing.Some? && Keyed(p.pending)
    ensures var b, q := p.flushing.value, SettleFlush(cfg, p, Retry, at, working);
            var row := Pending(at, b);
            if !Adds(cfg, p, row, working) then
              q.pending == p.pending && q.lost == p.lost[b.id := SpillFailed]
            else
              && (row in q.pending <==> b.size + SizeAfter(p.pending, row) <= cfg.maxBytes)
              && (row !in q.pending ==> b.id in q.lost && q.lost[b.id] == Evicted)
  {
    hide DrainOrder, Evictions, EvictDown, SizeAfter;
    var row := Pending(at, p.flushing.value);
    SurvivesIff(p.pending, row, cfg.maxBytes);
    assert row in Inserted(p.pending, row);
    hide Inserted;
  }

  /** A clock set back between two spills is enough: a one-byte batch that fits, spilled with every statement
      working, evicts itself in favour of a later-stamped batch that fills the buffer. */
  lemma SteppedBackClockEvictsNewest(cfg: Config, x: Batch, b: Batch, working: nat)
    requires cfg.maxBytes > 0 && x.size == cfg.maxBytes && b.size == 1 && x.id != b.id && working >= 8
    ensures var p := IDLE.(flushing := Some(b), pending := [Pending(100, x)]);
            var q := SettleFlush(cfg, p, Retry, 50, working);
            Pending(50, b) !in q.pending && b.id in q.lost && q.lost[b.id] == Evicted
  {
    var p := IDLE.(flushing := Some(b), pending := [Pending(100, x)]);
    var row := Pending(50, b);
    assert p.pending[1..] == [];
    assert Removed(p.pending, b.id) == [Pending(100, x)];
    assert |Inserted(p.pending, row)| == 2;
    assert AddStatements(p.pending, row, cfg.maxBytes) <= 8;
    assert SizeAfter(p.pending, row) == x.size + SizeAfter([], row);
    RetryKeepsIff(cfg, p, 50, working);
  }

  /** A healthy drain leaves nothing behind. */
  lemma HealthyMeansEmpty(p: Probe, turns: seq<Turn>)
    requires Drain(p, turns).1
    ensures Drain(p, turns).0.pending == []
    decreases |turns|
  {
    if p.pending != [] {
      HealthyMeansEmpty(SettleDrain(PickOldest(p), Classify(turns[0].reply), turns[0].deleteWorks), turns[1..]);
    }
  }

  predicate Smooth(turns: seq<Turn>) {
    forall i | 0 <= i < |turns| :: turns[i] == Turn(true, Some(Status2xx), true)
  }

  function Batches(t: seq<Pending>): seq<Batch> {
    seq(|t|, i requires 0 <= i < |t| => t[i].batch)
  }

  /** When the link and the disk behave, one drain posts every pending batch, each once, in
      (created_at, batch_id) order, and gives none of them up. */
  lemma {:induction false} SmoothDrainDeliversAll(p: Probe, turns: seq<Turn>)
    requires Keyed(p.pending) && p.draining.None? && Smooth(turns) && |turns| > |p.pending|
    ensures Drain(p, turns).1
    ensures Drain(p, turns).0 == p.(pending := [])
    ensures DrainPosts(p, turns) == Batches(DrainOrder(p.pending))
    decreases |turns|
  {
    hide Removed, DrainOrder, Keyed, SettleDrain, PickOldest, Drain, DrainPosts;
    if p.pending == [] {
      SmoothStops(p, turns);
    } else {
      var d := DrainOrder(p.pending);
      var q := SmoothTurn(p);
      SmoothDrainDeliversAll(q, turns[1..]);
      SmoothUnfolds(p, turns);
      assert Batches(d) == [d[0].batch] + Batches(d[1..]);
    }
  }

  lemma SmoothStops(p: Probe, turns: seq<Turn>)
    requires turns != [] && Smooth(turns) && p.pending == []
    ensures Drain(p, turns) == (p, true) && DrainPosts(p, turns) == [] == Batches(DrainOrder(p.pending))
  {
    assert turns[0].readWorks;
  }

  lemma SmoothUnfolds(p: Probe, turns: seq<Turn>)
    requires turns != [] && Smooth(turns) && p.pending != []
    ensures var q := SettleDrain(PickOldest(p), Delivered, true);
            && Drain(p, turns) == Drain(q, turns[1..])
            && DrainPosts(p, turns) == [DrainOrder(p.pending)[0].batch] + DrainPosts(q, turns[1..])
  {
    hide SettleDrain, PickOldest, DrainOrder;
    assert turns[0] == Turn(true, Some(Status2xx), true);
  }

  // One turn takes exactly the oldest batch off the buffer.
  lemma SmoothTurn(p: Probe) returns (q: Probe)
    requires Keyed(p.pending) && p.draining.None? && p.pending != []
    ensures q == SettleDrain(PickOldest(p), Delivered, true) && q.draining.None? && Keyed(q.pending)
    ensures q == p.(pending := q.pending)
    ensures DrainOrder(q.pending) == DrainOrder(p.pending)[1..] && |q.pending| == |p.pending| - 1
  {
    hide Removed;
    var d := DrainOrder(p.pending);
    q := SettleDrain(PickOldest(p), Delivered, true);
    DeleteOldestDrains(p.pending);
    KeyedRemoved(p.pending, d[0].batch.id);
    assert |DrainOrder(q.pending)| == |q.pending| && |d| == |p.pending|;
  }
}
