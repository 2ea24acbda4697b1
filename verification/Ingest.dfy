/** Central's ingest endpoint and its dedup log (internal/server/ingest.go, internal/storage/probes.go). */
module Ingest {
  import opened Wrappers
  import opened Wire

  const DAY := 24 * 60 * 60 * 1000
  const MAX_BODY_BYTES := 4_194_304

  // checkClockSkew: within 24 hours either side.
  predicate InSkew(ts: int, now: int) {
    -DAY <= ts - now <= DAY
  }

  predicate IdChar(c: char) {
    'a' <= c <= 'z' || '0' <= c <= '9'
  }

  predicate ValidProbeId(id: string) {
    && 2 <= |id| <= 32
    && IdChar(id[0])
    && (forall i | 1 <= i < |id| :: IdChar(id[i]) || id[i] == '-')
    && id != "local" && id != "all"
  }

  predicate SampleOk(w: WireSample, now: int) {
    w.target != "" && 1 <= w.ttl <= 64 && w.rttMs >= 0.0 && InSkew(w.ts, now)
  }

  predicate ChangeOk(w: WireChange, now: int) {
    w.target != "" && w.newIp != "" && 1 <= w.ttl <= 64 && InSkew(w.ts, now)
  }

  predicate Acceptable(b: Batch, now: int) {
    && b.size <= MAX_BODY_BYTES
    && ValidProbeId(b.probe)
    && (forall i | 0 <= i < |b.samples| :: SampleOk(b.samples[i], now))
    && (forall i | 0 <= i < |b.changes| :: ChangeOk(b.changes[i], now))
  }

  // What the handler decides before the rows are looked at: not a POST, no token or an unknown one, a
  // token lookup that fails, a body that does not decode, a token bound to another probe, or a batch id
  // that is empty or over 128 characters.
  datatype Gate = Pass | WrongMethod | LookupFailed | UnknownToken | Undecodable | BoundElsewhere | BadBatchId

  // HTTP status classes, as the probe's client tells them apart.
  datatype Reply = Status2xx | Status4xx | Status401 | Status5xx

  // A batch that was written, and when.
  datatype Receipt = Receipt(batch: Batch, at: int)

  datatype Central = Central(
    log: map<nat, int>,      // ingest_log: batch_id -> received_at
    samples: seq<Row>,
    changes: seq<Row>,
    receipts: seq<Receipt>)  // history: every batch written, in order

  function Write(c: Central, b: Batch, now: int): Central {
    if b.id in c.log then c
    else
      Central(c.log[b.id := now], c.samples + SampleRows(b), c.changes + ChangeRows(b), c.receipts + [Receipt(b, now)])
  }

  // begin, log insert; for a fresh batch one prepare per non-empty table, one insert per row, commit.
  function WriteStatements(log: map<nat, int>, b: Batch): nat {
    if b.id in log then 2
    else 3 + TableStatements(|b.samples|) + TableStatements(|b.changes|)
  }

  function TableStatements(rows: nat): nat {
    if rows == 0 then 0 else 1 + rows
  }

  // One ingest request, during which the first `working` SQL statements succeed.
  function Handle(c: Central, b: Batch, now: int, gate: Gate, working: nat): (Central, Reply) {
    match gate
    case LookupFailed => (c, Status5xx)
    case UnknownToken => (c, Status401)
    case WrongMethod => (c, Status4xx)
    case Undecodable => (c, Status4xx)
    case BoundElsewhere => (c, Status4xx)
    case BadBatchId => (c, Status4xx)
    case Pass =>
      if !Acceptable(b, now) then (c, Status4xx)
      else if working < WriteStatements(c.log, b) then (c, Status5xx)
      else (Write(c, b, now), Status2xx)
  }

  // DELETE FROM ingest_log WHERE received_at < cutoff
  function Prune(c: Central, cutoff: int): Central {
    c.(log := map id | id in c.log && c.log[id] >= cutoff :: c.log[id])
  }

  class CentralStore {
    var ingestLog: map<nat, int>
    var samples: seq<Row>
    var changes: seq<Row>
    ghost var receipts: seq<Receipt>

    ghost function View(): Central
      reads this
    {
      Central(ingestLog, samples, changes, receipts)
    }

    constructor ()
      ensures View() == Central(map[], [], [], [])
    {
      ingestLog, samples, changes, receipts := map[], [], [], [];
    }

    /** The dedup record and every row in one transaction: all of it, or none. */
    method IngestBatch(b: Batch, receivedAt: int, working: nat) returns (isNew: Result<bool>)
      modifies this
      ensures isNew.Failed? <==> working < WriteStatements(old(ingestLog), b)
      ensures isNew.Ok? ==> isNew.value == (b.id !in old(ingestLog)) && View() == Write(old(View()), b, receivedAt)
      ensures isNew.Failed? ==> View() == old(View())
    {
      if working < 2 {
        return Failed;
      }
      if b.id in ingestLog {
        return Ok(false);
      }
      var left := working - 2;
      var newSamples, newChanges := samples, changes;
      if |b.samples| > 0 {
        if left == 0 {
          return Failed;
        }
        left := left - 1;
        for i := 0 to |b.samples|
          invariant left + i + 3 == working
          invariant newSamples == samples + SampleRows(b)[..i]
        {
          if left == 0 {
            return Failed;
          }
          left, newSamples := left - 1, newSamples + [StoreSample(b.probe, b.samples[i])];
        }
      }
      assert newSamples == samples + SampleRows(b);
      if |b.changes| > 0 {
        if left == 0 {
          return Failed;
        }
        left := left - 1;
        for i := 0 to |b.changes|
          invariant left + i + 3 + TableStatements(|b.samples|) == working
          invariant newChanges == changes + ChangeRows(b)[..i]
        {
          if left == 0 {
            return Failed;
          }
          left, newChanges := left - 1, newChanges + [StoreChange(b.probe, b.changes[i])];
        }
      }
      assert newChanges == changes + ChangeRows(b);
      if left == 0 {
        return Failed;
      }
      ingestLog, samples, changes := ingestLog[b.id := receivedAt], newSamples, newChanges;
      receipts := receipts + [Receipt(b, receivedAt)];
      isNew := Ok(true);
    }

    /** Validates a request in the handler's order, then writes it. */
    method HandleIngestSamples(b: Batch, now: int, gate: Gate, working: nat) returns (reply: Reply)
      modifies this
      ensures (View(), reply) == Handle(old(View()), b, now, gate, working)
    {
      if gate.WrongMethod? {
        return Status4xx;
      }
      if gate.LookupFailed? {
        return Status5xx;
      }
      if gate.UnknownToken? {
        return Status401;
      }
      if gate.Undecodable? || b.size > MAX_BODY_BYTES || !ValidProbeId(b.probe) {
        return Status4xx;
      }
      if gate.BoundElsewhere? || gate.BadBatchId? {
        return Status4xx;
      }
      for i := 0 to |b.samples|
        invariant forall k | 0 <= k < i :: SampleOk(b.samples[k], now)
      {
        if !SampleOk(b.samples[i], now) {
          return Status4xx;
        }
      }
      for i := 0 to |b.changes|
        invariant forall k | 0 <= k < i :: ChangeOk(b.changes[k], now)
      {
        if !ChangeOk(b.changes[i], now) {
          return Status4xx;
        }
      }
      var isNew := IngestBatch(b, now, working);
      reply := if isNew.Ok? then Status2xx else Status5xx;
    }

    /** Forgets ids received strictly before the cutoff. */
    method DeleteIngestLogOlderThan(cutoff: int, working: bool) returns (deleted: Result<nat>)
      modifies this`ingestLog
      ensures deleted.Ok? <==> working
      ensures View() == if working then Prune(old(View()), cutoff) else old(View())
      ensures deleted.Ok? ==> deleted.value == |old(ingestLog)| - |ingestLog|
    {
      if !working {
        return Failed;
      }
      var kept := map id | id in ingestLog && ingestLog[id] >= cutoff :: ingestLog[id];
      assert kept.Keys <= ingestLog.Keys;
      FewerKeys(kept.Keys, ingestLog.Keys);
      deleted := Ok(|ingestLog.Keys| - |kept.Keys|);
      assert |kept| == |kept.Keys| && |ingestLog| == |ingestLog.Keys|;
      ingestLog := kept;
    }
  }

  lemma FewerKeys(a: set<nat>, b: set<nat>)
    requires a <= b
    ensures |a| <= |b|
  {
    assert b == a + (b - a);
  }

  // ---- dedup over time ----

  function RowTimes(b: Batch): set<int> {
    (set s | s in b.samples :: s.ts) + (set c | c in b.changes :: c.ts)
  }

  // Every row carries a timestamp later than `at`.
  predicate AllAfter(b: Batch, at: int) {
    forall ts | ts in RowTimes(b) :: ts > at
  }

  lemma AcceptableTimes(b: Batch, now: int)
    requires Acceptable(b, now)
    ensures forall ts | ts in RowTimes(b) :: InSkew(ts, now)
  {
    forall ts | ts in RowTimes(b)
      ensures InSkew(ts, now)
    {
      if s :| s in b.samples && s.ts == ts {
        var i :| 0 <= i < |b.samples| && b.samples[i] == s;
        assert SampleOk(b.samples[i], now);
      } else {
        var c :| c in b.changes && c.ts == ts;
        var i :| 0 <= i < |b.changes| && b.changes[i] == c;
        assert ChangeOk(b.changes[i], now);
      }
    }
  }

  lemma AcceptableLater(b: Batch, at: int, now: int)
    requires Acceptable(b, at)
    requires forall ts | ts in RowTimes(b) :: InSkew(ts, now)
    ensures Acceptable(b, now)
  {
    forall i | 0 <= i < |b.samples|
      ensures SampleOk(b.samples[i], now)
    {
      assert b.samples[i].ts in RowTimes(b) && SampleOk(b.samples[i], at);
    }
    forall i | 0 <= i < |b.changes|
      ensures ChangeOk(b.changes[i], now)
    {
      assert b.changes[i].ts in RowTimes(b) && ChangeOk(b.changes[i], at);
    }
  }

  // The batch is written at `at`, the retention sweep runs at `then`, and the batch arrives again at `then`.
  predicate WrittenTwice(b: Batch, at: int, then': int) {
    var first := Handle(Central(map[], [], [], []), b, at, Pass, WriteStatements(map[], b)).0;
    var swept := Prune(first, then' - DAY);
    var again := Handle(swept, b, then', Pass, WriteStatements(swept.log, b)).0;
    |again.receipts| == 2
  }

  /** The 24-hour dedup window and the 24-hour skew check close over each other exactly when some
      row is not newer than the batch's first arrival: that batch can never be written again, and
      a batch whose every row is newer can be. */
  lemma ReplayIffAllAfter(b: Batch, at: int)
    requires Acceptable(b, at)
    ensures (exists then' :: then' >= at && WrittenTwice(b, at, then')) <==> AllAfter(b, at)
  {
    AcceptableTimes(b, at);
    if AllAfter(b, at) {
      var later := at + DAY + 1;
      AcceptableLater(b, at, later);
      assert WrittenTwice(b, at, later);
    }
    forall then' | then' >= at && WrittenTwice(b, at, then')
      ensures AllAfter(b, at)
    {
      AcceptableTimes(b, then');
    }
  }
}
