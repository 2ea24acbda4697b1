/** The ingest wire format: what a probe sends and the rows central stores for it. */
module Wire {
  import opened Wrappers

  // A probe-side observation. Times are unix milliseconds, RTTs microseconds.
  datatype Sample = Sample(targetId: string, resolved: string, ttl: int, ts: int, ip: Option<string>, rttUs: nat)

  datatype Change = Change(targetId: string, resolved: string, ttl: int, ts: int, oldIp: Option<string>, newIp: string)

  datatype WireSample = WireSample(target: string, ttl: int, ts: int, ip: Option<string>, rttMs: real)

  datatype WireChange = WireChange(target: string, ttl: int, ts: int, oldIp: Option<string>, newIp: string)

  // A batch id is 28 hex characters, fixed width, so its text order is the order of the number it spells.
  datatype Batch = Batch(probe: string, id: nat, samples: seq<WireSample>, changes: seq<WireChange>, size: nat)

  // One row of central's samples or route_changes table.
  datatype Row =
    | SampleRow(probe: string, target: string, ttl: int, ts: int, ip: Option<string>, rttUs: int)
    | ChangeRow(probe: string, target: string, ttl: int, ts: int, oldIp: Option<string>, newIp: string)

  function TargetId(typed: string, resolved: string): string {
    if typed != "" then typed else resolved
  }

  // What the probe's arithmetic makes of microseconds / 1000: any value not negative and within half a
  // microsecond, which a 64-bit float quotient is for every RTT under seventy years.
  ghost predicate Near(f: nat -> real) {
    forall us: nat :: f(us) >= 0.0 && -0.0005 < f(us) - us as real / 1000.0 < 0.0005
  }

  type Quotient = f: nat -> real | Near(f) witness ((us: nat) => us as real / 1000.0)

  function ToWireSample(toMs: Quotient, s: Sample): WireSample {
    WireSample(TargetId(s.targetId, s.resolved), s.ttl, s.ts, s.ip, toMs(s.rttUs))
  }

  function ToWireChange(c: Change): WireChange {
    WireChange(TargetId(c.targetId, c.resolved), c.ttl, c.ts, c.oldIp, c.newIp)
  }

  // math.Round: half away from zero.
  function Round(x: real): int {
    if x < 0.0 then -((-x + 0.5).Floor) else (x + 0.5).Floor
  }

  function StoreSample(probe: string, w: WireSample): Row {
    SampleRow(probe, w.target, w.ttl, w.ts, w.ip, Round(w.rttMs * 1000.0))
  }

  function StoreChange(probe: string, w: WireChange): Row {
    ChangeRow(probe, w.target, w.ttl, w.ts, w.oldIp, w.newIp)
  }

  function SampleRows(b: Batch): seq<Row> {
    seq(|b.samples|, i requires 0 <= i < |b.samples| => StoreSample(b.probe, b.samples[i]))
  }

  function ChangeRows(b: Batch): seq<Row> {
    seq(|b.changes|, i requires 0 <= i < |b.changes| => StoreChange(b.probe, b.changes[i]))
  }

  function Rows(b: Batch): seq<Row> {
    SampleRows(b) + ChangeRows(b)
  }

  // The row an operator should find in central for an observation the probe accepted: the
  // microseconds it measured, under the typed identifier.
  function SampleAsMeasured(probe: string, s: Sample): Row {
    SampleRow(probe, TargetId(s.targetId, s.resolved), s.ttl, s.ts, s.ip, s.rttUs)
  }

  function ChangeAsSeen(probe: string, c: Change): Row {
    ChangeRow(probe, TargetId(c.targetId, c.resolved), c.ttl, c.ts, c.oldIp, c.newIp)
  }

  /** Milliseconds on the wire and microseconds in the table: however the probe's division rounds, central
      stores the microseconds measured. */
  lemma WireRoundTrip(toMs: Quotient, probe: string, s: Sample)
    ensures StoreSample(probe, ToWireSample(toMs, s)) == SampleAsMeasured(probe, s)
  {
    var ms := toMs(s.rttUs);
    assert -0.5 < ms * 1000.0 - s.rttUs as real < 0.5;
  }

  /** Standing on its own, since the rows above take central's product as exact: the rounding would also
      absorb what an inexact product adds, the two errors together staying under half a microsecond. */
  lemma RoundAbsorbs(us: nat, ms: real, product: real)
    requires -0.0004 < ms - us as real / 1000.0 < 0.0004 && -0.1 < product - ms * 1000.0 < 0.1
    ensures Round(product) == us
  {
  }

  function ToWireSamples(toMs: Quotient, ss: seq<Sample>): seq<WireSample> {
    seq(|ss|, i requires 0 <= i < |ss| => ToWireSample(toMs, ss[i]))
  }

  function ToWireChanges(cs: seq<Change>): seq<WireChange> {
    seq(|cs|, i requires 0 <= i < |cs| => ToWireChange(cs[i]))
  }

  function Measured(probe: string, ss: seq<Sample>): seq<Row> {
    seq(|ss|, i requires 0 <= i < |ss| => SampleAsMeasured(probe, ss[i]))
  }

  function Seen(probe: string, cs: seq<Change>): seq<Row> {
    seq(|cs|, i requires 0 <= i < |cs| => ChangeAsSeen(probe, cs[i]))
  }

  /** Builds the wire form of a batch, one event at a time. */
  method BuildPayload(toMs: Quotient, probe: string, id: nat, samples: seq<Sample>, changes: seq<Change>, size: nat)
    returns (b: Batch)
    ensures b.probe == probe && b.id == id && b.size == size
    ensures b == Batch(probe, id, ToWireSamples(toMs, samples), ToWireChanges(changes), size)
    ensures Rows(b) == Measured(probe, samples) + Seen(probe, changes)
  {
    var ws: seq<WireSample> := [];
    for i := 0 to |samples|
      invariant ws == ToWireSamples(toMs, samples)[..i]
    {
      ws := ws + [ToWireSample(toMs, samples[i])];
    }
    var wc: seq<WireChange> := [];
    for i := 0 to |changes|
      invariant wc == ToWireChanges(changes)[..i]
    {
      wc := wc + [ToWireChange(changes[i])];
    }
    b := Batch(probe, id, ws, wc, size);
    BuiltRows(toMs, probe, id, samples, changes, size);
  }

  /** What central stores for a batch is what the probe measured, row for row. */
  lemma BuiltRows(toMs: Quotient, probe: string, id: nat, samples: seq<Sample>, changes: seq<Change>, size: nat)
    ensures Rows(Batch(probe, id, ToWireSamples(toMs, samples), ToWireChanges(changes), size))
            == Measured(probe, samples) + Seen(probe, changes)
  {
    var b := Batch(probe, id, ToWireSamples(toMs, samples), ToWireChanges(changes), size);
    forall i | 0 <= i < |samples|
      ensures SampleRows(b)[i] == Measured(probe, samples)[i]
    {
      WireRoundTrip(toMs, probe, samples[i]);
    }
    assert SampleRows(b) == Measured(probe, samples);
    assert ChangeRows(b) == Seen(probe, changes);
  }
}
