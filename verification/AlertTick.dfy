/** One evaluation pass of the alert engine: which incidents a tick evaluates, and the orphan sweep. */
module AlertTick {
  import opened Wrappers
  import opened Alert
  import opened AlertRuns

  const OFFLINE_AFTER := 180 * 1000
  const MIN_SAMPLES := 10

  // A provider: switched off or absent, failing, or giving a value.
  datatype Source<+T> = Off | Broken | Known(value: T)

  datatype Stats = Stats(sent: nat, received: nat, avgRttUs: int)

  // stats is None when the window query fails.
  datatype Target = Target(name: string, warningMs: Option<int>, criticalMs: Option<int>, stats: Option<Stats>)

  datatype Rules = Rules(lossOn: bool, lossPct: real, latencyOn: bool, warningLevel: bool)

  // targets is None without a target provider; probes are (id, last seen).
  datatype Sources = Sources(
    probes: Source<seq<(string, int)>>,
    targets: Option<seq<Target>>,
    statsOn: bool,
    derate: Source<bool>,
    capacity: Source<bool>)

  datatype Check = Check(key: Key, condition: bool)

  function ProbeChecks(now: Now, ps: seq<(string, int)>): seq<Check> {
    seq(|ps|, i requires 0 <= i < |ps| => Check(Key(ProbeOffline, ps[i].0), now.ms - ps[i].1 > OFFLINE_AFTER))
  }

  function Limit(rules: Rules, t: Target): Option<int> {
    if rules.warningLevel then t.warningMs else t.criticalMs
  }

  // Go's integer division truncates; a negative average cannot come out of the window query.
  function Millis(us: int): int {
    if us >= 0 then us / 1000 else -((-us) / 1000)
  }

  function LossCheck(rules: Rules, name: string, st: Stats): seq<Check> {
    if rules.lossOn && st.sent >= MIN_SAMPLES
    then [Check(Key(TargetLoss, name), 100.0 * (st.sent - st.received) as real / st.sent as real >= rules.lossPct)]
    else []
  }

  function LatencyCheck(rules: Rules, t: Target, st: Stats): seq<Check> {
    if rules.latencyOn && st.sent >= MIN_SAMPLES && st.received > 0 && Limit(rules, t).Some?
    then [Check(Key(Latency, t.name), Millis(st.avgRttUs) > Limit(rules, t).value)]
    else []
  }

  // The checks of the targets up to the first failing window query.
  function TargetChecks(rules: Rules, ts: seq<Target>): (seq<Check>, bool) {
    if ts == [] then ([], true)
    else if ts[0].stats.None? then ([], false)
    else
      var rest := TargetChecks(rules, ts[1..]);
      (LossCheck(rules, ts[0].name, ts[0].stats.value) + LatencyCheck(rules, ts[0], ts[0].stats.value) + rest.0, rest.1)
  }

  function FixedCheck(key: Key, s: Source<bool>): seq<Check> {
    if s.Known? then [Check(key, s.value)] else []
  }

  // Everything one tick evaluates, in order, and whether it got to the end: a failing probe,
  // window or derate provider aborts the tick, a failing capacity measurement does not.
  function Checks(now: Now, rules: Rules, src: Sources): (seq<Check>, bool) {
    if src.probes.Broken? then ([], false)
    else
      var a := if src.probes.Known? then ProbeChecks(now, src.probes.value) else [];
      var (b, ok) := if src.targets.Some? && src.statsOn then TargetChecks(rules, src.targets.value) else ([], true);
      if !ok || src.derate.Broken? then (a + b, false)
      else
        var c, d := FixedCheck(Key(Derate, "bandwidth"), src.derate), FixedCheck(Key(Capacity, "disk"), src.capacity);
        (a + b + c + d, true)
  }

  predicate ProbeKnown(ps: seq<(string, int)>, subject: string) {
    exists i :: 0 <= i < |ps| && ps[i].0 == subject
  }

  predicate TargetKnown(ts: seq<Target>, subject: string) {
    exists i :: 0 <= i < |ts| && ts[i].name == subject
  }

  // A row whose subject its section, having run, did not find.
  predicate Orphaned(rules: Rules, src: Sources, k: Key) {
    match k.event
    case ProbeOffline => src.probes.Known? && !ProbeKnown(src.probes.value, k.subject)
    case TargetLoss => rules.lossOn && src.targets.Some? && !TargetKnown(src.targets.value, k.subject)
    case Latency => rules.latencyOn && src.targets.Some? && !TargetKnown(src.targets.value, k.subject)
    case _ => false
  }

  // What the store does during one tick: at the flush, at each evaluation and at each swept row.
  datatype Luck = Luck(flush: Faults, eval: nat -> Faults, sweep: nat -> Faults)

  function EvalAll(e: Engine, cfg: Config, now: Now, cs: seq<Check>, f: nat -> Faults): Engine {
    if cs == [] then e
    else
      var n := |cs| - 1;
      Step(EvalAll(e, cfg, now, cs[..n], f), cfg, now, cs[n].key, cs[n].condition, SustainOf(cfg, cs[n].key), f(n))
  }

  function SweepAll(e: Engine, rules: Rules, src: Sources, listed: seq<Key>, f: nat -> Faults): Engine {
    if listed == [] then e
    else
      var n := |listed| - 1;
      var d := SweepAll(e, rules, src, listed[..n], f);
      if Orphaned(rules, src, listed[n]) then ClearOrphan(d, listed[n], f(n)) else d
  }

  // One tick; `listed` is what the state query returns, None when it fails.
  function Tick(e: Engine, cfg: Config, rules: Rules, now: Now, src: Sources, listed: Option<seq<Key>>,
                luck: Luck): Engine
  {
    var e1 := if InQuietWindow(now.minute, cfg.quiet) then e else FlushSummary(e, cfg, luck.flush);
    if !cfg.enabled || listed.None? then e1
    else
      var (cs, complete) := Checks(now, rules, src);
      var e2 := EvalAll(e1, cfg, now, cs, luck.eval);
      if complete then SweepAll(e2, rules, src, listed.value, luck.sweep) else e2
  }

  method CollectTargets(rules: Rules, ts: seq<Target>) returns (cs: seq<Check>, ok: bool)
    ensures (cs, ok) == TargetChecks(rules, ts)
  {
    hide LossCheck, LatencyCheck;
    cs := [];
    var i := 0;
    ghost var all := TargetChecks(rules, ts);
    assert ts[0..] == ts;
    while i < |ts|
      invariant 0 <= i <= |ts|
      invariant cs + TargetChecks(rules, ts[i..]).0 == all.0 && TargetChecks(rules, ts[i..]).1 == all.1
    {
      assert ts[i..][1..] == ts[i + 1..];
      if ts[i].stats.None? {
        assert cs + [] == cs;
        return cs, false;
      }
      var st := ts[i].stats.value;
      cs := cs + LossCheck(rules, ts[i].name, st) + LatencyCheck(rules, ts[i], st);
      i := i + 1;
    }
    assert ts[i..] == [] && cs + [] == cs;
    ok := true;
  }

  method CollectChecks(now: Now, rules: Rules, src: Sources) returns (cs: seq<Check>, complete: bool)
    ensures (cs, complete) == Checks(now, rules, src)
  {
    hide TargetChecks;
    cs := [];
    if src.probes.Broken? {
      return [], false;
    }
    if src.probes.Known? {
      var ps := src.probes.value;
      for i := 0 to |ps|
        invariant cs == ProbeChecks(now, ps)[..i]
      {
        var down := now.ms - ps[i].1 > OFFLINE_AFTER;
        cs := cs + [Check(Key(ProbeOffline, ps[i].0), down)];
      }
      assert cs == ProbeChecks(now, ps);
    }
    var targets: seq<Check>, ok := [], true;
    if src.targets.Some? && src.statsOn {
      targets, ok := CollectTargets(rules, src.targets.value);
    }
    cs := cs + targets;
    if !ok || src.derate.Broken? {
      return cs, false;
    }
    cs := cs + FixedCheck(Key(Derate, "bandwidth"), src.derate);
    cs := cs + FixedCheck(Key(Capacity, "disk"), src.capacity);
    return cs, true;
  }

  method RunTick(engine: AlertEngine, cfg: Config, rules: Rules, now: Now, src: Sources, listed: Option<seq<Key>>,
                 luck: Luck)
    modifies engine
    ensures engine.View() == Tick(old(engine.View()), cfg, rules, now, src, listed, luck)
  {
    hide Step, Checks, FlushSummary;
    if !InQuietWindow(now.minute, cfg.quiet) {
      engine.FlushSummaryNote(cfg, luck.flush);
    }
    if !cfg.enabled || listed.None? {
      return;
    }
    ghost var e1 := engine.View();
    var cs, complete := CollectChecks(now, rules, src);
    for i := 0 to |cs|
      invariant engine.View() == EvalAll(e1, cfg, now, cs[..i], luck.eval)
    {
      assert cs[..i + 1][..i] == cs[..i];
      engine.StepIncident(cfg, now, cs[i].key, cs[i].condition, SustainOf(cfg, cs[i].key), luck.eval(i));
    }
    assert cs[..|cs|] == cs;
    if !complete {
      return;
    }
    ghost var e2 := engine.View();
    var keys := listed.value;
    for i := 0 to |keys|
      invariant engine.View() == SweepAll(e2, rules, src, keys[..i], luck.sweep)
    {
      assert keys[..i + 1][..i] == keys[..i];
      if Orphaned(rules, src, keys[i]) {
        engine.ClearOrphanRow(keys[i], luck.sweep(i));
      }
    }
    assert keys[..|keys|] == keys;
  }

  // ---- a tick is a run of steps ----

  function Evals(now: Now, cs: seq<Check>, f: nat -> Faults): seq<Event> {
    if cs == [] then []
    else Evals(now, cs[..|cs| - 1], f) + [Eval(now, cs[|cs| - 1].key, cs[|cs| - 1].condition, f(|cs| - 1))]
  }

  function Sweeps(rules: Rules, src: Sources, listed: seq<Key>, f: nat -> Faults): seq<Event> {
    if listed == [] then []
    else
      Sweeps(rules, src, listed[..|listed| - 1], f)
      + if Orphaned(rules, src, listed[|listed| - 1]) then [Orphan(listed[|listed| - 1], f(|listed| - 1))] else []
  }

  function TickEvents(cfg: Config, rules: Rules, now: Now, src: Sources, listed: Option<seq<Key>>,
                      luck: Luck): seq<Event>
  {
    var flush := if InQuietWindow(now.minute, cfg.quiet) then [] else [Flush(luck.flush)];
    if !cfg.enabled || listed.None? then flush
    else
      var (cs, complete) := Checks(now, rules, src);
      flush + Evals(now, cs, luck.eval) + if complete then Sweeps(rules, src, listed.value, luck.sweep) else []
  }

  lemma RunNext(cfg: Config, es: seq<Event>, e: Event)
    ensures Run(cfg, es + [e]) == Apply(cfg, Run(cfg, es), e)
  {
    hide Apply;
    assert (es + [e])[..|es|] == es;
  }

  lemma {:induction false} EvalsRun(cfg: Config, es: seq<Event>, now: Now, cs: seq<Check>, f: nat -> Faults)
    ensures Run(cfg, es + Evals(now, cs, f)) == EvalAll(Run(cfg, es), cfg, now, cs, f)
  {
    hide Run, Step;
    if cs == [] {
      assert es + Evals(now, cs, f) == es;
    } else {
      var n := |cs| - 1;
      var last := Eval(now, cs[n].key, cs[n].condition, f(n));
      EvalsRun(cfg, es, now, cs[..n], f);
      RunNext(cfg, es + Evals(now, cs[..n], f), last);
      assert es + Evals(now, cs, f) == (es + Evals(now, cs[..n], f)) + [last];
    }
  }

  lemma {:induction false} SweepsRun(cfg: Config, es: seq<Event>, rules: Rules, src: Sources, listed: seq<Key>,
                                     f: nat -> Faults)
    ensures Run(cfg, es + Sweeps(rules, src, listed, f)) == SweepAll(Run(cfg, es), rules, src, listed, f)
  {
    hide Run, Orphaned;
    if listed == [] {
      assert es + Sweeps(rules, src, listed, f) == es;
    } else {
      var n := |listed| - 1;
      var before := Sweeps(rules, src, listed[..n], f);
      SweepsRun(cfg, es, rules, src, listed[..n], f);
      if Orphaned(rules, src, listed[n]) {
        RunNext(cfg, es + before, Orphan(listed[n], f(n)));
        assert es + Sweeps(rules, src, listed, f) == (es + before) + [Orphan(listed[n], f(n))];
      } else {
        assert before + [] == before;
      }
    }
  }

  /** A whole tick is a run of single evaluations, sweeps and a flush, so what holds of every run
      holds of every sequence of ticks. */
  lemma TickIsRun(cfg: Config, es: seq<Event>, rules: Rules, now: Now, src: Sources, listed: Option<seq<Key>>,
                  luck: Luck)
    ensures Tick(Run(cfg, es), cfg, rules, now, src, listed, luck)
            == Run(cfg, es + TickEvents(cfg, rules, now, src, listed, luck))
  {
    hide Checks, EvalAll, SweepAll, Evals, Sweeps, Run, FlushSummary;
    var flush: seq<Event> := if InQuietWindow(now.minute, cfg.quiet) then [] else [Flush(luck.flush)];
    if flush == [] {
      assert es + flush == es;
    } else {
      RunNext(cfg, es, Flush(luck.flush));
    }
    if cfg.enabled && listed.Some? {
      var (cs, complete) := Checks(now, rules, src);
      var flushed, evals, sweeps := es + flush, Evals(now, cs, luck.eval), Sweeps(rules, src, listed.value, luck.sweep);
      EvalsRun(cfg, flushed, now, cs, luck.eval);
      SweepsRun(cfg, flushed + evals, rules, src, listed.value, luck.sweep);
      assert es + (flush + evals + sweeps) == (flushed + evals) + sweeps;
      assert es + (flush + evals + []) == flushed + evals;
    }
  }

  // ---- a tick leaves no orphan ----

  lemma {:induction false} EvalAllRows(e: Engine, cfg: Config, now: Now, cs: seq<Check>, f: nat -> Faults)
    ensures forall k | k in EvalAll(e, cfg, now, cs, f).rows ::
              k in e.rows || exists i :: 0 <= i < |cs| && cs[i].key == k
  {
    if cs != [] {
      var n := |cs| - 1;
      EvalAllRows(e, cfg, now, cs[..n], f);
      StepRows(EvalAll(e, cfg, now, cs[..n], f), cfg, now, cs[n].key, cs[n].condition, SustainOf(cfg, cs[n].key), f(n));
      hide Step;
      forall k | k in EvalAll(e, cfg, now, cs, f).rows && k !in e.rows
        ensures exists i :: 0 <= i < |cs| && cs[i].key == k
      {
        if k != cs[n].key {
          var i :| 0 <= i < n && cs[..n][i].key == k;
          assert cs[i].key == k;
        }
      }
    }
  }

  lemma StepRows(e: Engine, cfg: Config, now: Now, key: Key, condition: bool, sustain: int, f: Faults)
    ensures forall k | k in Step(e, cfg, now, key, condition, sustain, f).rows :: k in e.rows || k == key
  {
    DeliverRows(cfg, now, key, f);
    hide Deliver;
  }

  lemma DeliverRows(cfg: Config, now: Now, key: Key, f: Faults)
    ensures forall e, recovery :: Deliver(e, cfg, now, key, recovery, f).0.rows == e.rows
  {
  }

  lemma {:induction false} SweepAllRows(e: Engine, rules: Rules, src: Sources, listed: seq<Key>, f: nat -> Faults)
    requires forall i: nat | i < |listed| :: f(i).deleteOk
    ensures forall k :: k in SweepAll(e, rules, src, listed, f).rows <==>
                        k in e.rows && !(k in listed && Orphaned(rules, src, k))
  {
    if listed != [] {
      SweepAllRows(e, rules, src, listed[..|listed| - 1], f);
      hide Orphaned;
    }
  }

  lemma {:induction false} TargetChecksKnown(rules: Rules, ts: seq<Target>)
    ensures forall c | c in TargetChecks(rules, ts).0 ::
              (c.key.event.TargetLoss? || c.key.event.Latency?) && TargetKnown(ts, c.key.subject)
  {
    if ts != [] {
      TargetChecksKnown(rules, ts[1..]);
      forall s | TargetKnown(ts[1..], s)
        ensures TargetKnown(ts, s)
      {
        var i :| 0 <= i < |ts[1..]| && ts[1..][i].name == s;
        assert ts[i + 1].name == s;
      }
      assert TargetKnown(ts, ts[0].name);
    }
  }

  lemma ChecksAreMonitored(now: Now, rules: Rules, src: Sources)
    ensures var cs := Checks(now, rules, src).0; forall i | 0 <= i < |cs| :: !Orphaned(rules, src, cs[i].key)
  {
    if src.targets.Some? {
      TargetChecksKnown(rules, src.targets.value);
    }
    if src.probes.Known? {
      var ps := src.probes.value;
      assert forall i | 0 <= i < |ps| :: ProbeKnown(ps, ps[i].0);
    }
    hide TargetChecks;
  }

  /** After a tick that ran to the end with working deletes, no row is left whose subject is no
      longer monitored, and no monitored subject's row was swept. */
  lemma TickLeavesNoOrphan(e: Engine, cfg: Config, rules: Rules, now: Now, src: Sources, listed: seq<Key>, luck: Luck)
    requires cfg.enabled && (forall i: nat | i < |listed| :: luck.sweep(i).deleteOk) && Checks(now, rules, src).1
    requires forall k :: k in listed <==> k in e.rows
    ensures var cs := Checks(now, rules, src).0;
            var e1 := if InQuietWindow(now.minute, cfg.quiet) then e else FlushSummary(e, cfg, luck.flush);
            var t := Tick(e, cfg, rules, now, src, Some(listed), luck);
            && (forall k | k in t.rows :: !Orphaned(rules, src, k))
            && (forall k | k in EvalAll(e1, cfg, now, cs, luck.eval).rows && !Orphaned(rules, src, k) :: k in t.rows)
  {
    var cs := Checks(now, rules, src).0;
    var e1 := if InQuietWindow(now.minute, cfg.quiet) then e else FlushSummary(e, cfg, luck.flush);
    ChecksAreMonitored(now, rules, src);
    EvalAllRows(e1, cfg, now, cs, luck.eval);
    SweepAllRows(EvalAll(e1, cfg, now, cs, luck.eval), rules, src, listed, luck.sweep);
    hide Orphaned, EvalAll, SweepAll, Checks;
    forall k | k in EvalAll(e1, cfg, now, cs, luck.eval).rows && k !in e.rows
      ensures !Orphaned(rules, src, k)
    {
      var i :| 0 <= i < |cs| && cs[i].key == k;
    }
  }

  // ---- what a tick finds, from the figures ----

  // Ten probes sent are enough to judge by; the loss is at the limit or over it.
  predicate LossIs(rules: Rules, t: Target, down: bool) {
    && t.stats.Some? && rules.lossOn && t.stats.value.sent >= 10
    && var st := t.stats.value;
       down <==> 100.0 * (st.sent - st.received) as real >= rules.lossPct * st.sent as real
  }

  // The average, in whole milliseconds, is over the line the rules name.
  predicate LatencyIs(rules: Rules, t: Target, high: bool) {
    && t.stats.Some? && rules.latencyOn && t.stats.value.sent >= 10 && t.stats.value.received >= 1
    && var line := if rules.warningLevel then t.warningMs else t.criticalMs;
       line.Some? && (high <==> t.stats.value.avgRttUs >= 1000 * (line.value + 1))
  }

  lemma AtLeastShare(lost: int, sent: nat, pct: real)
    requires sent > 0
    ensures 100.0 * lost as real / sent as real >= pct <==> 100.0 * lost as real >= pct * sent as real
  {
    var x, n := 100.0 * lost as real / sent as real, sent as real;
    assert x * n == 100.0 * lost as real;
    if x >= pct {
      Scaled(pct, x, n);
    } else {
      ScaledStrictly(x, pct, n);
    }
  }

  lemma Scaled(a: real, b: real, n: real)
    requires a <= b && n > 0.0
    ensures a * n <= b * n
  {
  }

  lemma ScaledStrictly(a: real, b: real, n: real)
    requires a < b && n > 0.0
    ensures a * n < b * n
  {
  }

  lemma CheckMeanings(rules: Rules, t: Target, c: Check)
    requires t.stats.Some? && t.stats.value.avgRttUs >= 0
    requires forall line | line == t.warningMs || line == t.criticalMs :: line.Some? ==> line.value >= 0
    ensures c in LossCheck(rules, t.name, t.stats.value) <==>
              c.key == Key(TargetLoss, t.name) && LossIs(rules, t, c.condition)
    ensures c in LatencyCheck(rules, t, t.stats.value) <==>
              c.key == Key(Latency, t.name) && LatencyIs(rules, t, c.condition)
  {
    var st := t.stats.value;
    if st.sent > 0 {
      AtLeastShare(st.sent - st.received, st.sent, rules.lossPct);
    }
  }

  // Some target, before any whose figures cannot be had, is found so.
  predicate FoundIn(rules: Rules, ts: seq<Target>, c: Check) {
    exists i | 0 <= i < |ts| ::
      && (forall j | 0 <= j <= i :: ts[j].stats.Some?) && c.key.subject == ts[i].name
      && ((c.key.event.TargetLoss? && LossIs(rules, ts[i], c.condition)) ||
          (c.key.event.Latency? && LatencyIs(rules, ts[i], c.condition)))
  }

  predicate Plausible(t: Target) {
    && (t.stats.Some? ==> t.stats.value.avgRttUs >= 0)
    && (t.warningMs.Some? ==> t.warningMs.value >= 0) && (t.criticalMs.Some? ==> t.criticalMs.value >= 0)
  }

  lemma FoundLater(rules: Rules, t: Target, ts: seq<Target>, c: Check)
    requires t.stats.Some?
    ensures FoundIn(rules, [t] + ts, c) <==>
              FoundIn(rules, ts, c) ||
              (c.key.subject == t.name && ((c.key.event.TargetLoss? && LossIs(rules, t, c.condition)) ||
                                           (c.key.event.Latency? && LatencyIs(rules, t, c.condition))))
  {
    hide LossIs, LatencyIs;
    var all := [t] + ts;
    if FoundIn(rules, ts, c) {
      var i :| 0 <= i < |ts|
               && (forall j | 0 <= j <= i :: ts[j].stats.Some?) && c.key.subject == ts[i].name
               && ((c.key.event.TargetLoss? && LossIs(rules, ts[i], c.condition)) ||
                   (c.key.event.Latency? && LatencyIs(rules, ts[i], c.condition)));
      assert all[i + 1] == ts[i];
      assert forall j | 0 <= j <= i + 1 :: all[j].stats.Some?;
    }
    assert all[0] == t;
    if FoundIn(rules, all, c) {
      var i :| 0 <= i < |all|
               && (forall j | 0 <= j <= i :: all[j].stats.Some?) && c.key.subject == all[i].name
               && ((c.key.event.TargetLoss? && LossIs(rules, all[i], c.condition)) ||
                   (c.key.event.Latency? && LatencyIs(rules, all[i], c.condition)));
      if i > 0 {
        assert all[i] == ts[i - 1];
        assert forall j | 0 <= j <= i - 1 :: ts[j] == all[j + 1];
      }
    }
  }

  /** Told from the figures: the loss and latency conditions a tick evaluates are those of the targets up to
      the first whose figures cannot be had, and it gets past the targets when all can. */
  lemma {:induction false} TargetChecksIff(rules: Rules, ts: seq<Target>, c: Check)
    requires forall i | 0 <= i < |ts| :: Plausible(ts[i])
    ensures c in TargetChecks(rules, ts).0 <==> FoundIn(rules, ts, c)
    ensures TargetChecks(rules, ts).1 <==> forall i | 0 <= i < |ts| :: ts[i].stats.Some?
  {
    if ts != [] && ts[0].stats.Some? {
      TargetChecksIff(rules, ts[1..], c);
      assert Plausible(ts[0]);
      CheckMeanings(rules, ts[0], c);
      assert ts == [ts[0]] + ts[1..];
      FoundLater(rules, ts[0], ts[1..], c);
      hide LossCheck, LatencyCheck, LossIs, LatencyIs, FoundIn;
    }
  }

  /** More answers never turn a loss alert on. */
  lemma LossIsMonotone(rules: Rules, t: Target, u: Target, down: bool, up: bool)
    requires LossIs(rules, t, down) && LossIs(rules, u, up)
    requires t.stats.value.sent == u.stats.value.sent && t.stats.value.received <= u.stats.value.received
    ensures up ==> down
  {
  }

  /** A probe is taken for offline exactly when its last heartbeat is more than three minutes old. */
  lemma OfflineIff(now: Now, ps: seq<(string, int)>, i: nat)
    requires i < |ps|
    ensures |ProbeChecks(now, ps)| == |ps|
    ensures ProbeChecks(now, ps)[i].key == Key(ProbeOffline, ps[i].0)
    ensures ProbeChecks(now, ps)[i].condition <==> ps[i].1 + 180_000 < now.ms
  {
  }

  /** When nothing is broken a tick gets to its end, and evaluates the derate and capacity incidents exactly as
      their providers have them. */
  lemma FixedChecksIff(now: Now, rules: Rules, src: Sources, v: bool)
    ensures Checks(now, rules, src).1 <==>
              && !src.probes.Broken? && !src.derate.Broken?
              && (src.targets.Some? && src.statsOn ==>
                    forall i | 0 <= i < |src.targets.value| :: src.targets.value[i].stats.Some?)
    ensures Checks(now, rules, src).1 ==>
              && (Check(Key(Derate, "bandwidth"), v) in Checks(now, rules, src).0 <==> src.derate == Known(v))
              && (Check(Key(Capacity, "disk"), v) in Checks(now, rules, src).0 <==> src.capacity == Known(v))
  {
    if src.targets.Some? {
      TargetChecksReach(rules, src.targets.value);
      TargetChecksKnown(rules, src.targets.value);
    }
    hide TargetChecks, TargetKnown;
  }

  lemma {:induction false} TargetChecksReach(rules: Rules, ts: seq<Target>)
    ensures TargetChecks(rules, ts).1 <==> forall i | 0 <= i < |ts| :: ts[i].stats.Some?
  {
    if ts != [] {
      TargetChecksReach(rules, ts[1..]);
      assert forall i | 0 < i < |ts| :: ts[i] == ts[1..][i - 1];
      hide LossCheck, LatencyCheck;
    }
  }

  /** A row is swept only if its event was looked at and its subject was not there: never one whose event is
      switched off or has no provider, nor a derate or capacity row. */
  lemma SweptOnlyIf(rules: Rules, src: Sources, k: Key)
    requires Orphaned(rules, src, k)
    ensures match k.event
            case ProbeOffline =>
              src.probes.Known? && forall i | 0 <= i < |src.probes.value| :: src.probes.value[i].0 != k.subject
            case TargetLoss =>
              rules.lossOn && src.targets.Some?
              && forall i | 0 <= i < |src.targets.value| :: src.targets.value[i].name != k.subject
            case Latency =>
              rules.latencyOn && src.targets.Some?
              && forall i | 0 <= i < |src.targets.value| :: src.targets.value[i].name != k.subject
            case _ => false
  {
  }
}
