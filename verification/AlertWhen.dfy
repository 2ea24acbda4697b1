/** When an alert goes out, and not only when it must not: the sustain time, the cooldown and the hourly limit
    each hold back exactly what they are there for, told from the history. */
module AlertWhen {
  import opened Wrappers
  import opened Alert
  import opened AlertRuns
  import opened AlertPairing

  // ---- the hourly limit ----

  lemma {:induction false} RecentIsCount(ps: seq<int>, lo: int, hi: int)
    requires forall i | 0 <= i < |ps| :: ps[i] <= hi
    ensures |Recent(ps, lo)| == CountIn(ps, lo, hi)
  {
    if ps != [] {
      RecentIsCount(ps[..|ps| - 1], lo, hi);
    }
  }

  /** Outside quiet hours an alert is accepted if and only if the queue takes it and the hour up to now holds
      fewer alerts than the limit. */
  lemma AcceptedIff(cfg: Config, es: seq<Event>, now: Now, key: Key, f: Faults)
    requires Ordered(es) && (forall i | 0 <= i < |es| :: NotAfter(es[i], now.ms))
    requires !InQuietWindow(now.minute, cfg.quiet)
    ensures var e := Run(cfg, es);
            Deliver(e, cfg, now, key, false, f).1 <==>
              f.enqueueOk && CountIn(Pushes(e.trace), now.ms - 3_600_000, now.ms) < cfg.rateLimit
  {
    hide Run, InQuietWindow, Ordered, Deliver, CountIn, LimitInv;
    LimitAlways(cfg, es, now.ms);
    LimitCounts(Run(cfg, es), cfg.rateLimit, now.ms);
    DeliveredIf(Run(cfg, es), cfg, now, key, f);
  }

  lemma LimitCounts(e: Engine, limit: int, t: int)
    requires LimitInv(e.sent, Pushes(e.trace), limit, t)
    ensures |Recent(e.sent, t - HOUR)| == CountIn(Pushes(e.trace), t - HOUR, t)
  {
    assert Recent(e.sent, t - HOUR) == Recent(Pushes(e.trace), t - HOUR);
    hide Recent, CountIn, Pushes, SpreadOut, Remembers;
    RecentIsCount(Pushes(e.trace), t - HOUR, t);
  }

  lemma DeliveredIf(e: Engine, cfg: Config, now: Now, key: Key, f: Faults)
    requires !InQuietWindow(now.minute, cfg.quiet)
    ensures Deliver(e, cfg, now, key, false, f).1 <==> f.enqueueOk && |Recent(e.sent, now.ms - HOUR)| < cfg.rateLimit
  {
    hide Recent, InQuietWindow;
  }

  // ---- the cooldown ----

  /** A raise is suppressed if and only if the incident was last raised less than the cooldown ago, with no
      sweep having forgotten it since. */
  lemma SuppressedIff(cfg: Config, es: seq<Event>, now: Now, key: Key)
    requires Ordered(es) && cfg.cooldown >= 0
    ensures var e := Run(cfg, es); var last := LastRaise(e.trace, key);
            Suppressed(e, cfg, now, key) <==> last.Some? && now.ms < last.value + cfg.cooldown
  {
    CooldownAlways(cfg, es, Horizon(es));
  }

  // ---- the sustain time ----

  // First sightings, too, reach the table.
  predicate FirstsStored(cfg: Config, es: seq<Event>) {
    es == [] ||
    (FirstsStored(cfg, es[..|es| - 1]) &&
     var last := es[|es| - 1];
     last.Eval? && last.condition && last.key !in Run(cfg, es[..|es| - 1]).rows ==> last.faults.upsertOk)
  }

  // A waiting row has the time since which every evaluation has seen the condition true; without a row
  // there is no such time.
  predicate Starts(s: Status, row: Option<Row>) {
    match row
    case None => s.since == None
    case Some(r) => r.active || s.since == Some(r.since)
  }

  ghost predicate StartInv(rows: map<Key, Row>, h: History) {
    forall k :: Starts(StatusOf(h, k), RowOf(rows, k))
  }

  // What an evaluation does to an incident's start: nothing but the evaluation itself and a deleted row.
  lemma DeliverSince(e: Engine, cfg: Config, now: Now, key: Key, recovery: bool, f: Faults, k: Key)
    ensures var d := Deliver(e, cfg, now, key, recovery, f).0;
            d.rows == e.rows && StatusOf(d.trace, k).since == StatusOf(e.trace, k).since
            && StatusOf(d.trace, k).tried == StatusOf(e.trace, k).tried
  {
    hide Recent, InQuietWindow;
  }

  lemma RaiseSince(e: Engine, cfg: Config, now: Now, key: Key, row: Row, sustain: int, f: Faults, k: Key)
    ensures var (d, r) := Raise(e, cfg, now, key, row, sustain, f);
            && d.rows == e.rows && r.active && r.since == row.since
            && StatusOf(d.trace, k).since == StatusOf(e.trace, k).since
            && StatusOf(d.trace, k).tried == (StatusOf(e.trace, k).tried || k == key)
  {
    hide Deliver, Suppressed;
    var e1 := Mark1(e, Attempt(key, now.ms, sustain));
    var e2 := Mark1(e1.(lastRaised := e1.lastRaised[key := now.ms]), Raised(key, now.ms));
    DeliverSince(e2, cfg, now, key, false, f, k);
  }

  lemma StepStarts(e: Engine, cfg: Config, now: Now, key: Key, condition: bool, sustain: int, f: Faults)
    requires StartInv(e.rows, e.trace) && Works(e.rows, cfg, now, key, condition, sustain, f)
    requires condition && key !in e.rows ==> f.upsertOk
    ensures var s := Step(e, cfg, now, key, condition, sustain, f); StartInv(s.rows, s.trace)
  {
    var s := Step(e, cfg, now, key, condition, sustain, f);
    forall k
      ensures Starts(StatusOf(s.trace, k), RowOf(s.rows, k))
    {
      assert Starts(StatusOf(e.trace, k), RowOf(e.rows, k));
      StepStart(e, cfg, now, key, condition, sustain, f, k);
    }
  }

  lemma StepStart(e: Engine, cfg: Config, now: Now, key: Key, condition: bool, sustain: int, f: Faults, k: Key)
    requires Starts(StatusOf(e.trace, k), RowOf(e.rows, k)) && Works(e.rows, cfg, now, key, condition, sustain, f)
    requires condition && key !in e.rows ==> f.upsertOk
    ensures var s := Step(e, cfg, now, key, condition, sustain, f); Starts(StatusOf(s.trace, k), RowOf(s.rows, k))
  {
    var e0 := Mark1(e, Evaluated(key, condition, now.ms));
    hide Raise, Deliver, HandsOver;
    if condition {
      var row := if key in e.rows then e.rows[key] else Row(false, now.ms, None);
      RaiseSince(e0, cfg, now, key, row, sustain, f, k);
    } else {
      DeliverSince(e0, cfg, now, key, true, f, k);
    }
  }

  lemma {:induction false} StartsAlways(cfg: Config, es: seq<Event>)
    requires AllWork(cfg, es) && FirstsStored(cfg, es)
    ensures StartInv(Run(cfg, es).rows, Run(cfg, es).trace)
  {
    if es != [] {
      var e, last := Run(cfg, es[..|es| - 1]), es[|es| - 1];
      StartsAlways(cfg, es[..|es| - 1]);
      assert Run(cfg, es) == Apply(cfg, e, last);
      EventStarts(cfg, e, last);
    }
  }

  lemma EventStarts(cfg: Config, e: Engine, last: Event)
    requires StartInv(e.rows, e.trace)
    requires last.Eval? ==>
               && Works(e.rows, cfg, last.now, last.key, last.condition, SustainOf(cfg, last.key), last.faults)
               && (last.condition && last.key !in e.rows ==> last.faults.upsertOk)
    ensures var s := Apply(cfg, e, last); StartInv(s.rows, s.trace)
  {
    hide Step, Works;
    match last
    case Eval(now, key, condition, f) => StepStarts(e, cfg, now, key, condition, SustainOf(cfg, key), f);
    case _ =>
      var s := Apply(cfg, e, last);
      forall k
        ensures Starts(StatusOf(s.trace, k), RowOf(s.rows, k))
      {
        assert Starts(StatusOf(e.trace, k), RowOf(e.rows, k));
      }
  }

  /** With the statements it depends on working, an evaluation makes the raise attempt of an incident exactly
      when it has not been made yet and every evaluation since the sustain time or longer, this one
      included, has seen the condition true: never too soon, and never later than that. */
  lemma AttemptedIff(cfg: Config, es: seq<Event>, now: Now, key: Key, condition: bool, f: Faults)
    requires Ordered(es) && (forall i | 0 <= i < |es| :: NotAfter(es[i], now.ms))
    requires AllWork(cfg, es) && FirstsStored(cfg, es) && cfg.sustain >= 0
    requires !StatusOf(Run(cfg, es).trace, key).tried
    ensures var e := Run(cfg, es); var s := Apply(cfg, e, Eval(now, key, condition, f));
            var since := StatusOf(Then(e.trace, Evaluated(key, condition, now.ms)), key).since;
            && (since.Some? <==> condition)
            && (StatusOf(s.trace, key).tried <==> condition && now.ms >= since.value + SustainOf(cfg, key))
  {
    PairsIff(cfg, es);
    StartsAlways(cfg, es);
    var e := Run(cfg, es);
    hide Run, AllWork, FirstsStored, Ordered;
    assert Agree(StatusOf(e.trace, key), RowOf(e.rows, key)) && Starts(StatusOf(e.trace, key), RowOf(e.rows, key));
    hide PairInv, StartInv;
    Attempts(e, cfg, now, key, condition, SustainOf(cfg, key), f);
  }

  lemma Attempts(e: Engine, cfg: Config, now: Now, key: Key, condition: bool, sustain: int, f: Faults)
    requires Agree(StatusOf(e.trace, key), RowOf(e.rows, key)) && Starts(StatusOf(e.trace, key), RowOf(e.rows, key))
    requires !StatusOf(e.trace, key).tried && sustain >= 0
    ensures var s := Step(e, cfg, now, key, condition, sustain, f);
            var since := StatusOf(Then(e.trace, Evaluated(key, condition, now.ms)), key).since;
            && (since.Some? <==> condition)
            && (StatusOf(s.trace, key).tried <==> condition && now.ms >= since.value + sustain)
  {
    var e0 := Mark1(e, Evaluated(key, condition, now.ms));
    hide Raise, Deliver;
    if condition {
      var row := if key in e.rows then e.rows[key] else Row(false, now.ms, None);
      RaiseSince(e0, cfg, now, key, row, sustain, f, key);
    } else {
      DeliverSince(e0, cfg, now, key, true, f, key);
    }
  }
}
