/** Incident pairing: alerts and recoveries alternate, one attempt per incident row, and no incident fires
    before its condition has held long enough; and exactly which failing statements break it. */
module AlertPairing {
  import opened Wrappers
  import opened Alert
  import opened AlertRuns

  // What the history says about one incident: an accepted alert awaits its recovery, its row has
  // had its raise attempt, and since when every evaluation has seen the condition true.
  datatype Status = Status(open: bool, tried: bool, since: Option<int>)

  const UNKNOWN := Status(false, false, None)

  function After(s: Status, m: Mark): Status {
    match m
    case Evaluated(_, condition, at) =>
      s.(since := if !condition then None else if s.since.None? then Some(at) else s.since)
    case Attempt(_, _, _) => s.(tried := true)
    case Raised(_, _) => s
    case Pushed(_) => s
    case Accepted(_, recovery, _, _) => s.(open := !recovery)
    case Deleted(_) => s.(tried := false, since := None)
    case Forgotten(_) => UNKNOWN
    case Cleared(_) => UNKNOWN
    case Emptied => s
  }

  function StatusOf(h: History, k: Key): Status {
    match h
    case Begin => UNKNOWN
    case Then(past, m) => if HasKey(m) && m.key == k then After(StatusOf(past, k), m) else StatusOf(past, k)
  }

  // A mark that pairs up: recoveries close alerts, alerts open closed incidents, a row is tried
  // once, and only after an unbroken run of true evaluations at least `sustain` long.
  predicate Fits(s: Status, m: Mark) {
    match m
    case Accepted(_, recovery, _, _) => recovery == s.open
    case Attempt(_, at, sustain) => !s.tried && s.since.Some? && at - s.since.value >= sustain
    case _ => true
  }

  predicate Paired(h: History) {
    match h
    case Begin => true
    case Then(past, m) => Paired(past) && (HasKey(m) ==> Fits(StatusOf(past, m.key), m))
  }

  function RowOf(rows: map<Key, Row>, k: Key): Option<Row> {
    if k in rows then Some(rows[k]) else None
  }

  // The row tells the same story as the history. What is past its attempt no longer needs a start time.
  predicate Agree(s: Status, row: Option<Row>) {
    match row
    case None => !s.open && !s.tried
    case Some(r) =>
      if r.active then s.tried && s.open == r.notifiedAt.Some?
      else !s.open && !s.tried && r.notifiedAt.None? && s.since.Some? && s.since.value <= r.since
  }

  ghost predicate PairInv(rows: map<Key, Row>, h: History) {
    Paired(h) && forall k :: Agree(StatusOf(h, k), RowOf(rows, k))
  }

  // Every incident but `key` is as its row says.
  ghost predicate Others(rows: map<Key, Row>, h: History, key: Key) {
    forall k | k != key :: Agree(StatusOf(h, k), RowOf(rows, k))
  }

  // No evaluation in the history is later than t.
  predicate EvalsBy(h: History, t: int) {
    match h
    case Begin => true
    case Then(past, m) => (m.Evaluated? ==> m.at <= t) && EvalsBy(past, t)
  }

  lemma {:induction false} SinceBy(h: History, k: Key, t: int)
    requires EvalsBy(h, t)
    ensures StatusOf(h, k).since.Some? ==> StatusOf(h, k).since.value <= t
  {
    if h.Then? {
      SinceBy(h.past, k, t);
    }
  }

  // A recovery is handed over: to the summary in quiet hours, to the queue otherwise.
  predicate HandsOver(cfg: Config, now: Now, f: Faults) {
    if InQuietWindow(now.minute, cfg.quiet) then f.saveOk else f.enqueueOk
  }

  // What one evaluation needs of the store. A raise must be written down. A recovered row that was
  // notified must go exactly when its recovery is handed over; one still raising must go. A first sighting
  // that only starts the wait, and a row whose alert never went out, do no harm by failing.
  predicate Works(rows: map<Key, Row>, cfg: Config, now: Now, key: Key, condition: bool, sustain: int, f: Faults) {
    match RowOf(rows, key)
    case None => condition && sustain == 0 ==> f.upsertOk
    case Some(r) =>
      if condition then !r.active && now.ms - r.since >= sustain ==> f.upsertOk
      else if !r.active then f.deleteOk
      else r.notifiedAt.Some? ==> (f.deleteOk <==> HandsOver(cfg, now, f))
  }

  // One mark about `key`: the others do not notice.
  lemma MarkOne(rows: map<Key, Row>, h: History, key: Key, m: Mark)
    requires Others(rows, h, key) && Paired(h)
    requires !HasKey(m) || m.key == key
    requires !HasKey(m) || Fits(StatusOf(h, key), m)
    ensures Others(rows, Then(h, m), key) && Paired(Then(h, m))
    ensures StatusOf(Then(h, m), key) == if HasKey(m) then After(StatusOf(h, key), m) else StatusOf(h, key)
  {
  }

  lemma DeliverPairs(e: Engine, cfg: Config, now: Now, key: Key, recovery: bool, f: Faults)
    requires Others(e.rows, e.trace, key) && Paired(e.trace)
    requires recovery == StatusOf(e.trace, key).open
    ensures var (d, ok) := Deliver(e, cfg, now, key, recovery, f);
            && d.rows == e.rows && Others(d.rows, d.trace, key) && Paired(d.trace)
            && (recovery ==> ok == HandsOver(cfg, now, f))
            && var s := StatusOf(e.trace, key); StatusOf(d.trace, key) == if ok then s.(open := !recovery) else s
  {
    hide Others, Paired, StatusOf, Recent, InQuietWindow;
    MarkOne(e.rows, e.trace, key, Taken(cfg, now, key, recovery));
    MarkOne(e.rows, e.trace, key, Pushed(now.ms));
    MarkOne(e.rows, Then(e.trace, Pushed(now.ms)), key, Taken(cfg, now, key, recovery));
  }

  lemma RaisePairs(e: Engine, cfg: Config, now: Now, key: Key, row: Row, sustain: int, f: Faults)
    requires Others(e.rows, e.trace, key) && Paired(e.trace) && row.notifiedAt.None?
    requires var s := StatusOf(e.trace, key); !s.open && !s.tried && s.since.Some? && now.ms - s.since.value >= sustain
    ensures var (d, r) := Raise(e, cfg, now, key, row, sustain, f);
            && d.rows == e.rows && Others(d.rows, d.trace, key) && Paired(d.trace)
            && r.active && r.since == row.since
            && StatusOf(d.trace, key) == Status(r.notifiedAt.Some?, true, StatusOf(e.trace, key).since)
  {
    hide Others, Paired, StatusOf, Deliver, Suppressed;
    var e1 := Mark1(e, Attempt(key, now.ms, sustain));
    var e2 := Mark1(e1.(lastRaised := e1.lastRaised[key := now.ms]), Raised(key, now.ms));
    MarkOne(e.rows, e.trace, key, Attempt(key, now.ms, sustain));
    MarkOne(e.rows, e1.trace, key, Raised(key, now.ms));
    DeliverPairs(e2, cfg, now, key, false, f);
  }

  // With the others as they were, the tables are right when `key` is.
  lemma Settle(rows: map<Key, Row>, h: History, key: Key, after: map<Key, Row>)
    requires Others(rows, h, key) && Paired(h)
    requires forall k | k != key :: RowOf(after, k) == RowOf(rows, k)
    ensures PairInv(after, h) <==> Agree(StatusOf(h, key), RowOf(after, key))
  {
    hide Paired, StatusOf, Agree, RowOf;
    forall k | k != key
      ensures Agree(StatusOf(h, k), RowOf(after, k))
    {
      assert Agree(StatusOf(h, k), RowOf(rows, k));
    }
  }

  // An evaluation that finds the condition true.
  lemma TrueStepIff(e: Engine, cfg: Config, now: Now, key: Key, sustain: int, f: Faults)
    requires PairInv(e.rows, e.trace) && EvalsBy(e.trace, now.ms)
    ensures var s := Step(e, cfg, now, key, true, sustain, f);
            PairInv(s.rows, s.trace) <==> Works(e.rows, cfg, now, key, true, sustain, f)
  {
    var e0 := Mark1(e, Evaluated(key, true, now.ms));
    assert Agree(StatusOf(e.trace, key), RowOf(e.rows, key));
    SinceBy(e.trace, key, now.ms);
    MarkOne(e.rows, e.trace, key, Evaluated(key, true, now.ms));
    hide Paired, StatusOf, Raise, Deliver, Others, PairInv, EvalsBy;
    var s := Step(e, cfg, now, key, true, sustain, f);
    if key !in e.rows {
      var ns := Row(false, now.ms, None);
      if sustain == 0 {
        RaisePairs(e0, cfg, now, key, ns, sustain, f);
      }
    } else if !e.rows[key].active && now.ms - e.rows[key].since >= sustain {
      RaisePairs(e0, cfg, now, key, e.rows[key], sustain, f);
    }
    Settle(e.rows, s.trace, key, s.rows);
  }

  // An evaluation that finds it false.
  lemma FalseStepIff(e: Engine, cfg: Config, now: Now, key: Key, sustain: int, f: Faults)
    requires PairInv(e.rows, e.trace)
    ensures var s := Step(e, cfg, now, key, false, sustain, f);
            PairInv(s.rows, s.trace) <==> Works(e.rows, cfg, now, key, false, sustain, f)
  {
    var e0 := Mark1(e, Evaluated(key, false, now.ms));
    assert Agree(StatusOf(e.trace, key), RowOf(e.rows, key));
    MarkOne(e.rows, e.trace, key, Evaluated(key, false, now.ms));
    hide Paired, StatusOf, Deliver, Others, PairInv, HandsOver;
    var s := Step(e, cfg, now, key, false, sustain, f);
    if key in e.rows {
      var told := e.rows[key].active && e.rows[key].notifiedAt.Some?;
      if told {
        DeliverPairs(e0, cfg, now, key, true, f);
      }
      var e1 := if told then Deliver(e0, cfg, now, key, true, f).0 else e0;
      MarkOne(e1.rows, e1.trace, key, Deleted(key));
    }
    Settle(e.rows, s.trace, key, s.rows);
  }

  /** Exactly what an evaluation needs: from tables that agree with the history, they still agree after it
      if and only if the statements it depends on work. */
  lemma StepPairsIff(e: Engine, cfg: Config, now: Now, key: Key, condition: bool, sustain: int, f: Faults)
    requires PairInv(e.rows, e.trace) && EvalsBy(e.trace, now.ms)
    ensures var s := Step(e, cfg, now, key, condition, sustain, f);
            PairInv(s.rows, s.trace) <==> Works(e.rows, cfg, now, key, condition, sustain, f)
  {
    hide PairInv, Works, Step;
    if condition {
      TrueStepIff(e, cfg, now, key, sustain, f);
    } else {
      FalseStepIff(e, cfg, now, key, sustain, f);
    }
  }

  lemma ForgetPairs(e: Engine, key: Key, m: Mark)
    requires PairInv(e.rows, e.trace) && (m == Forgotten(key) || m == Cleared(key))
    ensures PairInv(e.rows - {key}, Then(e.trace, m))
  {
    MarkOne(e.rows, e.trace, key, m);
    hide Paired, StatusOf, Others, PairInv;
    Settle(e.rows, Then(e.trace, m), key, e.rows - {key});
  }

  // Emptying the summary is about no incident.
  lemma EmptiedPairs(rows: map<Key, Row>, h: History)
    ensures PairInv(rows, Then(h, Emptied)) <==> PairInv(rows, h)
  {
    assert forall k :: StatusOf(Then(h, Emptied), k) == StatusOf(h, k);
  }

  // ---- whole runs ----

  lemma EvalsByMark(h: History, m: Mark, t: int)
    requires EvalsBy(h, t) && (m.Evaluated? ==> m.at <= t)
    ensures EvalsBy(Then(h, m), t)
  {
  }

  lemma DeliverEvalsBy(e: Engine, cfg: Config, now: Now, key: Key, recovery: bool, f: Faults, t: int)
    requires EvalsBy(e.trace, t)
    ensures EvalsBy(Deliver(e, cfg, now, key, recovery, f).0.trace, t)
  {
    hide EvalsBy, Recent, InQuietWindow;
    EvalsByMark(e.trace, Taken(cfg, now, key, recovery), t);
    EvalsByMark(e.trace, Pushed(now.ms), t);
    EvalsByMark(Then(e.trace, Pushed(now.ms)), Taken(cfg, now, key, recovery), t);
  }

  lemma StepEvalsBy(e: Engine, cfg: Config, now: Now, key: Key, condition: bool, sustain: int, f: Faults, t: int)
    requires EvalsBy(e.trace, t) && now.ms <= t
    ensures EvalsBy(Step(e, cfg, now, key, condition, sustain, f).trace, t)
  {
    hide EvalsBy, Deliver, Suppressed;
    var e0 := Mark1(e, Evaluated(key, condition, now.ms));
    var e1 := Mark1(e0, Attempt(key, now.ms, sustain));
    var e2 := Mark1(e1.(lastRaised := e1.lastRaised[key := now.ms]), Raised(key, now.ms));
    EvalsByMark(e.trace, Evaluated(key, condition, now.ms), t);
    EvalsByMark(e0.trace, Attempt(key, now.ms, sustain), t);
    EvalsByMark(e1.trace, Raised(key, now.ms), t);
    DeliverEvalsBy(e2, cfg, now, key, false, f, t);
    DeliverEvalsBy(e0, cfg, now, key, true, f, t);
    EvalsByMark(e0.trace, Deleted(key), t);
    EvalsByMark(Deliver(e0, cfg, now, key, true, f).0.trace, Deleted(key), t);
  }

  lemma {:induction false} EvalsAlwaysBy(cfg: Config, es: seq<Event>, t: int)
    requires forall i | 0 <= i < |es| :: NotAfter(es[i], t)
    ensures EvalsBy(Run(cfg, es).trace, t)
  {
    if es != [] {
      var past, last := es[..|es| - 1], es[|es| - 1];
      EvalsAlwaysBy(cfg, past, t);
      if last.Eval? {
        hide Step;
        StepEvalsBy(Run(cfg, past), cfg, last.now, last.key, last.condition, SustainOf(cfg, last.key), last.faults, t);
      }
    }
  }

  // Every evaluation of the run finds the statements it depends on working.
  predicate AllWork(cfg: Config, es: seq<Event>) {
    es == [] ||
    (AllWork(cfg, es[..|es| - 1]) &&
     var last := es[|es| - 1];
     last.Eval? ==> Works(Run(cfg, es[..|es| - 1]).rows, cfg, last.now, last.key, last.condition,
                          SustainOf(cfg, last.key), last.faults))
  }

  // The tables agree with the history at the start and after every event.
  ghost predicate AlwaysAgree(cfg: Config, es: seq<Event>) {
    PairInv(Run(cfg, es).rows, Run(cfg, es).trace) && (es == [] || AlwaysAgree(cfg, es[..|es| - 1]))
  }

  lemma EventPairsIff(cfg: Config, past: seq<Event>, last: Event)
    requires PairInv(Run(cfg, past).rows, Run(cfg, past).trace)
    requires last.Eval? ==> EvalsBy(Run(cfg, past).trace, last.now.ms)
    ensures var e := Run(cfg, past); var s := Apply(cfg, e, last);
            PairInv(s.rows, s.trace) <==>
            (last.Eval? ==>
               Works(e.rows, cfg, last.now, last.key, last.condition, SustainOf(cfg, last.key), last.faults))
  {
    hide PairInv, Works, Step, Run;
    var e := Run(cfg, past);
    match last
    case Eval(now, key, condition, f) => StepPairsIff(e, cfg, now, key, condition, SustainOf(cfg, key), f);
    case Orphan(key, f) => ForgetPairs(e, key, Forgotten(key));
    case Operator(key, f) => ForgetPairs(e, key, Cleared(key));
    case Flush(f) => EmptiedPairs(e.rows, e.trace);
  }

  /** Exactly when the tables stay in step with what was delivered, over any run with a clock that does not
      go back: if and only if every evaluation's statements work. */
  lemma {:induction false} PairsIff(cfg: Config, es: seq<Event>)
    requires Ordered(es)
    ensures AllWork(cfg, es) <==> AlwaysAgree(cfg, es)
  {
    if es != [] {
      var past, last := es[..|es| - 1], es[|es| - 1];
      assert Run(cfg, es) == Apply(cfg, Run(cfg, past), last);
      PairsIff(cfg, past);
      if last.Eval? {
        EvalsAlwaysBy(cfg, past, last.now.ms);
      }
      hide PairInv, Works, Step, Run, Apply, EvalsBy;
      if AlwaysAgree(cfg, past) {
        EventPairsIff(cfg, past, last);
      }
    } else {
      assert PairInv(START.rows, START.trace);
    }
  }

  /** Then, whatever else fails: accepted notifications of an incident alternate alert, recovered (starting
      over when the subject is forgotten or removed), each row gets at most one raise attempt, and an
      attempt comes only after evaluations have seen nothing but a true condition for at least the
      sustain time. */
  lemma NotificationsPair(cfg: Config, es: seq<Event>)
    requires Ordered(es) && AllWork(cfg, es)
    ensures Paired(Run(cfg, es).trace)
  {
    PairsIff(cfg, es);
  }

  // ---- where a statement fails that is needed, it shows ----

  const GOOD := Faults(true, true, true, true, true)

  function Steps(cfg: Config, e: Engine, es: seq<Event>): Engine {
    if es == [] then e else Apply(cfg, Steps(cfg, e, es[..|es| - 1]), es[|es| - 1])
  }

  lemma Unpaired(h: History, m: Mark)
    requires !Paired(h) || (HasKey(m) && !Fits(StatusOf(h, m.key), m))
    ensures !Paired(Then(h, m))
  {
  }

  lemma DeliverUnpaired(e: Engine, cfg: Config, now: Now, key: Key, recovery: bool, f: Faults)
    requires !Paired(e.trace)
    ensures !Paired(Deliver(e, cfg, now, key, recovery, f).0.trace)
  {
    hide Paired, Recent, InQuietWindow;
    Unpaired(e.trace, Taken(cfg, now, key, recovery));
    Unpaired(e.trace, Pushed(now.ms));
    Unpaired(Then(e.trace, Pushed(now.ms)), Taken(cfg, now, key, recovery));
  }

  // A second attempt, or one too soon.
  lemma AttemptUnpaired(e: Engine, cfg: Config, now: Now, key: Key, row: Row, sustain: int, f: Faults)
    requires !Fits(StatusOf(e.trace, key), Attempt(key, now.ms, sustain))
    ensures !Paired(Raise(e, cfg, now, key, row, sustain, f).0.trace)
  {
    hide Paired, Deliver, Suppressed, StatusOf;
    var e1 := Mark1(e, Attempt(key, now.ms, sustain));
    var e2 := Mark1(e1.(lastRaised := e1.lastRaised[key := now.ms]), Raised(key, now.ms));
    Unpaired(e.trace, Attempt(key, now.ms, sustain));
    Unpaired(e1.trace, Raised(key, now.ms));
    DeliverUnpaired(e2, cfg, now, key, false, f);
  }

  // Nothing holds an alert back: the cooldown is over and the last hour is empty.
  predicate Free(e: Engine, cfg: Config, now: Now, key: Key) {
    !Suppressed(e, cfg, now, key) && forall i | 0 <= i < |e.sent| :: e.sent[i] <= now.ms - HOUR
  }

  lemma {:induction false} NoneRecent(sent: seq<int>, cut: int)
    requires forall i | 0 <= i < |sent| :: sent[i] <= cut
    ensures Recent(sent, cut) == []
  {
    if sent != [] {
      NoneRecent(sent[..|sent| - 1], cut);
    }
  }

  // An alert accepted while one is open.
  lemma AlertUnpaired(e: Engine, cfg: Config, now: Now, key: Key, row: Row, sustain: int)
    requires StatusOf(e.trace, key).open && cfg.rateLimit >= 1 && Free(e, cfg, now, key)
    ensures !Paired(Raise(e, cfg, now, key, row, sustain, GOOD).0.trace)
  {
    NoneRecent(e.sent, now.ms - HOUR);
    var e1 := Mark1(e, Attempt(key, now.ms, sustain));
    var e2 := Mark1(e1.(lastRaised := e1.lastRaised[key := now.ms]), Raised(key, now.ms));
    assert StatusOf(e2.trace, key).open;
    assert StatusOf(Then(e2.trace, Pushed(now.ms)), key).open;
    hide Paired, Recent, InQuietWindow, StatusOf;
    Unpaired(e2.trace, Taken(cfg, now, key, false));
    Unpaired(Then(e2.trace, Pushed(now.ms)), Taken(cfg, now, key, false));
  }

  function Later(sent: seq<int>, t: int): (u: int)
    ensures u >= t && forall i | 0 <= i < |sent| :: sent[i] <= u - HOUR
  {
    if sent == [] then t
    else
      var u := Later(sent[..|sent| - 1], t);
      assert forall i | 0 <= i < |sent| - 1 :: sent[i] == sent[..|sent| - 1][i];
      if sent[|sent| - 1] + HOUR > u then sent[|sent| - 1] + HOUR else u
  }

  // A time from which nothing holds an alert back.
  function FreeFrom(e: Engine, cfg: Config, key: Key, t: int): (u: int)
    ensures u >= t && forall now: Now | now.ms >= u :: Free(e, cfg, now, key)
  {
    var u := Later(e.sent, t);
    if key in e.lastRaised && e.lastRaised[key] + cfg.cooldown > u then e.lastRaised[key] + cfg.cooldown else u
  }

  // An incident that is open with its row gone: once it comes back, its alert follows an alert.
  lemma ReopensUnpaired(cfg: Config, e: Engine, key: Key, t: int) returns (es: seq<Event>)
    requires StatusOf(e.trace, key).open && key !in e.rows && cfg.rateLimit >= 1 && SustainOf(cfg, key) >= 0
    ensures |es| <= 2 && Ordered(es)
    ensures forall i | 0 <= i < |es| :: es[i].Eval? && es[i].faults == GOOD && es[i].now.ms >= t
    ensures !Paired(Steps(cfg, e, es).trace)
  {
    var sustain := SustainOf(cfg, key);
    var u := FreeFrom(e, cfg, key, t);
    var first, second := Eval(Now(u, 0), key, true, GOOD), Eval(Now(u + sustain, 0), key, true, GOOD);
    if sustain == 0 {
      es := [first];
      OneStep(cfg, e, first);
      ReopensAtOnce(cfg, e, key, Now(u, 0));
    } else {
      es := [first, second];
      TwoSteps(cfg, e, first, second);
      ReopensAfterWait(cfg, e, key, Now(u, 0), Now(u + sustain, 0));
    }
  }

  lemma ReopensAtOnce(cfg: Config, e: Engine, key: Key, now: Now)
    requires StatusOf(e.trace, key).open && key !in e.rows && cfg.rateLimit >= 1 && SustainOf(cfg, key) == 0
    requires Free(e, cfg, now, key)
    ensures !Paired(Apply(cfg, e, Eval(now, key, true, GOOD)).trace)
  {
    var e0 := Mark1(e, Evaluated(key, true, now.ms));
    assert StatusOf(e0.trace, key).open;
    AlertUnpaired(e0, cfg, now, key, Row(false, now.ms, None), 0);
    hide Raise, Paired, StatusOf;
  }

  lemma ReopensAfterWait(cfg: Config, e: Engine, key: Key, now: Now, later: Now)
    requires StatusOf(e.trace, key).open && key !in e.rows && cfg.rateLimit >= 1 && SustainOf(cfg, key) > 0
    requires Free(e, cfg, later, key) && later.ms - now.ms >= SustainOf(cfg, key)
    ensures !Paired(Apply(cfg, Apply(cfg, e, Eval(now, key, true, GOOD)), Eval(later, key, true, GOOD)).trace)
  {
    var row := Row(false, now.ms, None);
    var e1 := Mark1(e, Evaluated(key, true, now.ms)).(rows := e.rows[key := row]);
    assert Apply(cfg, e, Eval(now, key, true, GOOD)) == e1;
    var e2 := Mark1(e1, Evaluated(key, true, later.ms));
    assert StatusOf(e2.trace, key).open;
    AlertUnpaired(e2, cfg, later, key, row, SustainOf(cfg, key));
    hide Raise, Paired, StatusOf;
  }

  lemma OneStep(cfg: Config, e: Engine, a: Event)
    ensures Steps(cfg, e, [a]) == Apply(cfg, e, a)
  {
    assert [a][..0] == [];
  }

  lemma TwoSteps(cfg: Config, e: Engine, a: Event, b: Event)
    ensures Steps(cfg, e, [a, b]) == Apply(cfg, Apply(cfg, e, a), b)
  {
    OneStep(cfg, e, a);
    assert [a, b][..1] == [a];
  }

  /** The condition on the statements is not too strong. After an evaluation that misses one it needs, at most
      two more evaluations in which nothing fails make the notifications unpaired: a second attempt, an
      attempt too soon, a second recovery, or an alert following an alert. */
  lemma BrokenShows(cfg: Config, e: Engine, now: Now, key: Key, condition: bool, f: Faults) returns (es: seq<Event>)
    requires PairInv(e.rows, e.trace) && EvalsBy(e.trace, now.ms) && cfg.rateLimit >= 1 && SustainOf(cfg, key) >= 0
    requires key in e.rows && !e.rows[key].active ==> SustainOf(cfg, key) > 0
    requires !Works(e.rows, cfg, now, key, condition, SustainOf(cfg, key), f)
    ensures |es| <= 2 && Ordered(es)
    ensures forall i | 0 <= i < |es| :: es[i].Eval? && es[i].faults == GOOD && es[i].now.ms >= now.ms
    ensures !Paired(Steps(cfg, Step(e, cfg, now, key, condition, SustainOf(cfg, key), f), es).trace)
  {
    if condition {
      es := LostRaiseShows(cfg, e, now, key, f);
    } else if !e.rows[key].active {
      es := KeptRaisingShows(cfg, e, now, key, f);
    } else {
      es := RecoveryShows(cfg, e, now, key, f);
    }
  }

  lemma LostRaiseShows(cfg: Config, e: Engine, now: Now, key: Key, f: Faults) returns (es: seq<Event>)
    requires PairInv(e.rows, e.trace) && EvalsBy(e.trace, now.ms)
    requires !Works(e.rows, cfg, now, key, true, SustainOf(cfg, key), f)
    ensures |es| <= 2 && Ordered(es)
    ensures forall i | 0 <= i < |es| :: es[i].Eval? && es[i].faults == GOOD && es[i].now.ms >= now.ms
    ensures !Paired(Steps(cfg, Step(e, cfg, now, key, true, SustainOf(cfg, key), f), es).trace)
  {
    var sustain := SustainOf(cfg, key);
    var row := if key in e.rows then e.rows[key] else Row(false, now.ms, None);
    var e0 := Mark1(e, Evaluated(key, true, now.ms));
    assert Agree(StatusOf(e.trace, key), RowOf(e.rows, key));
    SinceBy(e.trace, key, now.ms);
    MarkOne(e.rows, e.trace, key, Evaluated(key, true, now.ms));
    hide PairInv, EvalsBy, Paired, StatusOf, Raise, Others;
    RaisePairs(e0, cfg, now, key, row, sustain, f);
    var s := Step(e, cfg, now, key, true, sustain, f);
    TriedAgain(cfg, s, key, now);
    OneStep(cfg, s, Eval(now, key, true, GOOD));
    es := [Eval(now, key, true, GOOD)];
  }

  // The row of an attempt was not written, so the next evaluation attempts again.
  lemma TriedAgain(cfg: Config, s: Engine, key: Key, now: Now)
    requires StatusOf(s.trace, key).tried
    requires if key in s.rows then !s.rows[key].active && now.ms - s.rows[key].since >= SustainOf(cfg, key)
             else SustainOf(cfg, key) == 0
    ensures !Paired(Apply(cfg, s, Eval(now, key, true, GOOD)).trace)
  {
    var sustain := SustainOf(cfg, key);
    var s0 := Mark1(s, Evaluated(key, true, now.ms));
    assert StatusOf(s0.trace, key).tried;
    AttemptUnpaired(s0, cfg, now, key, if key in s.rows then s.rows[key] else Row(false, now.ms, None), sustain, GOOD);
    hide Paired, StatusOf, Raise;
  }

  lemma KeptRaisingShows(cfg: Config, e: Engine, now: Now, key: Key, f: Faults) returns (es: seq<Event>)
    requires PairInv(e.rows, e.trace) && key in e.rows && !e.rows[key].active && SustainOf(cfg, key) > 0
    requires !f.deleteOk
    ensures |es| <= 2 && Ordered(es)
    ensures forall i | 0 <= i < |es| :: es[i].Eval? && es[i].faults == GOOD && es[i].now.ms >= now.ms
    ensures !Paired(Steps(cfg, Step(e, cfg, now, key, false, SustainOf(cfg, key), f), es).trace)
  {
    var sustain := SustainOf(cfg, key);
    var s := Step(e, cfg, now, key, false, sustain, f);
    assert s == Mark1(e, Evaluated(key, false, now.ms));
    var at := if e.rows[key].since + sustain > now.ms then e.rows[key].since + sustain else now.ms;
    var again := Eval(Now(at, 0), key, true, GOOD);
    var s0 := Mark1(s, Evaluated(key, true, at));
    assert StatusOf(s0.trace, key).since == Some(at);
    AttemptUnpaired(s0, cfg, Now(at, 0), key, e.rows[key], sustain, GOOD);
    OneStep(cfg, s, again);
    es := [again];
    hide Paired, StatusOf, Raise, PairInv;
  }

  lemma RecoveryShows(cfg: Config, e: Engine, now: Now, key: Key, f: Faults) returns (es: seq<Event>)
    requires PairInv(e.rows, e.trace) && key in e.rows && e.rows[key].active && e.rows[key].notifiedAt.Some?
    requires cfg.rateLimit >= 1 && SustainOf(cfg, key) >= 0 && (f.deleteOk != HandsOver(cfg, now, f))
    ensures |es| <= 2 && Ordered(es)
    ensures forall i | 0 <= i < |es| :: es[i].Eval? && es[i].faults == GOOD && es[i].now.ms >= now.ms
    ensures !Paired(Steps(cfg, Step(e, cfg, now, key, false, SustainOf(cfg, key), f), es).trace)
  {
    var s := Step(e, cfg, now, key, false, SustainOf(cfg, key), f);
    var e0 := Mark1(e, Evaluated(key, false, now.ms));
    assert Agree(StatusOf(e.trace, key), RowOf(e.rows, key));
    MarkOne(e.rows, e.trace, key, Evaluated(key, false, now.ms));
    hide Paired, Deliver, Others, PairInv, HandsOver;
    DeliverPairs(e0, cfg, now, key, true, f);
    if f.deleteOk {
      hide Recent;
      assert StatusOf(s.trace, key).open;
      es := ReopensUnpaired(cfg, s, key, now.ms);
    } else {
      hide StatusOf;
      RecoversAgain(cfg, s, key, now);
      OneStep(cfg, s, Eval(now, key, false, GOOD));
      es := [Eval(now, key, false, GOOD)];
    }
  }

  // A recovered row that was not deleted recovers once more.
  lemma RecoversAgain(cfg: Config, s: Engine, key: Key, now: Now)
    requires !StatusOf(s.trace, key).open && key in s.rows && s.rows[key].active && s.rows[key].notifiedAt.Some?
    ensures !Paired(Apply(cfg, s, Eval(now, key, false, GOOD)).trace)
  {
    var s0 := Mark1(s, Evaluated(key, false, now.ms));
    assert !StatusOf(s0.trace, key).open;
    Unpaired(s0.trace, Taken(cfg, now, key, true));
    hide Paired, StatusOf, InQuietWindow;
    Unpaired(Deliver(s0, cfg, now, key, true, GOOD).0.trace, Deleted(key));
  }

  const PROBE := Key(ProbeOffline, "p")

  // Two evaluations of one probe, in quiet-free hours.
  function Twice(cfg: Config, c0: bool, f0: Faults, gap: int, c1: bool, f1: Faults): Engine {
    Run(cfg, [Eval(Now(0, 0), PROBE, c0, f0), Eval(Now(gap, 0), PROBE, c1, f1)])
  }

  lemma TwiceIsTwoSteps(cfg: Config, c0: bool, f0: Faults, gap: int, c1: bool, f1: Faults)
    ensures Twice(cfg, c0, f0, gap, c1, f1)
            == Step(Step(START, cfg, Now(0, 0), PROBE, c0, 0, f0), cfg, Now(gap, 0), PROBE, c1, 0, f1)
  {
    hide Step;
    var a, b := Eval(Now(0, 0), PROBE, c0, f0), Eval(Now(gap, 0), PROBE, c1, f1);
    assert [a, b][..1] == [a] && [a][..0] == [];
    assert Run(cfg, [a]) == Apply(cfg, START, a);
    assert Run(cfg, [a, b]) == Apply(cfg, Run(cfg, [a]), b);
  }

  // A first alert goes out and is remembered.
  lemma FirstAlert(cfg: Config, f: Faults)
    requires cfg.rateLimit >= 2 && cfg.quiet.None? && f.enqueueOk
    ensures var e := Step(START, cfg, Now(0, 0), PROBE, true, 0, f);
            && e.queue == [Single(PROBE, false)] && e.sent == [0] && e.lastRaised == map[PROBE := 0]
            && e.rows == (if f.upsertOk then map[PROBE := Row(true, 0, Some(0))] else map[])
            && StatusOf(e.trace, PROBE) == Status(true, true, Some(0))
  {
  }

  /** Three short cases. When the row of a delivered alert is not written, the alert
      is delivered again after the cooldown with no recovery in between. */
  lemma LostRowAlertsTwice(cfg: Config)
    requires cfg.rateLimit >= 2 && cfg.cooldown >= 0 && cfg.quiet.None?
    ensures var e := Twice(cfg, true, GOOD.(upsertOk := false), cfg.cooldown, true, GOOD);
            e.queue == [Single(PROBE, false), Single(PROBE, false)] && !Paired(e.trace)
  {
    var f := GOOD.(upsertOk := false);
    TriedAgain(cfg, Step(START, cfg, Now(0, 0), PROBE, true, 0, f), PROBE, Now(cfg.cooldown, 0));
    hide Step, StatusOf, Paired;
    TwiceIsTwoSteps(cfg, true, f, cfg.cooldown, true, GOOD);
    FirstAlert(cfg, f);
    AlertAgain(cfg, Step(START, cfg, Now(0, 0), PROBE, true, 0, f), Now(cfg.cooldown, 0), GOOD);
  }

  // With no row left and the cooldown over, the incident is new and its alert goes out.
  lemma AlertAgain(cfg: Config, e: Engine, now: Now, f: Faults)
    requires cfg.rateLimit >= 2 && cfg.quiet.None? && f.enqueueOk
    requires PROBE !in e.rows && e.sent == [0] && !Suppressed(e, cfg, now, PROBE)
    ensures Step(e, cfg, now, PROBE, true, 0, f).queue == e.queue + [Single(PROBE, false)]
  {
    OneRecent(0, now.ms - HOUR);
    hide Recent;
  }

  lemma OneRecent(x: int, cut: int)
    ensures |Recent([x], cut)| <= 1
  {
    assert [x][..0] == [];
  }

  /** When a recovered row is not deleted, the recovery is delivered again on the next evaluation. */
  lemma KeptRowRecoversTwice(cfg: Config, e: Engine, now: Now, f: Faults)
    requires cfg.quiet.None? && PROBE in e.rows && e.rows[PROBE].active && e.rows[PROBE].notifiedAt.Some?
    requires f.enqueueOk && !f.deleteOk
    ensures var s := Step(e, cfg, now, PROBE, false, 0, f);
            var t := Step(s, cfg, now, PROBE, false, 0, GOOD);
            t.queue == e.queue + [Single(PROBE, true)] + [Single(PROBE, true)] && !Paired(t.trace)
  {
    var s := Step(e, cfg, now, PROBE, false, 0, f);
    assert !StatusOf(s.trace, PROBE).open;
    RecoversAgain(cfg, s, PROBE, now);
    hide Paired, StatusOf;
  }

  /** When a recovery is not handed over, its row is gone all the same: the incident stays open in what was
      delivered, and the next alert follows an alert. */
  lemma LostRecoveryAlertsTwice(cfg: Config, f: Faults)
    requires cfg.rateLimit >= 2 && cfg.cooldown >= 0 && cfg.quiet.None? && !f.enqueueOk && f.deleteOk
    ensures var e := Twice(cfg, true, GOOD, 1, false, f);
            var t := Step(e, cfg, Now(HOUR + cfg.cooldown, 0), PROBE, true, 0, GOOD);
            t.queue == [Single(PROBE, false), Single(PROBE, false)] && !Paired(t.trace)
  {
    hide Step, StatusOf, Paired;
    TwiceIsTwoSteps(cfg, true, GOOD, 1, false, f);
    FirstAlert(cfg, GOOD);
    LostRecovery(cfg, Step(START, cfg, Now(0, 0), PROBE, true, 0, GOOD), Now(1, 0), f);
    var e, now := Twice(cfg, true, GOOD, 1, false, f), Now(HOUR + cfg.cooldown, 0);
    AlertAgain(cfg, e, now, GOOD);
    OpenAgain(cfg, e, now);
  }

  lemma LostRecovery(cfg: Config, e: Engine, now: Now, f: Faults)
    requires cfg.quiet.None? && !f.enqueueOk && f.deleteOk && StatusOf(e.trace, PROBE).open
    requires PROBE in e.rows && e.rows[PROBE].active && e.rows[PROBE].notifiedAt.Some?
    ensures var s := Step(e, cfg, now, PROBE, false, 0, f);
            && s.rows == e.rows - {PROBE} && s.queue == e.queue && s.sent == e.sent && s.lastRaised == e.lastRaised
            && StatusOf(s.trace, PROBE).open
  {
  }

  lemma OpenAgain(cfg: Config, e: Engine, now: Now)
    requires StatusOf(e.trace, PROBE).open && PROBE !in e.rows && cfg.rateLimit >= 1 && Free(e, cfg, now, PROBE)
    ensures !Paired(Step(e, cfg, now, PROBE, true, 0, GOOD).trace)
  {
    var e0 := Mark1(e, Evaluated(PROBE, true, now.ms));
    assert StatusOf(e0.trace, PROBE).open;
    AlertUnpaired(e0, cfg, now, PROBE, Row(false, now.ms, None), 0);
    hide Paired, StatusOf, Raise;
  }
}
