/** The bandwidth-test scheduler (internal/bandwidth/runner.go): slots, catch-up, interval mode, and
    why no store behaviour can turn it into a test storm. Instants are milliseconds. */
module Schedule {
  import opened Wrappers

  const CATCHUP_DELAY := 4 * 60 * 1000
  const FIRST_DELAY := 30 * 1000
  const SECOND := 1000
  const MINUTE := 60 * 1000

  // Local time, abstractly: the day an instant falls on, and the instant of a day's HH:MM, None
  // where that local time does not exist (the spring-forward gap, or no such clock reading).
  datatype Zone = Zone(dayOf: int -> int, resolve: (int, int, int) -> Option<int>)

  // A schedule entry, None when it does not parse.
  type Entry = Option<(int, int)>

  predicate SlotOn(z: Zone, times: seq<Entry>, day: int, t: int) {
    exists i :: 0 <= i < |times| && times[i].Some? && z.resolve(day, times[i].value.0, times[i].value.1) == Some(t)
  }

  predicate SlotIn(z: Zone, times: seq<Entry>, lo: int, hi: int, t: int) {
    exists day :: lo <= day < hi && SlotOn(z, times, day, t)
  }

  // One more day on either side of a range adds exactly that day's slots.
  lemma SlotInGrows(z: Zone, times: seq<Entry>, lo: int, mid: int, hi: int)
    requires lo <= mid <= hi && (lo == mid - 1 || hi == mid + 1)
    ensures forall t :: SlotIn(z, times, lo, hi, t) <==> SlotIn(z, times, lo, mid, t) || SlotIn(z, times, mid, hi, t)
    ensures lo == mid - 1 ==> forall t :: SlotIn(z, times, lo, mid, t) <==> SlotOn(z, times, lo, t)
    ensures hi == mid + 1 ==> forall t :: SlotIn(z, times, mid, hi, t) <==> SlotOn(z, times, mid, t)
  {
    hide SlotOn;
  }

  // The first slot after `now` among days [lo, hi), if any.
  ghost predicate IsNext(z: Zone, times: seq<Entry>, now: int, lo: int, hi: int, r: Option<int>) {
    && (r.Some? ==> SlotIn(z, times, lo, hi, r.value) && r.value > now)
    && (forall t | SlotIn(z, times, lo, hi, t) && t > now :: r.Some? && r.value <= t)
  }

  // The last slot at or before `now` among days [lo, hi), if any.
  ghost predicate IsPrev(z: Zone, times: seq<Entry>, now: int, lo: int, hi: int, r: Option<int>) {
    && (r.Some? ==> SlotIn(z, times, lo, hi, r.value) && r.value <= now)
    && (forall t | SlotIn(z, times, lo, hi, t) && t <= now :: r.Some? && t <= r.value)
  }

  // The slots of one day among the first n entries, folded into the best so far.
  method NextOnDay(z: Zone, times: seq<Entry>, now: int, day: int, best0: Option<int>) returns (best: Option<int>)
    ensures best0.Some? ==> best.Some? && best.value <= best0.value
    ensures best.Some? && best != best0 ==> SlotOn(z, times, day, best.value) && best.value > now
    ensures forall t | SlotOn(z, times, day, t) && t > now :: best.Some? && best.value <= t
  {
    best := best0;
    for i := 0 to |times|
      invariant best0.Some? ==> best.Some? && best.value <= best0.value
      invariant best.Some? && best != best0 ==> SlotOn(z, times, day, best.value) && best.value > now
      invariant forall k, t | 0 <= k < i && times[k].Some? && t > now
                  && z.resolve(day, times[k].value.0, times[k].value.1) == Some(t) :: best.Some? && best.value <= t
    {
      if times[i].None? {
        continue;
      }
      var t := z.resolve(day, times[i].value.0, times[i].value.1);
      if t.None? {
        continue;
      }
      assert SlotOn(z, times, day, t.value);
      if t.value > now && (best.None? || t.value < best.value) {
        best := t;
      }
    }
  }

  method PrevOnDay(z: Zone, times: seq<Entry>, now: int, day: int, best0: Option<int>) returns (best: Option<int>)
    ensures best0.Some? ==> best.Some? && best.value >= best0.value
    ensures best.Some? && best != best0 ==> SlotOn(z, times, day, best.value) && best.value <= now
    ensures forall t | SlotOn(z, times, day, t) && t <= now :: best.Some? && best.value >= t
  {
    best := best0;
    for i := 0 to |times|
      invariant best0.Some? ==> best.Some? && best.value >= best0.value
      invariant best.Some? && best != best0 ==> SlotOn(z, times, day, best.value) && best.value <= now
      invariant forall k, t | 0 <= k < i && times[k].Some? && t <= now
                  && z.resolve(day, times[k].value.0, times[k].value.1) == Some(t) :: best.Some? && best.value >= t
    {
      if times[i].None? {
        continue;
      }
      var t := z.resolve(day, times[i].value.0, times[i].value.1);
      if t.None? {
        continue;
      }
      assert SlotOn(z, times, day, t.value);
      if t.value <= now && (best.None? || t.value > best.value) {
        best := t;
      }
    }
  }

  /** The soonest slot strictly after now, today or in the next two days. */
  method NextScheduled(z: Zone, times: seq<Entry>, now: int) returns (best: Option<int>)
    ensures IsNext(z, times, now, z.dayOf(now), z.dayOf(now) + 3, best)
  {
    hide SlotOn;
    best := None;
    var today := z.dayOf(now);
    for offset := 0 to 3
      invariant IsNext(z, times, now, today, today + offset, best)
    {
      var best0 := best;
      best := NextOnDay(z, times, now, today + offset, best0);
      SlotInGrows(z, times, today, today + offset, today + offset + 1);
    }
  }

  /** The latest slot at or before now, today or in the past two days. */
  method PrevScheduled(z: Zone, times: seq<Entry>, now: int) returns (best: Option<int>)
    ensures IsPrev(z, times, now, z.dayOf(now) - 2, z.dayOf(now) + 1, best)
  {
    hide SlotOn;
    best := None;
    var today := z.dayOf(now);
    var offset := 0;
    while offset >= -2
      invariant -3 <= offset <= 0
      invariant IsPrev(z, times, now, today + offset + 1, today + 1, best)
    {
      var best0 := best;
      best := PrevOnDay(z, times, now, today + offset, best0);
      SlotInGrows(z, times, today + offset, today + offset + 1, today + 1);
      offset := offset - 1;
    }
  }

  // Later instants fall on later or equal days, and a day's slots fall on that day.
  ghost predicate DayMonotone(z: Zone) {
    && (forall a, b | a <= b :: z.dayOf(a) <= z.dayOf(b))
    && (forall day, h, m | z.resolve(day, h, m).Some? :: z.dayOf(z.resolve(day, h, m).value) == day)
  }

  lemma SlotDay(z: Zone, times: seq<Entry>, day: int, t: int)
    requires DayMonotone(z) && SlotOn(z, times, day, t)
    ensures z.dayOf(t) == day
  {
    var i :| 0 <= i < |times| && times[i].Some? && z.resolve(day, times[i].value.0, times[i].value.1) == Some(t);
    var h, m := times[i].value.0, times[i].value.1;
    assert z.resolve(day, h, m) == Some(t);
    assert z.dayOf(z.resolve(day, h, m).value) == day;
  }

  /** No slot of any day lies strictly between now and the next slot found. */
  lemma NextIsGlobal(z: Zone, times: seq<Entry>, now: int, r: Option<int>, day: int, t: int)
    requires DayMonotone(z) && IsNext(z, times, now, z.dayOf(now), z.dayOf(now) + 3, r)
    requires r.Some? && SlotOn(z, times, day, t) && t > now
    ensures r.value <= t
  {
    SlotDay(z, times, day, t);
    var d :| z.dayOf(now) <= d < z.dayOf(now) + 3 && SlotOn(z, times, d, r.value);
    SlotDay(z, times, d, r.value);
    if day < z.dayOf(now) + 3 {
      assert SlotIn(z, times, z.dayOf(now), z.dayOf(now) + 3, t);
    }
  }

  /** No slot of any day lies strictly between the previous slot found and now. */
  lemma PrevIsGlobal(z: Zone, times: seq<Entry>, now: int, r: Option<int>, day: int, t: int)
    requires DayMonotone(z) && IsPrev(z, times, now, z.dayOf(now) - 2, z.dayOf(now) + 1, r)
    requires r.Some? && SlotOn(z, times, day, t) && t <= now
    ensures t <= r.value
  {
    SlotDay(z, times, day, t);
    var d :| z.dayOf(now) - 2 <= d < z.dayOf(now) + 1 && SlotOn(z, times, d, r.value);
    SlotDay(z, times, d, r.value);
    if day >= z.dayOf(now) - 2 {
      assert SlotIn(z, times, z.dayOf(now) - 2, z.dayOf(now) + 1, t);
    }
  }

  // ---- what the next test is planned for ----

  datatype Mode = Times(entries: seq<Entry>) | Interval(minutes: nat)

  datatype Config = Config(enabled: bool, mode: Mode)

  // Why a test started: an operator, a scheduled slot, or the interval since the last one.
  datatype Cause = Manual | Slot(slot: int) | Spaced(minutes: nat)

  datatype Plan = Plan(at: int, cause: Cause)

  // latest: the newest stored sample's time, Failed when the query fails.
  // The scheduler reads the clock more than once per turn: n1 <= n2.
  ghost predicate Plans(z: Zone, mode: Mode, lastAttempt: Option<int>, n1: int, n2: int, plan: Option<Plan>) {
    plan.Some? ==>
      match mode
      case Interval(minutes) =>
        && plan.value.cause == Spaced(minutes) && plan.value.at > n1
        && (lastAttempt.Some? ==> plan.value.at >= lastAttempt.value + minutes * MINUTE)
      case Times(entries) =>
        && plan.value.cause.Slot?
        && (exists day :: SlotOn(z, entries, day, plan.value.cause.slot))
        && plan.value.cause.slot <= plan.value.at
        && (lastAttempt.Some? && lastAttempt.value <= n1 ==> lastAttempt.value < plan.value.cause.slot)
  }

  /** Anchor plus interval, never earlier than a second from now; half a minute out when there is
      neither a stored sample nor an attempt to anchor on. */
  method NextIntervalRun(latest: Option<int>, lastAttempt: Option<int>, minutes: nat, now: int) returns (next: int)
    ensures latest.None? && lastAttempt.None? ==> next == now + FIRST_DELAY
    ensures next > now
    ensures lastAttempt.Some? ==> next >= lastAttempt.value + minutes * MINUTE
    ensures latest.Some? ==> next >= latest.value + minutes * MINUTE
    ensures latest.Some? || lastAttempt.Some? ==>
              || next == now + SECOND
              || (latest.Some? && next == latest.value + minutes * MINUTE)
              || (lastAttempt.Some? && next == lastAttempt.value + minutes * MINUTE)
  {
    var anchor := lastAttempt;
    if latest.Some? && (anchor.None? || latest.value > anchor.value) {
      anchor := latest;
    }
    if anchor.None? {
      return now + FIRST_DELAY;
    }
    next := anchor.value + minutes * MINUTE;
    if next < now + SECOND {
      next := now + SECOND;
    }
  }

  // The slot went by with no attempt since it and no sample stored since it.
  predicate Missed(slot: int, lastAttempt: Option<int>, latest: Result<Option<int>>) {
    && (lastAttempt.None? || lastAttempt.value < slot)
    && latest.Ok? && (latest.value.None? || latest.value.value < slot)
  }

  ghost predicate LastSlot(z: Zone, times: seq<Entry>, now: int, slot: int) {
    IsPrev(z, times, now, z.dayOf(now) - 2, z.dayOf(now) + 1, Some(slot))
  }

  // Nothing due is left out, and slots are planned for their own time.
  ghost predicate PlansAll(z: Zone, mode: Mode, lastAttempt: Option<int>, latest: Result<Option<int>>, n1: int, n2: int,
                           plan: Option<Plan>)
  {
    match mode
    case Interval(_) => plan.None? <==> latest.Failed?
    case Times(entries) =>
      && (forall slot | LastSlot(z, entries, n1, slot) && Missed(slot, lastAttempt, latest) ::
            plan == Some(Plan(n2 + CATCHUP_DELAY, Slot(slot))))
      && ((forall slot | LastSlot(z, entries, n1, slot) :: !Missed(slot, lastAttempt, latest)) ==>
            && (plan.Some? ==> plan == Some(Plan(plan.value.at, Slot(plan.value.at))))
            && IsNext(z, entries, n2, z.dayOf(n2), z.dayOf(n2) + 3, if plan.Some? then Some(plan.value.at) else None))
  }

  /** A missed slot is caught up four minutes on; otherwise the next slot is planned for its own
      time; in interval mode only a failed lookup leaves nothing planned. */
  method NextRun(z: Zone, mode: Mode, lastAttempt: Option<int>, latest: Result<Option<int>>, n1: int, n2: int)
    returns (plan: Option<Plan>)
    requires n1 <= n2
    ensures Plans(z, mode, lastAttempt, n1, n2, plan) && PlansAll(z, mode, lastAttempt, latest, n1, n2, plan)
  {
    hide SlotOn;
    match mode {
      case Interval(minutes) =>
        if latest.Failed? {
          return None;
        }
        var next := NextIntervalRun(latest.value, lastAttempt, minutes, n1);
        return Some(Plan(next, Spaced(minutes)));
      case Times(entries) =>
        var prev := PrevScheduled(z, entries, n1);
        assert prev.Some? ==> LastSlot(z, entries, n1, prev.value);
        if prev.Some? && (lastAttempt.None? || lastAttempt.value < prev.value) {
          if latest.Ok? && (latest.value.None? || latest.value.value < prev.value) {
            return Some(Plan(n2 + CATCHUP_DELAY, Slot(prev.value)));
          }
        }
        var next := NextScheduled(z, entries, n2);
        if next.None? {
          return None;
        }
        return Some(Plan(next.value, Slot(next.value)));
    }
  }

  // ---- the loop ----

  datatype Start = Start(at: int, cause: Cause)

  // lastAttempt is set when a test starts, before anything can fail.
  datatype State = State(
    mode: Mode, enabled: bool, clock: int, lastAttempt: Option<int>, plan: Option<Plan>, starts: seq<Start>)

  datatype Event =
    | Turn(n1: int, n2: int, next: Option<Plan>)   // the loop recomputes the schedule
    | Fire(at: int)                                // the timer, at or after its time
    | RunNow(manualAt: int)
    | Reconfigure(cfg: Config)

  // The clock does not run backwards and a timer never fires early.
  ghost predicate Possible(z: Zone, s: State, e: Event) {
    match e
    case Turn(n1, n2, next) =>
      s.clock <= n1 <= n2 && if s.enabled then Plans(z, s.mode, s.lastAttempt, n1, n2, next) else next.None?
    case Fire(at) => s.plan.Some? && at >= s.clock && at >= s.plan.value.at
    case RunNow(at) => at >= s.clock
    case Reconfigure(_) => true
  }

  function Apply(s: State, e: Event): State {
    match e
    case Turn(_, n2, next) => s.(clock := n2, plan := next)
    case Fire(at) =>
      if s.plan.None? then s
      else s.(clock := at, lastAttempt := Some(at), plan := None, starts := s.starts + [Start(at, s.plan.value.cause)])
    case RunNow(at) => s.(clock := at, lastAttempt := Some(at), plan := None, starts := s.starts + [Start(at, Manual)])
    case Reconfigure(cfg) => s.(mode := cfg.mode, enabled := cfg.enabled, plan := None)
  }

  function Init(cfg: Config, now: int): State {
    State(cfg.mode, cfg.enabled, now, None, None, [])
  }

  function Run(s: State, es: seq<Event>): State {
    if es == [] then s else Apply(Run(s, es[..|es| - 1]), es[|es| - 1])
  }

  ghost predicate PossibleRun(z: Zone, s: State, es: seq<Event>) {
    es == [] || (PossibleRun(z, s, es[..|es| - 1]) && Possible(z, Run(s, es[..|es| - 1]), es[|es| - 1]))
  }

  // A row of bandwidth_samples: failed tests are stored too.
  datatype Stored = Stored(ts: int, ok: bool, derated: bool)

  // How one test goes: whether the in-flight row is written and later removed, when the test started, what
  // it came back with (Some: a result, and whether it is under the baseline), and whether its sample and
  // the dismissal's removal reach the store.
  datatype Course = Course(
    marks: bool, started: int, result: Option<bool>, stores: bool, undismisses: bool, unmarks: bool)

  function SampleOf(c: Course): Stored {
    Stored(c.started, c.result.Some?, c.result == Some(true))
  }

  class Runner {
    const zone: Zone
    const killSwitch: bool
    var enabled: bool
    var mode: Mode
    var inFlight: bool
    var lastAttempt: Option<int>
    var samples: seq<Stored>
    var runRow: bool         // the run_in_flight row
    var dismissed: bool      // the derate banner's dismissal
    ghost var clock: int
    ghost var plan: Option<Plan>
    ghost var starts: seq<Start>

    ghost function View(): State
      reads this
    {
      State(mode, enabled, clock, lastAttempt, plan, starts)
    }

    constructor (zone: Zone, cfg: Config, killSwitch: bool, now: int)
      ensures View() == Init(cfg, now) && !inFlight && this.killSwitch == killSwitch && samples == []
    {
      this.zone, this.killSwitch := zone, killSwitch;
      mode, enabled, inFlight, lastAttempt := cfg.mode, cfg.enabled, false, None;
      samples, runRow, dismissed := [], false, false;
      clock, plan, starts := now, None, [];
    }

    /** One turn of the loop up to the select: what the timer is armed for. */
    method ArmTimer(latest: Result<Option<int>>, n1: int, n2: int) returns (armed: Option<int>)
      requires clock <= n1 <= n2
      modifies this`clock, this`plan
      ensures Possible(zone, old(View()), Turn(n1, n2, plan))
      ensures View() == Apply(old(View()), Turn(n1, n2, plan))
      ensures if enabled then PlansAll(zone, mode, lastAttempt, latest, n1, n2, plan) else plan.None?
      ensures armed == if plan.Some? then Some(plan.value.at) else None
    {
      hide Plans, PlansAll;
      var next: Option<Plan> := None;
      if enabled {
        next := NextRun(zone, mode, lastAttempt, latest, n1, n2);
      }
      clock, plan := n2, next;
      armed := if next.Some? then Some(next.value.at) else None;
    }

    /** Runs one test. The attempt is recorded first, so the schedule moves on in the same way whatever the
        test and the store do; the sample is stored for a failed test too, and an incident's dismissal
        ends only with a stored result that is not derated. */
    method Execute(at: int, course: Course, ghost byTimer: bool) returns (ran: bool)
      requires byTimer ==> plan.Some?
      modifies this
      ensures ran <==> !killSwitch && !old(inFlight)
      ensures ran ==> !inFlight && View() == Apply(old(View()), if byTimer then Fire(at) else RunNow(at))
      ensures ran ==> samples == old(samples) + if course.stores then [SampleOf(course)] else []
      ensures ran ==> runRow == (!course.unmarks && (course.marks || old(runRow)))
      ensures ran ==>
                dismissed == (old(dismissed) && !(course.stores && course.result == Some(false) && course.undismisses))
      ensures !ran ==> View() == old(View()) && inFlight == old(inFlight) && samples == old(samples)
      ensures !ran ==> runRow == old(runRow) && dismissed == old(dismissed)
    {
      if killSwitch || inFlight {
        return false;
      }
      inFlight := true;
      lastAttempt := Some(at);
      starts := starts + [Start(at, if byTimer then plan.value.cause else Manual)];
      clock, plan := at, None;
      if course.marks {
        runRow := true;
      }
      TakeSample(course);
      inFlight := false;
      if course.unmarks {
        runRow := false;
      }
      ran := true;
    }

    // From the test's result to the stored sample.
    method TakeSample(course: Course)
      modifies this`samples, this`dismissed
      ensures samples == old(samples) + if course.stores then [SampleOf(course)] else []
      ensures dismissed == (old(dismissed) && !(course.stores && course.result == Some(false) && course.undismisses))
    {
      var smp := Stored(course.started, false, false);
      if course.result.Some? {
        smp := smp.(ok := true, derated := course.result.value);
      }
      if !course.stores {
        return;
      }
      samples := samples + [smp];
      if smp.ok && !smp.derated && course.undismisses {
        dismissed := false;
      }
    }
  }

  // ---- no runaway ----

  // An automatic start leaves its schedule's distance to every earlier start of any kind.
  ghost predicate Spread(z: Zone, starts: seq<Start>) {
    && (forall i, j | 0 <= i < j < |starts| ::
          match starts[j].cause
          case Manual => true
          case Slot(slot) => starts[i].at < slot
          case Spaced(minutes) => starts[j].at >= starts[i].at + minutes * MINUTE)
    && (forall j | 0 <= j < |starts| && starts[j].cause.Slot? ::
          starts[j].cause.slot <= starts[j].at && RealSlot(z, starts[j].cause.slot))
  }

  ghost predicate RealSlot(z: Zone, t: int) {
    exists entries, day :: SlotOn(z, entries, day, t)
  }

  predicate LastIsLatest(starts: seq<Start>, last: Option<int>) {
    && (starts != [] ==> last.Some?)
    && (last.Some? ==> forall i | 0 <= i < |starts| :: starts[i].at <= last.value)
  }

  ghost predicate RunInv(z: Zone, s: State) {
    && Spread(z, s.starts)
    && LastIsLatest(s.starts, s.lastAttempt)
    && (s.lastAttempt.Some? ==> s.lastAttempt.value <= s.clock)
    && (s.plan.Some? ==>
          match s.plan.value.cause
          case Manual => false
          case Slot(slot) =>
            slot <= s.plan.value.at && RealSlot(z, slot) && (s.lastAttempt.Some? ==> s.lastAttempt.value < slot)
          case Spaced(minutes) => s.lastAttempt.Some? ==> s.plan.value.at >= s.lastAttempt.value + minutes * MINUTE)
  }

  // One start more, after all the others and keeping its own distance.
  lemma SpreadMore(z: Zone, starts: seq<Start>, last: Option<int>, x: Start)
    requires Spread(z, starts) && LastIsLatest(starts, last)
    requires x.cause.Slot? ==> x.cause.slot <= x.at && RealSlot(z, x.cause.slot)
    requires x.cause.Slot? && last.Some? ==> last.value < x.cause.slot
    requires x.cause.Spaced? && last.Some? ==> x.at >= last.value + x.cause.minutes * MINUTE
    ensures Spread(z, starts + [x])
  {
    hide RealSlot;
  }

  lemma TurnKeeps(z: Zone, s: State, n1: int, n2: int, next: Option<Plan>)
    requires RunInv(z, s) && Possible(z, s, Turn(n1, n2, next))
    ensures RunInv(z, Apply(s, Turn(n1, n2, next)))
  {
    hide SlotOn, Spread;
    if next.Some? && s.mode.Times? {
      var slot := next.value.cause.slot;
      var day :| SlotOn(z, s.mode.entries, day, slot);
      assert RealSlot(z, slot);
    }
  }

  lemma StartKeeps(z: Zone, s: State, e: Event)
    requires RunInv(z, s) && Possible(z, s, e) && (e.Fire? || e.RunNow?)
    ensures RunInv(z, Apply(s, e))
  {
    hide Spread, RealSlot;
    var x := if e.Fire? then Start(e.at, s.plan.value.cause) else Start(e.manualAt, Manual);
    SpreadMore(z, s.starts, s.lastAttempt, x);
  }

  lemma StepKeeps(z: Zone, s: State, e: Event)
    requires RunInv(z, s) && Possible(z, s, e)
    ensures RunInv(z, Apply(s, e))
  {
    hide RunInv, Possible;
    match e
    case Turn(n1, n2, next) => TurnKeeps(z, s, n1, n2, next);
    case Fire(_) => StartKeeps(z, s, e);
    case RunNow(_) => StartKeeps(z, s, e);
    case Reconfigure(cfg) => ReconfigureKeeps(z, s, cfg);
  }

  lemma ReconfigureKeeps(z: Zone, s: State, cfg: Config)
    requires RunInv(z, s)
    ensures RunInv(z, Apply(s, Reconfigure(cfg)))
  {
  }

  lemma {:induction false} RunInvAlways(z: Zone, cfg: Config, now: int, es: seq<Event>)
    requires PossibleRun(z, Init(cfg, now), es)
    ensures RunInv(z, Run(Init(cfg, now), es))
  {
    if es != [] {
      hide RunInv, Possible, Apply;
      RunInvAlways(z, cfg, now, es[..|es| - 1]);
      StepKeeps(z, Run(Init(cfg, now), es[..|es| - 1]), es[|es| - 1]);
    } else {
      assert Init(cfg, now).starts == [];
    }
  }

  /** No test storm: whatever the store returns and whenever it fails, across reconfigurations and
      manual runs, a scheduled test starts no earlier than a real slot that lies after every earlier
      start, and an interval test at least the interval after every earlier start. */
  lemma NoRunaway(z: Zone, cfg: Config, now: int, es: seq<Event>)
    requires PossibleRun(z, Init(cfg, now), es)
    ensures Spread(z, Run(Init(cfg, now), es).starts)
  {
    RunInvAlways(z, cfg, now, es);
  }

  /** So scheduled tests map one to one, in order, to slots: no slot is served twice. */
  lemma SlotsServedOnce(z: Zone, cfg: Config, now: int, es: seq<Event>, i: nat, j: nat)
    requires PossibleRun(z, Init(cfg, now), es)
    requires var starts := Run(Init(cfg, now), es).starts;
             i < j < |starts| && starts[i].cause.Slot? && starts[j].cause.Slot?
    ensures var starts := Run(Init(cfg, now), es).starts;
            starts[i].cause.slot <= starts[i].at < starts[j].cause.slot
  {
    NoRunaway(z, cfg, now, es);
  }

  // ---- catching up ----

  /** A slot that went by is caught up, four minutes from now, if and only if nothing was attempted at or
      after it and the store can be read and holds no sample at or after it. */
  lemma CaughtUpIff(z: Zone, entries: seq<Entry>, lastAttempt: Option<int>, latest: Result<Option<int>>,
                    n1: int, n2: int, plan: Option<Plan>, slot: int)
    requires n1 <= n2 && PlansAll(z, Times(entries), lastAttempt, latest, n1, n2, plan)
    requires LastSlot(z, entries, n1, slot)
    ensures var attempted := lastAttempt.Some? && lastAttempt.value >= slot;
            var stored := latest.Ok? && latest.value.Some? && latest.value.value >= slot;
            var caughtUp := plan.Some? && plan.value.cause == Slot(slot);
            && (caughtUp <==> !attempted && latest.Ok? && !stored)
            && (caughtUp ==> plan.value.at == n2 + 240_000)
            && (!caughtUp && plan.Some? ==> plan.value.cause == Slot(plan.value.at) && plan.value.at > n2)
  {
    hide SlotOn;
    assert forall other | LastSlot(z, entries, n1, other) :: other == slot;
  }

  /** With no slot behind it there is nothing to catch up. */
  lemma NoSlotNoCatchUp(z: Zone, entries: seq<Entry>, lastAttempt: Option<int>, latest: Result<Option<int>>,
                        n1: int, n2: int, plan: Option<Plan>)
    requires n1 <= n2 && PlansAll(z, Times(entries), lastAttempt, latest, n1, n2, plan)
    requires forall slot :: !LastSlot(z, entries, n1, slot)
    ensures plan.Some? ==> plan.value.cause == Slot(plan.value.at) && plan.value.at > n2
  {
  }
}
