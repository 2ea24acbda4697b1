/** What the alert engine guarantees over whole runs. */
module AlertRuns {
  import opened Wrappers
  import opened Alert

  datatype Event =
    | Eval(now: Now, key: Key, condition: bool, faults: Faults)
    | Orphan(key: Key, faults: Faults)
    | Operator(key: Key, faults: Faults)
    | Flush(faults: Faults)

  // Loss and latency must hold for the configured time; the rest is debounced upstream.
  function SustainOf(cfg: Config, key: Key): int {
    if key.event.TargetLoss? || key.event.Latency? then cfg.sustain else 0
  }

  function Apply(cfg: Config, e: Engine, ev: Event): Engine {
    match ev
    case Eval(now, key, condition, f) => Step(e, cfg, now, key, condition, SustainOf(cfg, key), f)
    case Orphan(key, f) => ClearOrphan(e, key, f)
    case Operator(key, f) => ClearByOperator(e, key, f)
    case Flush(f) => FlushSummary(e, cfg, f)
  }

  function Run(cfg: Config, es: seq<Event>): Engine {
    if es == [] then START else Apply(cfg, Run(cfg, es[..|es| - 1]), es[|es| - 1])
  }

  // The mark of a notification accepted at `now`.
  function Taken(cfg: Config, now: Now, key: Key, recovery: bool): Mark {
    Accepted(key, recovery, now.ms, InQuietWindow(now.minute, cfg.quiet))
  }

  predicate NotAfter(ev: Event, t: int) {
    ev.Eval? ==> ev.now.ms <= t
  }

  // The clock does not run backwards.
  predicate Ordered(es: seq<Event>) {
    forall i, j | 0 <= i < j < |es| && es[j].Eval? :: NotAfter(es[i], es[j].now.ms)
  }

  // ---- the sliding-hour limit ----

  function Pushes(h: History): seq<int> {
    match h
    case Begin => []
    case Then(past, Pushed(at)) => Pushes(past) + [at]
    case Then(past, _) => Pushes(past)
  }

  predicate Sorted(ps: seq<int>) {
    forall i, j | 0 <= i < j < |ps| :: ps[i] <= ps[j]
  }

  predicate Bounded(ps: seq<int>, t: int) {
    forall i | 0 <= i < |ps| :: ps[i] <= t
  }

  // Any `limit + 1` consecutive pushes span at least an hour.
  predicate SpreadOut(ps: seq<int>, limit: int) {
    forall i, j | 0 <= i < |ps| && 0 <= j < |ps| && j - i >= limit :: ps[i] <= ps[j] - HOUR
  }

  // The engine's memory agrees with the full history about everything in the last hour.
  ghost predicate Remembers(sent: seq<int>, ps: seq<int>, t: int) {
    forall c | c >= t - HOUR :: Recent(sent, c) == Recent(ps, c)
  }

  ghost predicate LimitInv(sent: seq<int>, ps: seq<int>, limit: int, t: int) {
    Sorted(ps) && Bounded(ps, t) && SpreadOut(ps, limit) && Remembers(sent, ps, t)
  }

  lemma {:induction false} RecentTwice(ps: seq<int>, a: int, b: int)
    requires a <= b
    ensures Recent(Recent(ps, a), b) == Recent(ps, b)
  {
    if ps != [] {
      var n := |ps| - 1;
      RecentTwice(ps[..n], a, b);
      var kept := Recent(ps[..n], a);
      if ps[n] > a {
        assert (kept + [ps[n]])[..|kept|] == kept;
      } else {
        assert kept + [] == kept;
      }
    }
  }

  lemma RecentPush(ps: seq<int>, x: int, c: int)
    ensures Recent(ps + [x], c) == Recent(ps, c) + if x > c then [x] else []
  {
    assert (ps + [x])[..|ps|] == ps;
  }

  // In a sorted history, the last `n` entries after the cut are what Recent keeps.
  lemma {:induction false} RecentCount(ps: seq<int>, c: int, n: nat)
    requires Sorted(ps) && n <= |ps| && (n > 0 ==> ps[|ps| - n] > c)
    ensures |Recent(ps, c)| >= n
  {
    if n > 0 {
      var m := |ps| - 1;
      assert n > 1 ==> ps[..m][|ps[..m]| - (n - 1)] == ps[|ps| - n];
      RecentCount(ps[..m], c, n - 1);
      assert ps[|ps| - n] <= ps[m];
    }
  }

  lemma PushSpreads(ps: seq<int>, limit: int, now: int)
    requires Sorted(ps) && Bounded(ps, now) && SpreadOut(ps, limit) && |Recent(ps, now - HOUR)| < limit
    ensures Sorted(ps + [now]) && Bounded(ps + [now], now) && SpreadOut(ps + [now], limit)
  {
    if |ps| >= limit && ps[|ps| - limit] > now - HOUR {
      RecentCount(ps, now - HOUR, limit);
    }
    hide Recent;
    assert limit > 0;
    assert |ps| >= limit ==> ps[|ps| - limit] <= now - HOUR;
  }

  lemma PushRemembers(sent: seq<int>, ps: seq<int>, t: int, now: int)
    requires Remembers(sent, ps, t) && t <= now
    ensures Remembers(Recent(sent, now - HOUR) + [now], ps + [now], now)
  {
    var kept := Recent(sent, now - HOUR);
    assert kept == Recent(ps, now - HOUR);
    forall c | c >= now - HOUR
      ensures Recent(kept + [now], c) == Recent(ps + [now], c)
    {
      RecentPush(kept, now, c);
      RecentPush(ps, now, c);
      RecentTwice(ps, now - HOUR, c);
    }
  }

  lemma PushKeeps(sent: seq<int>, ps: seq<int>, limit: int, t: int, now: int)
    requires LimitInv(sent, ps, limit, t) && t <= now
    requires |Recent(sent, now - HOUR)| < limit
    ensures LimitInv(Recent(sent, now - HOUR) + [now], ps + [now], limit, now)
  {
    PushRemembers(sent, ps, t, now);
    assert Recent(sent, now - HOUR) == Recent(ps, now - HOUR);
    hide Recent, Sorted, SpreadOut, Remembers;
    PushSpreads(ps, limit, now);
  }

  lemma TrimKeeps(sent: seq<int>, ps: seq<int>, limit: int, t: int, now: int)
    requires LimitInv(sent, ps, limit, t) && t <= now
    ensures LimitInv(sent, ps, limit, now) && LimitInv(Recent(sent, now - HOUR), ps, limit, now)
  {
    forall c | c >= now - HOUR
      ensures Recent(Recent(sent, now - HOUR), c) == Recent(ps, c)
    {
      RecentTwice(sent, now - HOUR, c);
    }
  }

  lemma DeliverKeepsLimit(e: Engine, cfg: Config, now: Now, key: Key, recovery: bool, f: Faults, t: int)
    requires LimitInv(e.sent, Pushes(e.trace), cfg.rateLimit, t) && t <= now.ms
    ensures var d := Deliver(e, cfg, now, key, recovery, f).0;
            LimitInv(d.sent, Pushes(d.trace), cfg.rateLimit, now.ms)
  {
    hide Recent, LimitInv, InQuietWindow;
    var ps := Pushes(e.trace);
    TrimKeeps(e.sent, ps, cfg.rateLimit, t, now.ms);
    if |Recent(e.sent, now.ms - HOUR)| < cfg.rateLimit {
      PushKeeps(e.sent, ps, cfg.rateLimit, t, now.ms);
    }
    assert Pushes(Then(e.trace, Pushed(now.ms))) == ps + [now.ms];
  }

  lemma StepKeepsLimit(e: Engine, cfg: Config, now: Now, key: Key, condition: bool, sustain: int, f: Faults, t: int)
    requires LimitInv(e.sent, Pushes(e.trace), cfg.rateLimit, t) && t <= now.ms
    ensures var s := Step(e, cfg, now, key, condition, sustain, f);
            LimitInv(s.sent, Pushes(s.trace), cfg.rateLimit, now.ms)
  {
    hide Deliver, LimitInv, Recent;
    var e0 := Mark1(e, Evaluated(key, condition, now.ms));
    var e1 := Mark1(e0, Attempt(key, now.ms, sustain));
    var e2 := Mark1(e1.(lastRaised := e1.lastRaised[key := now.ms]), Raised(key, now.ms));
    assert Pushes(e0.trace) == Pushes(e.trace);
    assert Pushes(e1.trace) == Pushes(e.trace);
    assert Pushes(e2.trace) == Pushes(e.trace);
    TrimKeeps(e.sent, Pushes(e.trace), cfg.rateLimit, t, now.ms);
    DeliverKeepsLimit(e2, cfg, now, key, false, f, t);
    DeliverKeepsLimit(e0, cfg, now, key, true, f, t);
  }

  lemma {:induction false} LimitAlways(cfg: Config, es: seq<Event>, t: int)
    requires Ordered(es) && forall i | 0 <= i < |es| :: NotAfter(es[i], t)
    ensures LimitInv(Run(cfg, es).sent, Pushes(Run(cfg, es).trace), cfg.rateLimit, t)
  {
    if es != [] {
      var past, last := es[..|es| - 1], es[|es| - 1];
      match last
      case Eval(now, key, condition, f) =>
        LimitAlways(cfg, past, now.ms);
        StepKeepsLimit(Run(cfg, past), cfg, now, key, condition, SustainOf(cfg, key), f, now.ms);
        TrimKeeps(Run(cfg, es).sent, Pushes(Run(cfg, es).trace), cfg.rateLimit, now.ms, t);
      case _ =>
        LimitAlways(cfg, past, t);
        hide LimitInv;
    }
  }

  function FirstAfter(ps: seq<int>, c: int): (k: nat)
    ensures k <= |ps|
    ensures forall i | 0 <= i < k :: ps[i] <= c
    ensures k < |ps| ==> ps[k] > c
  {
    if ps == [] || ps[0] > c then 0 else 1 + FirstAfter(ps[1..], c)
  }

  // How many pushes fall in the window (lo, hi].
  function CountIn(ps: seq<int>, lo: int, hi: int): nat {
    if ps == [] then 0
    else CountIn(ps[..|ps| - 1], lo, hi) + if lo < ps[|ps| - 1] <= hi then 1 else 0
  }

  lemma {:induction false} CountFrom(ps: seq<int>, lo: int, hi: int, k: nat)
    requires k <= |ps| && forall i | 0 <= i < |ps| && lo < ps[i] <= hi :: i >= k
    ensures CountIn(ps, lo, hi) <= |ps| - k
  {
    if ps != [] {
      var n := |ps| - 1;
      assert forall i | 0 <= i < n :: ps[..n][i] == ps[i];
      CountFrom(ps[..n], lo, hi, if k <= n then k else n);
    }
  }

  lemma {:induction false} CountUpTo(ps: seq<int>, lo: int, hi: int, m: nat)
    requires m <= |ps| && forall i | 0 <= i < |ps| && lo < ps[i] <= hi :: i < m
    ensures CountIn(ps, lo, hi) == CountIn(ps[..m], lo, hi)
  {
    if m < |ps| {
      var n := |ps| - 1;
      assert ps[..n][..m] == ps[..m];
      CountUpTo(ps[..n], lo, hi, m);
    } else {
      assert ps[..m] == ps;
    }
  }

  /** Every window of one hour holds at most `rateLimit` non-recovery enqueues, whatever fails. */
  lemma HourlyLimit(cfg: Config, es: seq<Event>, t: int)
    requires Ordered(es) && cfg.rateLimit >= 0
    ensures CountIn(Pushes(Run(cfg, es).trace), t - HOUR, t) <= cfg.rateLimit
  {
    hide Run, CountIn, Horizon, Pushes;
    LimitAlways(cfg, es, Horizon(es));
    SpreadBoundsCount(Pushes(Run(cfg, es).trace), cfg.rateLimit, t);
  }

  // Pushes spread out so that any `limit` in a row span an hour.
  lemma SpreadBoundsCount(ps: seq<int>, limit: int, t: int)
    requires limit >= 0 && Sorted(ps) && SpreadOut(ps, limit)
    ensures CountIn(ps, t - HOUR, t) <= limit
  {
    hide CountIn;
    var k := FirstAfter(ps, t - HOUR);
    var m := if k + limit <= |ps| then k + limit else |ps|;
    CountUpTo(ps, t - HOUR, t, m);
    CountFrom(ps[..m], t - HOUR, t, k);
  }

  function Horizon(es: seq<Event>): (t: int)
    ensures forall i | 0 <= i < |es| :: NotAfter(es[i], t)
  {
    if es == [] then 0
    else
      var t := Horizon(es[..|es| - 1]);
      if es[|es| - 1].Eval? && es[|es| - 1].now.ms > t then es[|es| - 1].now.ms else t
  }

  // ---- cooldown ----

  // Every earlier raise of `k` that no orphan sweep has forgotten lies at least `gap` before `at`.
  predicate RaisesBefore(h: History, k: Key, at: int, gap: int) {
    match h
    case Begin => true
    case Then(past, m) =>
      if m == Forgotten(k) then true
      else (m.Raised? && m.key == k ==> at - m.at >= gap) && RaisesBefore(past, k, at, gap)
  }

  predicate Cooled(h: History, gap: int) {
    match h
    case Begin => true
    case Then(past, Raised(k, at)) => RaisesBefore(past, k, at, gap) && Cooled(past, gap)
    case Then(past, _) => Cooled(past, gap)
  }

  function LastRaise(h: History, k: Key): Option<int> {
    match h
    case Begin => None
    case Then(past, m) =>
      if m == Forgotten(k) then None
      else if m.Raised? && m.key == k then Some(m.at)
      else LastRaise(past, k)
  }

  predicate RaisesUpTo(h: History, t: int) {
    match h
    case Begin => true
    case Then(past, m) => (m.Raised? ==> m.at <= t) && RaisesUpTo(past, t)
  }

  // Times of raises never decrease along the history.
  predicate RaisesOrdered(h: History) {
    match h
    case Begin => true
    case Then(past, m) => (m.Raised? ==> RaisesUpTo(past, m.at)) && RaisesOrdered(past)
  }

  ghost predicate CooldownInv(lastRaised: map<Key, int>, h: History, gap: int) {
    && Cooled(h, gap) && RaisesOrdered(h)
    && forall k :: LastRaise(h, k) == if k in lastRaised then Some(lastRaised[k]) else None
  }

  lemma {:induction false} LastRaiseIsLatest(h: History, k: Key, now: int, gap: int)
    requires RaisesOrdered(h) && gap >= 0
    requires LastRaise(h, k).Some? ==> now - LastRaise(h, k).value >= gap
    ensures RaisesBefore(h, k, now, gap)
  {
    match h
    case Begin =>
    case Then(past, m) =>
      if m.Raised? && m.key == k {
        UpToBefore(past, k, m.at, now, gap);
      } else if m != Forgotten(k) {
        LastRaiseIsLatest(past, k, now, gap);
      }
  }

  lemma {:induction false} UpToBefore(h: History, k: Key, t: int, now: int, gap: int)
    requires RaisesUpTo(h, t) && now - t >= gap
    ensures RaisesBefore(h, k, now, gap)
  {
    match h
    case Begin =>
    case Then(past, m) => UpToBefore(past, k, t, now, gap);
  }

  // Marks other than raises and orphan sweeps are invisible to the cooldown.
  predicate Quiet(m: Mark) {
    !m.Raised? && !m.Forgotten?
  }

  lemma QuietKeepsCooldown(lastRaised: map<Key, int>, h: History, gap: int, t: int, m: Mark)
    requires CooldownInv(lastRaised, h, gap) && RaisesUpTo(h, t) && Quiet(m)
    ensures CooldownInv(lastRaised, Then(h, m), gap) && RaisesUpTo(Then(h, m), t)
  {
  }

  lemma RaiseKeepsCooldown(lastRaised: map<Key, int>, h: History, gap: int, now: int, k: Key)
    requires CooldownInv(lastRaised, h, gap) && RaisesUpTo(h, now) && gap >= 0
    requires k in lastRaised ==> now - lastRaised[k] >= gap
    ensures CooldownInv(lastRaised[k := now], Then(h, Raised(k, now)), gap) && RaisesUpTo(Then(h, Raised(k, now)), now)
  {
    LastRaiseIsLatest(h, k, now, gap);
  }

  lemma DeliverKeepsCooldown(e: Engine, cfg: Config, now: Now, key: Key, recovery: bool, f: Faults)
    requires CooldownInv(e.lastRaised, e.trace, cfg.cooldown) && RaisesUpTo(e.trace, now.ms)
    ensures var d := Deliver(e, cfg, now, key, recovery, f).0;
            CooldownInv(d.lastRaised, d.trace, cfg.cooldown) && RaisesUpTo(d.trace, now.ms)
  {
    hide CooldownInv, RaisesUpTo, Recent, InQuietWindow;
    QuietKeepsCooldown(e.lastRaised, e.trace, cfg.cooldown, now.ms, Taken(cfg, now, key, recovery));
    QuietKeepsCooldown(e.lastRaised, e.trace, cfg.cooldown, now.ms, Pushed(now.ms));
    var pushed := Then(e.trace, Pushed(now.ms));
    QuietKeepsCooldown(e.lastRaised, pushed, cfg.cooldown, now.ms, Taken(cfg, now, key, recovery));
  }

  lemma StepKeepsCooldown(e: Engine, cfg: Config, now: Now, key: Key, condition: bool, sustain: int, f: Faults)
    requires CooldownInv(e.lastRaised, e.trace, cfg.cooldown) && RaisesUpTo(e.trace, now.ms) && cfg.cooldown >= 0
    ensures var s := Step(e, cfg, now, key, condition, sustain, f);
            CooldownInv(s.lastRaised, s.trace, cfg.cooldown) && RaisesUpTo(s.trace, now.ms)
  {
    hide CooldownInv, RaisesUpTo, Deliver;
    var gap := cfg.cooldown;
    var e0 := Mark1(e, Evaluated(key, condition, now.ms));
    var e1 := Mark1(e0, Attempt(key, now.ms, sustain));
    var e2 := Mark1(e1.(lastRaised := e1.lastRaised[key := now.ms]), Raised(key, now.ms));
    QuietKeepsCooldown(e.lastRaised, e.trace, gap, now.ms, Evaluated(key, condition, now.ms));
    QuietKeepsCooldown(e.lastRaised, e0.trace, gap, now.ms, Attempt(key, now.ms, sustain));
    if !Suppressed(e0, cfg, now, key) {
      RaiseKeepsCooldown(e.lastRaised, e1.trace, gap, now.ms, key);
      DeliverKeepsCooldown(e2, cfg, now, key, false, f);
    }
    DeliverKeepsCooldown(e0, cfg, now, key, true, f);
    var d := Deliver(e0, cfg, now, key, true, f).0;
    QuietKeepsCooldown(d.lastRaised, d.trace, gap, now.ms, Deleted(key));
    QuietKeepsCooldown(e0.lastRaised, e0.trace, gap, now.ms, Deleted(key));
  }

  lemma {:induction false} UpToLater(h: History, s: int, t: int)
    requires RaisesUpTo(h, s) && s <= t
    ensures RaisesUpTo(h, t)
  {
    if h.Then? {
      UpToLater(h.past, s, t);
    }
  }

  lemma ForgetKeepsCooldown(lastRaised: map<Key, int>, h: History, gap: int, t: int, k: Key)
    requires CooldownInv(lastRaised, h, gap) && RaisesUpTo(h, t)
    ensures CooldownInv(lastRaised - {k}, Then(h, Forgotten(k)), gap) && RaisesUpTo(Then(h, Forgotten(k)), t)
  {
  }

  lemma {:induction false} CooldownAlways(cfg: Config, es: seq<Event>, t: int)
    requires Ordered(es) && (forall i | 0 <= i < |es| :: NotAfter(es[i], t)) && cfg.cooldown >= 0
    ensures var e := Run(cfg, es); CooldownInv(e.lastRaised, e.trace, cfg.cooldown) && RaisesUpTo(e.trace, t)
  {
    if es != [] {
      var past, last := es[..|es| - 1], es[|es| - 1];
      var e := Run(cfg, past);
      match last
      case Eval(now, key, condition, f) =>
        CooldownAlways(cfg, past, now.ms);
        StepKeepsCooldown(e, cfg, now, key, condition, SustainOf(cfg, key), f);
        UpToLater(Run(cfg, es).trace, now.ms, t);
      case Orphan(key, f) =>
        CooldownAlways(cfg, past, t);
        ForgetKeepsCooldown(e.lastRaised, e.trace, cfg.cooldown, t, key);
      case Operator(key, f) =>
        CooldownAlways(cfg, past, t);
        QuietKeepsCooldown(e.lastRaised, e.trace, cfg.cooldown, t, Cleared(key));
      case Flush(f) =>
        CooldownAlways(cfg, past, t);
        QuietKeepsCooldown(e.lastRaised, e.trace, cfg.cooldown, t, Emptied);
    }
  }

  /** Under every pattern of store failures two unsuppressed raises of one incident are at least the
      cooldown apart, unless the orphan sweep forgot the subject in between. */
  lemma RaisesAreCooled(cfg: Config, es: seq<Event>)
    requires Ordered(es) && cfg.cooldown >= 0
    ensures Cooled(Run(cfg, es).trace, cfg.cooldown)
  {
    CooldownAlways(cfg, es, Horizon(es));
  }
}
