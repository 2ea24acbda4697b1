/** The alerting engine (internal/alert/engine.go) over the tables it writes. Times are
    milliseconds; `minute` is the local minute of the day. */
module Alert {
  import opened Wrappers

  datatype EventKind = ProbeOffline | TargetLoss | Latency | Derate | Capacity

  datatype Key = Key(event: EventKind, subject: string)

  // One alert_state row: raising until `active`.
  datatype Row = Row(active: bool, since: int, notifiedAt: Option<int>)

  datatype Entry = Entry(at: int, key: Key, recovery: bool)

  datatype Line = Line(key: Key, raised: Option<Entry>, recovered: Option<Entry>)

  datatype Note = Single(key: Key, recovery: bool) | Digest(lines: seq<Line>)

  // What the message of an entry says, and how many minutes local time is ahead of UTC at a millisecond.
  datatype Style = Style(message: Entry -> string, offset: int -> int)

  // quiet: start and end minute, None when either end is empty or unparseable.
  datatype Config = Config(
    enabled: bool, sustain: int, cooldown: int, rateLimit: int, quiet: Option<(int, int)>, style: Style)

  datatype Now = Now(ms: int, minute: int)

  // Which store operations of one step succeed.
  datatype Faults = Faults(loadOk: bool, saveOk: bool, enqueueOk: bool, upsertOk: bool, deleteOk: bool)

  // History of what the engine did, for stating properties over runs.
  datatype Mark =
    | Evaluated(key: Key, condition: bool, at: int)
    | Attempt(key: Key, at: int, sustain: int)   // raise() called
    | Raised(key: Key, at: int)                  // not suppressed by the cooldown
    | Pushed(at: int)                            // counted against the hourly limit
    | Accepted(key: Key, recovery: bool, at: int, quiet: bool)   // summarized in quiet hours, else queued
    | Deleted(key: Key)                          // row gone, condition cleared
    | Forgotten(key: Key)                        // row and cooldown gone: orphan sweep
    | Cleared(key: Key)                          // row gone: removed by an operator
    | Emptied                                    // the summary buffer was deleted

  // A mark about one incident.
  predicate HasKey(m: Mark) {
    !m.Pushed? && !m.Emptied?
  }

  datatype History = Begin | Then(past: History, mark: Mark)

  datatype Engine = Engine(
    rows: map<Key, Row>,
    queue: seq<Note>,
    summary: seq<Entry>,
    lastRaised: map<Key, int>,
    sent: seq<int>,
    trace: History)

  const START := Engine(map[], [], [], map[], [], Begin)
  const HOUR := 60 * 60 * 1000

  predicate InQuietWindow(minute: int, quiet: Option<(int, int)>) {
    match quiet
    case None => false
    case Some((s, e)) =>
      if s == e then false
      else if s < e then minute >= s && minute < e
      else minute >= s || minute < e
  }

  /** Quiet hours are one interval of the clock face, midnight or not: the time since the start is
      shorter than the interval. */
  lemma QuietIsClockInterval(minute: int, s: int, e: int)
    requires 0 <= minute < 1440 && 0 <= s < 1440 && 0 <= e < 1440
    ensures InQuietWindow(minute, Some((s, e))) <==> (minute - s) % 1440 < (e - s) % 1440
  {
    assert (minute - s) % 1440 == if minute >= s then minute - s else minute - s + 1440;
    assert (e - s) % 1440 == if e >= s then e - s else e - s + 1440;
  }

  function Mark1(e: Engine, m: Mark): Engine {
    e.(trace := Then(e.trace, m))
  }

  function Recent(sent: seq<int>, cut: int): seq<int> {
    if sent == [] then []
    else Recent(sent[..|sent| - 1], cut) + if sent[|sent| - 1] > cut then [sent[|sent| - 1]] else []
  }

  function Deliver(e: Engine, cfg: Config, now: Now, key: Key, recovery: bool, f: Faults): (Engine, bool) {
    if InQuietWindow(now.minute, cfg.quiet) then
      if f.saveOk then
        var entries := (if f.loadOk then e.summary else []) + [Entry(now.ms, key, recovery)];
        (Mark1(e.(summary := entries), Accepted(key, recovery, now.ms, true)), true)
      else (e, false)
    else
      var kept := Recent(e.sent, now.ms - HOUR);
      if !recovery && |kept| >= cfg.rateLimit then (e.(sent := kept), false)
      else
        var e1 := if recovery then e else Mark1(e.(sent := kept + [now.ms]), Pushed(now.ms));
        if f.enqueueOk then
          (Mark1(e1.(queue := e1.queue + [Single(key, recovery)]), Accepted(key, recovery, now.ms, false)), true)
        else (e1, false)
  }

  predicate Suppressed(e: Engine, cfg: Config, now: Now, key: Key) {
    key in e.lastRaised && now.ms - e.lastRaised[key] < cfg.cooldown
  }

  function Raise(e: Engine, cfg: Config, now: Now, key: Key, row: Row, sustain: int, f: Faults): (Engine, Row) {
    var e1 := Mark1(e, Attempt(key, now.ms, sustain));
    if Suppressed(e, cfg, now, key) then (e1, row.(active := true))
    else
      var raised := Mark1(e1.(lastRaised := e1.lastRaised[key := now.ms]), Raised(key, now.ms));
      var (e2, ok) := Deliver(raised, cfg, now, key, false, f);
      (e2, if ok then row.(active := true, notifiedAt := Some(now.ms)) else row.(active := true))
  }

  function Upsert(e: Engine, key: Key, row: Row, f: Faults): Engine {
    if f.upsertOk then e.(rows := e.rows[key := row]) else e
  }

  function Delete(e: Engine, key: Key, f: Faults): Engine {
    if f.deleteOk then Mark1(e.(rows := e.rows - {key}), Deleted(key)) else e
  }

  // One evaluation of one incident.
  function Step(e: Engine, cfg: Config, now: Now, key: Key, condition: bool, sustain: int, f: Faults): Engine {
    var e0 := Mark1(e, Evaluated(key, condition, now.ms));
    if condition && key !in e.rows then
      var ns := Row(false, now.ms, None);
      var (e1, row) := if sustain == 0 then Raise(e0, cfg, now, key, ns, sustain, f) else (e0, ns);
      Upsert(e1, key, row, f)
    else if condition && !e.rows[key].active then
      if now.ms - e.rows[key].since >= sustain then
        var (e1, row) := Raise(e0, cfg, now, key, e.rows[key], sustain, f);
        Upsert(e1, key, row, f)
      else e0
    else if !condition && key in e.rows then
      var told := e.rows[key].active && e.rows[key].notifiedAt.Some?;
      var e1 := if told then Deliver(e0, cfg, now, key, true, f).0 else e0;
      Delete(e1, key, f)
    else e0
  }

  function ClearOrphan(e: Engine, key: Key, f: Faults): Engine {
    if f.deleteOk then
      Mark1(e.(rows := e.rows - {key}, lastRaised := e.lastRaised - {key}), Forgotten(key))
    else e
  }

  // An operator removes the subject: the row goes, the engine's cooldown memory does not.
  function ClearByOperator(e: Engine, key: Key, f: Faults): Engine {
    if f.deleteOk then Mark1(e.(rows := e.rows - {key}), Cleared(key)) else e
  }

  // ---- the quiet-hours digest ----

  function FirstRaise(es: seq<Entry>, k: Key): Option<Entry> {
    if es == [] then None
    else
      var r := FirstRaise(es[..|es| - 1], k);
      var last := es[|es| - 1];
      if r.None? && last.key == k && !last.recovery then Some(last) else r
  }

  function LastRecovery(es: seq<Entry>, k: Key): Option<Entry> {
    if es == [] then None
    else
      var last := es[|es| - 1];
      if last.key == k && last.recovery then Some(last) else LastRecovery(es[..|es| - 1], k)
  }

  // Incidents in order of first appearance.
  function Subjects(es: seq<Entry>): seq<Key> {
    if es == [] then []
    else
      var ks := Subjects(es[..|es| - 1]);
      if es[|es| - 1].key in ks then ks else ks + [es[|es| - 1].key]
  }

  function DigestOf(es: seq<Entry>): seq<Line> {
    seq(|Subjects(es)|, i requires 0 <= i < |Subjects(es)| =>
      Line(Subjects(es)[i], FirstRaise(es, Subjects(es)[i]), LastRecovery(es, Subjects(es)[i])))
  }

  /** The digest names every buffered incident exactly once. */
  lemma {:induction false} DigestCoversOnce(es: seq<Entry>)
    ensures forall k :: k in Subjects(es) <==> exists i :: 0 <= i < |es| && es[i].key == k
    ensures forall i, j | 0 <= i < j < |Subjects(es)| :: Subjects(es)[i] != Subjects(es)[j]
  {
    if es != [] {
      var n := |es| - 1;
      DigestCoversOnce(es[..n]);
      forall k
        ensures k in Subjects(es) <==> exists i :: 0 <= i < |es| && es[i].key == k
      {
        if i :| 0 <= i < n && es[i].key == k {
          assert es[..n][i].key == k;
        }
        if k == es[n].key {
          assert es[n].key == k;
        }
      }
    }
  }

  // Every line tells of a raise or of a recovery.
  lemma {:induction false} EachIsTold(es: seq<Entry>)
    ensures forall i | 0 <= i < |Subjects(es)| ::
              FirstRaise(es, Subjects(es)[i]).Some? || LastRecovery(es, Subjects(es)[i]).Some?
  {
    if es != [] {
      EachIsTold(es[..|es| - 1]);
    }
  }

  // ---- the text of a line ----

  // Minutes since the epoch, and on the local clock.
  function MinuteOf(ms: int): int {
    ms / 60_000
  }

  function Local(st: Style, ms: int): int {
    MinuteOf(ms) + st.offset(ms)
  }

  function Day(st: Style, ms: int): int {
    Local(st, ms) / 1440
  }

  function TimeOfDay(st: Style, ms: int): nat {
    Local(st, ms) % 1440
  }

  function Digit(d: nat): char
    requires d < 10
  {
    (d + '0' as int) as char
  }

  function Two(n: nat): string
    requires n < 100
  {
    [Digit(n / 10), Digit(n % 10)]
  }

  function HHMM(t: nat): string
    requires t < 1440
  {
    Two(t / 60) + ":" + Two(t % 60)
  }

  // The time a line begins with.
  function Shown(l: Line): int {
    if l.raised.Some? then l.raised.value.at else if l.recovered.Some? then l.recovered.value.at else 0
  }

  function Clock(st: Style, ms: int): string {
    HHMM(TimeOfDay(st, ms))
  }

  // What follows it.
  function Rest(st: Style, l: Line): string {
    if l.raised.Some? && l.recovered.Some? then
      " " + st.message(l.raised.value) + " \U{2014} recovered " + Clock(st, l.recovered.value.at)
    else if l.raised.Some? then " " + st.message(l.raised.value) + " \U{2014} STILL ACTIVE"
    else if l.recovered.Some? then " " + st.message(l.recovered.value)
    else ""
  }

  function Text(st: Style, l: Line): string {
    Clock(st, Shown(l)) + Rest(st, l)
  }

  // String order: byte by byte in UTF-8, which is character by character.
  predicate AtMost(a: string, b: string) {
    a == "" || (b != "" && (a[0] < b[0] || (a[0] == b[0] && AtMost(a[1..], b[1..]))))
  }

  lemma {:induction false} StringOrder(a: string, b: string, c: string)
    ensures AtMost(a, b) || AtMost(b, a)
    ensures AtMost(a, b) && AtMost(b, a) ==> a == b
    ensures AtMost(a, b) && AtMost(b, c) ==> AtMost(a, c)
    decreases |a|
  {
    if a != "" && b != "" {
      StringOrder(a[1..], b[1..], if c == "" then "" else c[1..]);
      assert a == [a[0]] + a[1..] && b == [b[0]] + b[1..];
    }
  }

  lemma {:induction false} AfterPrefix(p: string, a: string, b: string)
    ensures AtMost(p + a, p + b) <==> AtMost(a, b)
  {
    if p == "" {
      assert p + a == a && p + b == b;
    } else {
      AfterPrefix(p[1..], a, b);
      assert (p + a)[1..] == p[1..] + a && (p + b)[1..] == p[1..] + b;
    }
  }

  /** Times of day order as strings the way they order as numbers, and nothing after them matters. */
  lemma ClocksOrder(t: nat, u: nat, x: string, y: string)
    requires t < u < 1440
    ensures AtMost(HHMM(t) + x, HHMM(u) + y) && !AtMost(HHMM(u) + y, HHMM(t) + x)
  {
    assert t == t / 60 * 60 + t % 60 && u == u / 60 * 60 + u % 60;
    assert HHMM(t) + x == Two(t / 60) + (":" + Two(t % 60) + x);
    assert HHMM(u) + y == Two(u / 60) + (":" + Two(u % 60) + y);
    if t / 60 < u / 60 {
      TwosOrder(t / 60, u / 60, ":" + Two(t % 60) + x, ":" + Two(u % 60) + y);
    } else {
      var p := Two(t / 60) + ":";
      assert HHMM(t) + x == p + (Two(t % 60) + x) && HHMM(u) + y == p + (Two(u % 60) + y);
      TwosOrder(t % 60, u % 60, x, y);
      AfterPrefix(p, Two(t % 60) + x, Two(u % 60) + y);
      AfterPrefix(p, Two(u % 60) + y, Two(t % 60) + x);
    }
  }

  lemma TwosOrder(m: nat, n: nat, x: string, y: string)
    requires m < n < 100
    ensures AtMost(Two(m) + x, Two(n) + y) && !AtMost(Two(n) + y, Two(m) + x)
  {
    FirstDifference(Two(m) + x, Two(n) + y, if m / 10 < n / 10 then 0 else 1);
  }

  lemma {:induction false} FirstDifference(a: string, b: string, i: nat)
    requires i < |a| && i < |b| && a[..i] == b[..i] && a[i] < b[i]
    ensures AtMost(a, b) && !AtMost(b, a)
  {
    if i > 0 {
      assert a[0] == a[..i][0] == b[..i][0] == b[0];
      assert a[1..][..i - 1] == a[..i][1..] == b[..i][1..] == b[1..][..i - 1];
      FirstDifference(a[1..], b[1..], i - 1);
    }
  }

  /** The text of two lines orders them by time of day and, within a minute of it, by what follows. */
  lemma TextOrder(st: Style, a: Line, b: Line)
    ensures var t, u := TimeOfDay(st, Shown(a)), TimeOfDay(st, Shown(b));
            AtMost(Text(st, a), Text(st, b)) <==> t < u || (t == u && AtMost(Rest(st, a), Rest(st, b)))
  {
    var t, u := TimeOfDay(st, Shown(a)), TimeOfDay(st, Shown(b));
    if t < u {
      ClocksOrder(t, u, Rest(st, a), Rest(st, b));
    } else if u < t {
      ClocksOrder(u, t, Rest(st, b), Rest(st, a));
    } else {
      AfterPrefix(HHMM(t), Rest(st, a), Rest(st, b));
    }
  }

  // ---- the order of the lines ----

  function Placed(st: Style, x: Line, lines: seq<Line>): seq<Line> {
    if lines == [] || AtMost(Text(st, x), Text(st, lines[0])) then [x] + lines
    else [lines[0]] + Placed(st, x, lines[1..])
  }

  // sort.Strings of the texts.
  function SortLines(st: Style, lines: seq<Line>): seq<Line> {
    if lines == [] then [] else Placed(st, lines[0], SortLines(st, lines[1..]))
  }

  predicate Sorted(st: Style, lines: seq<Line>) {
    forall i, j | 0 <= i < j < |lines| :: AtMost(Text(st, lines[i]), Text(st, lines[j]))
  }

  lemma {:induction false} PlacedMembers(st: Style, x: Line, lines: seq<Line>)
    ensures multiset(Placed(st, x, lines)) == multiset([x] + lines)
    ensures var p := Placed(st, x, lines); forall i | 0 <= i < |p| :: p[i] == x || p[i] in lines
  {
    hide Text;
    if lines != [] && !AtMost(Text(st, x), Text(st, lines[0])) {
      PlacedMembers(st, x, lines[1..]);
      assert lines == [lines[0]] + lines[1..];
    }
  }

  lemma {:induction false} PlacedSorted(st: Style, x: Line, lines: seq<Line>)
    requires Sorted(st, lines)
    ensures Sorted(st, Placed(st, x, lines))
  {
    hide Text, AtMost;
    if lines != [] {
      StringOrder(Text(st, x), Text(st, lines[0]), "");
      if AtMost(Text(st, x), Text(st, lines[0])) {
        forall j | 0 <= j < |lines|
          ensures AtMost(Text(st, x), Text(st, lines[j]))
        {
          StringOrder(Text(st, x), Text(st, lines[0]), Text(st, lines[j]));
        }
      } else {
        PlacedSorted(st, x, lines[1..]);
        PlacedMembers(st, x, lines[1..]);
        var rest := Placed(st, x, lines[1..]);
        forall j | 0 <= j < |rest|
          ensures AtMost(Text(st, lines[0]), Text(st, rest[j]))
        {
          if rest[j] != x {
            var k :| 0 <= k < |lines[1..]| && lines[1..][k] == rest[j];
            assert lines[k + 1] == rest[j];
          }
        }
        hide Placed;
      }
    }
  }

  /** Sorting loses no line and repeats none. */
  lemma {:induction false} SortLinesFacts(st: Style, lines: seq<Line>)
    ensures multiset(SortLines(st, lines)) == multiset(lines) && Sorted(st, SortLines(st, lines))
    ensures forall l :: l in SortLines(st, lines) <==> l in lines
  {
    if lines != [] {
      SortLinesFacts(st, lines[1..]);
      PlacedMembers(st, lines[0], SortLines(st, lines[1..]));
      PlacedSorted(st, lines[0], SortLines(st, lines[1..]));
      assert lines == [lines[0]] + lines[1..];
    }
    hide SortLines;
    assert forall l :: l in SortLines(st, lines) <==> l in multiset(SortLines(st, lines));
    assert forall l :: l in lines <==> l in multiset(lines);
  }

  // ---- when that order is the order in time ----

  predicate Earlier(a: Line, b: Line) {
    MinuteOf(Shown(a)) < MinuteOf(Shown(b))
  }

  // To the minute: the text says nothing finer.
  predicate Chronological(lines: seq<Line>) {
    forall i, j | 0 <= i < j < |lines| :: !Earlier(lines[j], lines[i])
  }

  // The local midnights, and the whole days on the local clock, from a to b.
  function Midnights(st: Style, a: Line, b: Line): int {
    Day(st, Shown(b)) - Day(st, Shown(a))
  }

  function WholeDays(st: Style, a: Line, b: Line): int {
    (Local(st, Shown(b)) - Local(st, Shown(a))) / 1440
  }

  // A later line comes after an earlier one: as many whole days as midnights lie between them and, should
  // both show the same time of day, what follows it decides.
  predicate KeepsOrder(st: Style, a: Line, b: Line) {
    && WholeDays(st, a, b) == Midnights(st, a, b)
    && (TimeOfDay(st, Shown(a)) == TimeOfDay(st, Shown(b)) ==> AtMost(Rest(st, a), Rest(st, b)))
  }

  lemma KeepsOrderIsText(st: Style, a: Line, b: Line)
    ensures KeepsOrder(st, a, b) <==> AtMost(Text(st, a), Text(st, b))
  {
    TextOrder(st, a, b);
    DaysAndMidnights(Local(st, Shown(a)), Local(st, Shown(b)));
  }

  lemma DaysAndMidnights(x: int, y: int)
    ensures (y - x) / 1440 == y / 1440 - x / 1440 <==> x % 1440 <= y % 1440
  {
    var d := y % 1440 - x % 1440;
    assert y - x == 1440 * (y / 1440 - x / 1440) + d;
    assert -1440 < d < 1440;
  }

  /** For any lines and any local clock, set forward or back while they were gathered: the digest is
      chronological to the minute exactly when from each line to each later one there are as many whole
      days as midnights, the rest of the text deciding between equal times of day. */
  lemma ChronologicalIff(st: Style, lines: seq<Line>)
    requires forall a, b | a in lines && b in lines && Earlier(a, b) :: Text(st, a) != Text(st, b)
    ensures Chronological(SortLines(st, lines)) <==>
            forall a, b | a in lines && b in lines && Earlier(a, b) :: KeepsOrder(st, a, b)
  {
    var sorted := SortLines(st, lines);
    SortLinesFacts(st, lines);
    hide SortLines, Earlier, KeepsOrder, Text, AtMost;
    if Chronological(sorted) {
      forall a, b | a in lines && b in lines && Earlier(a, b)
        ensures KeepsOrder(st, a, b)
      {
        KeepsOrderIsText(st, a, b);
        InOrder(st, sorted, a, b);
      }
    } else {
      var i, j :| 0 <= i < j < |sorted| && Earlier(sorted[j], sorted[i]);
      assert sorted[i] in lines && sorted[j] in lines;
      KeepsOrderIsText(st, sorted[j], sorted[i]);
      StringOrder(Text(st, sorted[j]), Text(st, sorted[i]), "");
    }
  }

  lemma InOrder(st: Style, sorted: seq<Line>, a: Line, b: Line)
    requires Sorted(st, sorted) && Chronological(sorted) && a in sorted && b in sorted && Earlier(a, b)
    ensures AtMost(Text(st, a), Text(st, b))
  {
    hide Text, AtMost;
    var i :| 0 <= i < |sorted| && sorted[i] == a;
    var j :| 0 <= j < |sorted| && sorted[j] == b;
  }

  // The local clock ran on without a change, and all lines lie within 24 hours.
  predicate OneDaySpan(st: Style, lines: seq<Line>) {
    forall a, b | a in lines && b in lines ::
      st.offset(Shown(a)) == st.offset(Shown(b)) && MinuteOf(Shown(b)) - MinuteOf(Shown(a)) < 1440
  }

  /** So within 24 hours the digest is chronological to the minute exactly when no local midnight
      separates two of its lines. */
  lemma ChronologicalUnlessMidnight(st: Style, lines: seq<Line>)
    requires OneDaySpan(st, lines)
    ensures Chronological(SortLines(st, lines)) <==>
            forall a, b | a in lines && b in lines :: Day(st, Shown(a)) == Day(st, Shown(b))
  {
    hide Earlier, KeepsOrder, Text, SortLines, Day;
    forall a, b | a in lines && b in lines && Earlier(a, b)
      ensures Text(st, a) != Text(st, b) && (KeepsOrder(st, a, b) <==> Day(st, Shown(a)) == Day(st, Shown(b)))
    {
      KeepsOrderWithinADay(st, a, b);
    }
    ChronologicalIff(st, lines);
    forall a, b | a in lines && b in lines && Day(st, Shown(a)) != Day(st, Shown(b))
      ensures Earlier(a, b) || Earlier(b, a)
    {
      DaysDiffer(st, a, b);
    }
  }

  lemma KeepsOrderWithinADay(st: Style, a: Line, b: Line)
    requires Earlier(a, b) && st.offset(Shown(a)) == st.offset(Shown(b))
    requires MinuteOf(Shown(b)) - MinuteOf(Shown(a)) < 1440
    ensures Text(st, a) != Text(st, b) && (KeepsOrder(st, a, b) <==> Day(st, Shown(a)) == Day(st, Shown(b)))
  {
    WithinADay(Local(st, Shown(a)), Local(st, Shown(b)));
    hide Text;
    TextOrder(st, a, b);
    TextOrder(st, b, a);
  }

  lemma WithinADay(x: int, y: int)
    requires x < y < x + 1440
    ensures (y - x) / 1440 == 0 && x % 1440 != y % 1440
  {
  }

  lemma DaysDiffer(st: Style, a: Line, b: Line)
    requires st.offset(Shown(a)) == st.offset(Shown(b)) && Day(st, Shown(a)) != Day(st, Shown(b))
    ensures Earlier(a, b) || Earlier(b, a)
  {
  }

  /** Quiet hours over midnight put the morning before the evening it followed. */
  lemma OvernightIsReversed(st: Style, lines: seq<Line>, evening: Line, morning: Line)
    requires OneDaySpan(st, lines) && evening in lines && morning in lines
    requires Shown(evening) < Shown(morning) && Midnights(st, evening, morning) > 0
    ensures !Chronological(SortLines(st, lines))
    ensures Earlier(evening, morning) && !AtMost(Text(st, evening), Text(st, morning))
  {
    ChronologicalUnlessMidnight(st, lines);
    DaysDiffer(st, evening, morning);
    WithinADay(Local(st, Shown(evening)), Local(st, Shown(morning)));
    KeepsOrderIsText(st, evening, morning);
  }

  /** A clock set back puts a line before an earlier one of the same day. */
  lemma SetBackIsReversed(st: Style, a: Line, b: Line)
    requires Day(st, Shown(a)) == Day(st, Shown(b)) && Local(st, Shown(b)) < Local(st, Shown(a))
    ensures !AtMost(Text(st, a), Text(st, b))
  {
    KeepsOrderIsText(st, a, b);
  }

  /** One line per subject with its first raise and its last recovery, in the order of their text. */
  method Coalesce(es: seq<Entry>, st: Style) returns (lines: seq<Line>)
    ensures lines == SortLines(st, DigestOf(es))
  {
    var order: seq<Key> := [];
    var raised: map<Key, Option<Entry>> := map[];
    var recovered: map<Key, Option<Entry>> := map[];
    for i := 0 to |es|
      invariant order == Subjects(es[..i])
      invariant forall k :: k in order <==> k in raised
      invariant raised.Keys == recovered.Keys
      invariant forall k | k in raised ::
                  raised[k] == FirstRaise(es[..i], k) && recovered[k] == LastRecovery(es[..i], k)
      invariant forall k | k !in raised :: FirstRaise(es[..i], k).None? && LastRecovery(es[..i], k).None?
    {
      var en := es[i];
      assert es[..i + 1][..i] == es[..i];
      if en.key !in raised {
        raised, recovered := raised[en.key := None], recovered[en.key := None];
        order := order + [en.key];
      }
      if en.recovery {
        recovered := recovered[en.key := Some(en)];
      } else if raised[en.key].None? {
        raised := raised[en.key := Some(en)];
      }
    }
    assert es[..|es|] == es;
    lines := seq(|order|, i requires 0 <= i < |order| => Line(order[i], raised[order[i]], recovered[order[i]]));
    assert lines == DigestOf(es);
    lines := SortLines(st, lines);
  }

  function FlushSummary(e: Engine, cfg: Config, f: Faults): Engine {
    if !f.loadOk || e.summary == [] || !f.enqueueOk then e
    else
      var e1 := e.(queue := e.queue + [Digest(SortLines(cfg.style, DigestOf(e.summary)))]);
      if f.deleteOk then Mark1(e1.(summary := []), Emptied) else e1
  }

  // ---- the engine object ----

  class AlertEngine {
    var rows: map<Key, Row>
    var queue: seq<Note>
    var summary: seq<Entry>
    var lastRaised: map<Key, int>
    var sent: seq<int>
    ghost var trace: History

    ghost function View(): Engine
      reads this
    {
      Engine(rows, queue, summary, lastRaised, sent, trace)
    }

    constructor ()
      ensures View() == START
    {
      rows, queue, summary, lastRaised, sent, trace := map[], [], [], map[], [], Begin;
    }

    method DeliverNote(cfg: Config, now: Now, key: Key, recovery: bool, f: Faults) returns (accepted: bool)
      modifies this
      ensures (View(), accepted) == Deliver(old(View()), cfg, now, key, recovery, f)
    {
      if InQuietWindow(now.minute, cfg.quiet) {
        var entries := if f.loadOk then summary else [];
        if !f.saveOk {
          return false;
        }
        summary := entries + [Entry(now.ms, key, recovery)];
        trace := Then(trace, Accepted(key, recovery, now.ms, true));
        return true;
      }
      if !recovery {
        var cut := now.ms - HOUR;
        var kept: seq<int> := [];
        for i := 0 to |sent|
          invariant kept == Recent(sent[..i], cut)
        {
          assert sent[..i + 1][..i] == sent[..i];
          if sent[i] > cut {
            kept := kept + [sent[i]];
          }
        }
        assert sent[..|sent|] == sent;
        sent := kept;
        if |sent| >= cfg.rateLimit {
          return false;
        }
        sent := sent + [now.ms];
        trace := Then(trace, Pushed(now.ms));
      }
      if !f.enqueueOk {
        return false;
      }
      queue := queue + [Single(key, recovery)];
      trace := Then(trace, Accepted(key, recovery, now.ms, false));
      return true;
    }

    method RaiseIncident(cfg: Config, now: Now, key: Key, st: Row, ghost sustain: int, f: Faults) returns (row: Row)
      modifies this
      ensures (View(), row) == Raise(old(View()), cfg, now, key, st, sustain, f)
    {
      hide Deliver;
      row := st.(active := true);
      trace := Then(trace, Attempt(key, now.ms, sustain));
      var suppressed := key in lastRaised && now.ms - lastRaised[key] < cfg.cooldown;
      if !suppressed {
        lastRaised := lastRaised[key := now.ms];
        trace := Then(trace, Raised(key, now.ms));
      }
      if suppressed {
        return;
      }
      var ok := DeliverNote(cfg, now, key, false, f);
      if ok {
        row := row.(notifiedAt := Some(now.ms));
      }
    }

    method StepIncident(cfg: Config, now: Now, key: Key, condition: bool, sustain: int, f: Faults)
      modifies this
      ensures View() == Step(old(View()), cfg, now, key, condition, sustain, f)
    {
      hide Deliver, Raise;
      var st := if key in rows then Some(rows[key]) else None;
      trace := Then(trace, Evaluated(key, condition, now.ms));
      if condition && st.None? {
        var ns := Row(false, now.ms, None);
        if sustain == 0 {
          ns := RaiseIncident(cfg, now, key, ns, sustain, f);
        }
        if f.upsertOk {
          rows := rows[key := ns];
        }
      } else if condition && !st.value.active {
        if now.ms - st.value.since >= sustain {
          var row := RaiseIncident(cfg, now, key, st.value, sustain, f);
          if f.upsertOk {
            rows := rows[key := row];
          }
        }
      } else if !condition && st.Some? {
        if st.value.active && st.value.notifiedAt.Some? {
          var _ := DeliverNote(cfg, now, key, true, f);
        }
        if f.deleteOk {
          rows := rows - {key};
          trace := Then(trace, Deleted(key));
        }
      }
    }

    method ClearOrphanRow(key: Key, f: Faults)
      modifies this
      ensures View() == ClearOrphan(old(View()), key, f)
    {
      if !f.deleteOk {
        return;
      }
      rows := rows - {key};
      lastRaised := lastRaised - {key};
      trace := Then(trace, Forgotten(key));
    }

    /** Coalesces the buffered events into one message and empties the buffer. */
    method FlushSummaryNote(cfg: Config, f: Faults)
      modifies this
      ensures View() == FlushSummary(old(View()), cfg, f)
    {
      if !f.loadOk || |summary| == 0 {
        return;
      }
      var lines := Coalesce(summary, cfg.style);
      if !f.enqueueOk {
        return;
      }
      queue := queue + [Digest(lines)];
      if f.deleteOk {
        summary := [];
        trace := Then(trace, Emptied);
      }
    }
  }
}
