/** No accepted notification is lost: over whole runs of the engine each is in the queue, in the quiet-hours
    summary, or told by a queued digest; and exactly when the summary breaks that. */
module AlertBuffer {
  import opened Wrappers
  import opened Alert
  import opened AlertRuns
  import opened AlertTick

  // ---- what the history says was accepted ----

  // In quiet hours, since the summary was last emptied.
  function SinceEmptied(h: History): seq<Entry> {
    match h
    case Begin => []
    case Then(_, Emptied) => []
    case Then(past, Accepted(k, recovery, at, true)) => SinceEmptied(past) + [Entry(at, k, recovery)]
    case Then(past, _) => SinceEmptied(past)
  }

  // In quiet hours, ever.
  function QuietOnes(h: History): seq<Entry> {
    match h
    case Begin => []
    case Then(past, Accepted(k, recovery, at, true)) => QuietOnes(past) + [Entry(at, k, recovery)]
    case Then(past, _) => QuietOnes(past)
  }

  // Outside them.
  function PromptOnes(h: History): seq<(Key, bool)> {
    match h
    case Begin => []
    case Then(past, Accepted(k, recovery, _, false)) => PromptOnes(past) + [(k, recovery)]
    case Then(past, _) => PromptOnes(past)
  }

  function Singles(queue: seq<Note>): seq<(Key, bool)> {
    if queue == [] then []
    else
      var n := |queue| - 1;
      Singles(queue[..n]) + if queue[n].Single? then [(queue[n].key, queue[n].recovery)] else []
  }

  lemma SinglesNext(queue: seq<Note>, note: Note)
    ensures Singles(queue + [note]) == Singles(queue) + if note.Single? then [(note.key, note.recovery)] else []
  {
    assert (queue + [note])[..|queue|] == queue;
  }

  // ---- what a digest tells ----

  // A line of the incident, naming a raise for a raise and a recovery for a recovery.
  predicate Tells(l: Line, x: Entry) {
    l.key == x.key && if x.recovery then l.recovered.Some? else l.raised.Some?
  }

  predicate Covers(lines: seq<Line>, x: Entry) {
    exists i | 0 <= i < |lines| :: Tells(lines[i], x)
  }

  // Some entry is about the incident.
  predicate Named(es: seq<Entry>, k: Key) {
    exists i | 0 <= i < |es| :: es[i].key == k
  }

  predicate Told(queue: seq<Note>, x: Entry) {
    exists i | 0 <= i < |queue| :: queue[i].Digest? && Covers(queue[i].lines, x)
  }

  predicate FirstIs(es: seq<Entry>, k: Key, r: Option<Entry>) {
    match r
    case None => forall i | 0 <= i < |es| :: es[i].key == k ==> es[i].recovery
    case Some(x) => exists i | 0 <= i < |es| ::
      es[i] == x && x.key == k && !x.recovery && forall j | 0 <= j < i :: es[j].key == k ==> es[j].recovery
  }

  predicate LastIs(es: seq<Entry>, k: Key, r: Option<Entry>) {
    match r
    case None => forall i | 0 <= i < |es| :: es[i].key == k ==> !es[i].recovery
    case Some(x) => exists i | 0 <= i < |es| ::
      es[i] == x && x.key == k && x.recovery && forall j | i < j < |es| :: es[j].key == k ==> !es[j].recovery
  }

  lemma FirstGrows(past: seq<Entry>, x: Entry, k: Key, r: Option<Entry>)
    requires FirstIs(past, k, r)
    ensures FirstIs(past + [x], k, if r.None? && x.key == k && !x.recovery then Some(x) else r)
  {
    var es := past + [x];
    if r.Some? {
      var i :| 0 <= i < |past|
               && past[i] == r.value && forall j | 0 <= j < i :: past[j].key == k ==> past[j].recovery;
      assert es[i] == r.value;
    } else {
      assert es[|past|] == x;
    }
  }

  lemma LastGrows(past: seq<Entry>, x: Entry, k: Key, r: Option<Entry>)
    requires LastIs(past, k, r)
    ensures LastIs(past + [x], k, if x.key == k && x.recovery then Some(x) else r)
  {
    var es := past + [x];
    assert es[|past|] == x;
    if r.Some? && !(x.key == k && x.recovery) {
      var i :| 0 <= i < |past|
               && past[i] == r.value && forall j | i < j < |past| :: past[j].key == k ==> !past[j].recovery;
      assert es[i] == r.value;
    }
  }

  /** A line's raise is the incident's first in the buffer, and its recovery the last. */
  lemma {:induction false} LineTells(es: seq<Entry>, k: Key)
    ensures FirstIs(es, k, FirstRaise(es, k)) && LastIs(es, k, LastRecovery(es, k))
  {
    if es != [] {
      var past, x := es[..|es| - 1], es[|es| - 1];
      assert es == past + [x];
      LineTells(past, k);
      FirstGrows(past, x, k, FirstRaise(past, k));
      LastGrows(past, x, k, LastRecovery(past, k));
      hide FirstIs, LastIs;
    }
  }

  lemma DigestTells(es: seq<Entry>, i: nat) returns (n: nat)
    requires i < |es|
    ensures n < |DigestOf(es)| && Tells(DigestOf(es)[n], es[i])
  {
    DigestCoversOnce(es);
    assert es[i].key in Subjects(es);
    n :| 0 <= n < |Subjects(es)| && Subjects(es)[n] == es[i].key;
    LineTells(es, es[i].key);
    assert es[i].recovery ==> LastRecovery(es, es[i].key).Some?;
    assert !es[i].recovery ==> FirstRaise(es, es[i].key).Some?;
    hide FirstRaise, LastRecovery, Subjects, FirstIs, LastIs;
    assert DigestOf(es)[n] == Line(es[i].key, FirstRaise(es, es[i].key), LastRecovery(es, es[i].key));
  }

  /** A digest covers every entry of the buffer it is made of, has no line of any other incident, and no two
      of one. */
  lemma DigestIsExact(st: Style, es: seq<Entry>)
    ensures var lines := SortLines(st, DigestOf(es));
            && (forall i | 0 <= i < |es| :: Covers(lines, es[i]))
            && (forall n | 0 <= n < |lines| :: Named(es, lines[n].key))
            && (forall m, n | 0 <= m < n < |lines| :: lines[m].key != lines[n].key)
  {
    hide SortLines, Subjects, FirstRaise, LastRecovery, DigestOf, Covers;
    var digest, lines := DigestOf(es), SortLines(st, DigestOf(es));
    SortLinesFacts(st, digest);
    DigestKeys(es);
    forall i | 0 <= i < |es|
      ensures Covers(lines, es[i])
    {
      var n := DigestTells(es, i);
      assert digest[n] in lines;
      CoveredBy(lines, digest[n], es[i]);
    }
    forall n | 0 <= n < |lines|
      ensures Named(es, lines[n].key)
    {
      assert lines[n] in digest;
    }
    KeysStayDistinct(digest, lines);
  }

  lemma CoveredBy(lines: seq<Line>, l: Line, x: Entry)
    requires l in lines && Tells(l, x)
    ensures Covers(lines, x)
  {
    var m :| 0 <= m < |lines| && lines[m] == l;
  }

  lemma DigestKeys(es: seq<Entry>)
    ensures forall l | l in DigestOf(es) :: Named(es, l.key)
    ensures var d := DigestOf(es); forall m, n | 0 <= m < n < |d| :: d[m].key != d[n].key
  {
    DigestCoversOnce(es);
    hide Subjects, FirstRaise, LastRecovery;
    var d := DigestOf(es);
    assert forall n | 0 <= n < |d| :: d[n].key == Subjects(es)[n];
    forall l | l in d
      ensures Named(es, l.key)
    {
      var n :| 0 <= n < |d| && d[n] == l;
      assert Subjects(es)[n] in Subjects(es);
    }
  }

  lemma KeysStayDistinct(a: seq<Line>, b: seq<Line>)
    requires multiset(a) == multiset(b) && forall m, n | 0 <= m < n < |a| :: a[m].key != a[n].key
    ensures forall m, n | 0 <= m < n < |b| :: b[m].key != b[n].key
  {
    forall m, n | 0 <= m < n < |b|
      ensures b[m].key != b[n].key
    {
      if b[m].key == b[n].key {
        assert b[m] in multiset(b) && b[n] in multiset(b);
        assert b[m] in a && b[n] in a;
        assert b[m] == b[n];
        Twice(b, m, n);
        OnceOnly(a, b[m]);
      }
    }
  }

  lemma Twice(s: seq<Line>, m: nat, n: nat)
    requires m < n < |s| && s[m] == s[n]
    ensures multiset(s)[s[m]] >= 2
  {
    assert s == s[..m] + [s[m]] + s[m + 1..n] + [s[n]] + s[n + 1..];
  }

  lemma {:induction false} OnceOnly(s: seq<Line>, x: Line)
    requires forall m, n | 0 <= m < n < |s| :: s[m].key != s[n].key
    ensures multiset(s)[x] <= 1
  {
    if s != [] {
      var n := |s| - 1;
      OnceOnly(s[..n], x);
      assert s == s[..n] + [s[n]];
      if x == s[n] {
        assert x !in s[..n];
        assert x !in multiset(s[..n]);
      }
    }
  }

  // ---- one evaluation ----

  // d is e after at most one notification, about x, was accepted.
  predicate Follows(e: Engine, d: Engine, loadOk: bool, x: Entry) {
    var quiet := d.summary == (if loadOk then e.summary else []) + [x]
                 && SinceEmptied(d.trace) == SinceEmptied(e.trace) + [x]
                 && QuietOnes(d.trace) == QuietOnes(e.trace) + [x]
                 && d.queue == e.queue && PromptOnes(d.trace) == PromptOnes(e.trace);
    var prompt := d.queue == e.queue + [Single(x.key, x.recovery)]
                  && PromptOnes(d.trace) == PromptOnes(e.trace) + [(x.key, x.recovery)];
    var queued := d.summary == e.summary && SinceEmptied(d.trace) == SinceEmptied(e.trace)
                  && QuietOnes(d.trace) == QuietOnes(e.trace)
                  && (prompt || (d.queue == e.queue && PromptOnes(d.trace) == PromptOnes(e.trace)));
    quiet || queued
  }

  lemma DeliverFollows(e: Engine, cfg: Config, now: Now, key: Key, recovery: bool, f: Faults)
    ensures Follows(e, Deliver(e, cfg, now, key, recovery, f).0, f.loadOk, Entry(now.ms, key, recovery))
  {
    hide Recent, InQuietWindow;
    var x := Entry(now.ms, key, recovery);
    if InQuietWindow(now.minute, cfg.quiet) {
      QuietMark(e.trace, x);
    } else {
      QuietMark(Then(e.trace, Pushed(now.ms)), x);
      QuietMark(e.trace, x);
    }
  }

  lemma QuietMark(h: History, x: Entry)
    ensures var t := Then(h, Accepted(x.key, x.recovery, x.at, true));
            && SinceEmptied(t) == SinceEmptied(h) + [x] && QuietOnes(t) == QuietOnes(h) + [x]
            && PromptOnes(t) == PromptOnes(h)
    ensures var t := Then(h, Accepted(x.key, x.recovery, x.at, false));
            && SinceEmptied(t) == SinceEmptied(h) && QuietOnes(t) == QuietOnes(h)
            && PromptOnes(t) == PromptOnes(h) + [(x.key, x.recovery)]
  {
  }

  lemma OtherMark(e: Engine, d: Engine, m: Mark)
    requires d.summary == e.summary && d.queue == e.queue && d.trace == Then(e.trace, m) && !m.Accepted? && !m.Emptied?
    ensures SinceEmptied(d.trace) == SinceEmptied(e.trace) && QuietOnes(d.trace) == QuietOnes(e.trace)
    ensures PromptOnes(d.trace) == PromptOnes(e.trace)
  {
  }

  lemma RaiseFollows(e: Engine, cfg: Config, now: Now, key: Key, row: Row, sustain: int, f: Faults)
    ensures Follows(e, Raise(e, cfg, now, key, row, sustain, f).0, f.loadOk, Entry(now.ms, key, false))
  {
    hide Deliver, Suppressed;
    var e1 := Mark1(e, Attempt(key, now.ms, sustain));
    var e2 := Mark1(e1.(lastRaised := e1.lastRaised[key := now.ms]), Raised(key, now.ms));
    OtherMark(e, e1, Attempt(key, now.ms, sustain));
    OtherMark(e1, e2, Raised(key, now.ms));
    DeliverFollows(e2, cfg, now, key, false, f);
    hide SinceEmptied, QuietOnes, PromptOnes;
  }

  lemma StepFollows(e: Engine, cfg: Config, now: Now, key: Key, condition: bool, sustain: int, f: Faults)
    ensures Follows(e, Step(e, cfg, now, key, condition, sustain, f), f.loadOk, Entry(now.ms, key, !condition))
  {
    hide Deliver, Raise;
    var e0 := Mark1(e, Evaluated(key, condition, now.ms));
    OtherMark(e, e0, Evaluated(key, condition, now.ms));
    if condition {
      RaiseFollows(e0, cfg, now, key, if key in e.rows then e.rows[key] else Row(false, now.ms, None), sustain, f);
      hide SinceEmptied, QuietOnes, PromptOnes;
    } else {
      DeliverFollows(e0, cfg, now, key, true, f);
      var d := Deliver(e0, cfg, now, key, true, f).0;
      OtherMark(d, Mark1(d, Deleted(key)), Deleted(key));
      OtherMark(e0, Mark1(e0, Deleted(key)), Deleted(key));
      hide SinceEmptied, QuietOnes, PromptOnes;
    }
  }

  // ---- whole runs ----

  // A notification is accepted in quiet hours while the summary holds others and cannot be read.
  predicate Overwrites(cfg: Config, e: Engine, ev: Event) {
    && ev.Eval? && !ev.faults.loadOk && e.summary != []
    && |QuietOnes(Apply(cfg, e, ev).trace)| > |QuietOnes(e.trace)|
  }

  predicate NeverOverwrites(cfg: Config, es: seq<Event>) {
    es == [] || (NeverOverwrites(cfg, es[..|es| - 1]) && !Overwrites(cfg, Run(cfg, es[..|es| - 1]), es[|es| - 1]))
  }

  predicate SummaryRight(e: Engine) {
    e.summary == SinceEmptied(e.trace)
  }

  predicate SummaryAlwaysRight(cfg: Config, es: seq<Event>) {
    SummaryRight(Run(cfg, es)) && (es == [] || SummaryAlwaysRight(cfg, es[..|es| - 1]))
  }

  lemma FollowedRight(e: Engine, d: Engine, loadOk: bool, x: Entry)
    requires SummaryRight(e) && Follows(e, d, loadOk, x)
    ensures SummaryRight(d) <==> loadOk || e.summary == [] || |QuietOnes(d.trace)| <= |QuietOnes(e.trace)|
  {
    hide SinceEmptied, QuietOnes, PromptOnes;
    assert e.summary != [] ==> [x] != e.summary + [x];
  }

  /** Exactly which steps leave a summary that is not the entries accepted since it was last emptied. */
  lemma StepSummaryIff(cfg: Config, e: Engine, ev: Event)
    requires SummaryRight(e)
    ensures SummaryRight(Apply(cfg, e, ev)) <==> !Overwrites(cfg, e, ev)
  {
    hide Step, Follows, SortLines, DigestOf;
    match ev
    case Eval(now, key, condition, f) =>
      StepFollows(e, cfg, now, key, condition, SustainOf(cfg, key), f);
      hide SinceEmptied, QuietOnes, PromptOnes, SustainOf, SummaryRight;
      FollowedRight(e, Apply(cfg, e, ev), f.loadOk, Entry(now.ms, key, !condition));
    case _ =>
  }

  /** The summary is, after every event, the entries accepted in quiet hours since it was last emptied, in
      order, if and only if it is never overwritten. */
  lemma {:induction false} SummaryIff(cfg: Config, es: seq<Event>)
    ensures SummaryAlwaysRight(cfg, es) <==> NeverOverwrites(cfg, es)
  {
    if es != [] {
      var e, ev := Run(cfg, es[..|es| - 1]), es[|es| - 1];
      assert Run(cfg, es) == Apply(cfg, e, ev);
      hide Run, Apply, SummaryRight, Overwrites;
      SummaryIff(cfg, es[..|es| - 1]);
      if SummaryAlwaysRight(cfg, es[..|es| - 1]) {
        StepSummaryIff(cfg, e, ev);
      }
    }
  }

  // Every notification accepted in quiet hours is in the summary or told by a queued digest.
  predicate QuietKept(e: Engine) {
    var all := QuietOnes(e.trace);
    forall i | 0 <= i < |all| :: all[i] in e.summary || Told(e.queue, all[i])
  }

  lemma ToldGrows(queue: seq<Note>, note: Note, x: Entry)
    ensures Told(queue, x) ==> Told(queue + [note], x)
    ensures note.Digest? && Covers(note.lines, x) ==> Told(queue + [note], x)
  {
    if Told(queue, x) {
      var i :| 0 <= i < |queue| && queue[i].Digest? && Covers(queue[i].lines, x);
      assert (queue + [note])[i] == queue[i];
    }
    assert (queue + [note])[|queue|] == note;
  }

  /** A flush touches the summary only by emptying it, and empties it only with a digest of it queued. */
  lemma FlushTells(cfg: Config, e: Engine, f: Faults)
    ensures var d := FlushSummary(e, cfg, f); var lines := SortLines(cfg.style, DigestOf(e.summary));
            && (d.queue == e.queue || d.queue == e.queue + [Digest(lines)])
            && (d.summary != e.summary ==> d.summary == [] && d.queue != e.queue)
            && (forall i | 0 <= i < |e.summary| :: e.summary[i] in d.summary || Told(d.queue, e.summary[i]))
            && (forall x :: Told(e.queue, x) ==> Told(d.queue, x))
            && QuietOnes(d.trace) == QuietOnes(e.trace) && PromptOnes(d.trace) == PromptOnes(e.trace)
  {
    DigestIsExact(cfg.style, e.summary);
    hide SortLines, DigestOf, Told, Covers;
    var note := Digest(SortLines(cfg.style, DigestOf(e.summary)));
    forall x
      ensures Told(e.queue, x) ==> Told(e.queue + [note], x)
      ensures Covers(note.lines, x) ==> Told(e.queue + [note], x)
    {
      ToldGrows(e.queue, note, x);
    }
  }

  lemma FollowsKeeps(e: Engine, d: Engine, loadOk: bool, x: Entry)
    requires Follows(e, d, loadOk, x) && QuietKept(e)
    requires |QuietOnes(d.trace)| > |QuietOnes(e.trace)| && e.summary != [] ==> loadOk
    ensures QuietKept(d)
  {
    hide SinceEmptied, QuietOnes, PromptOnes, Told;
    var all := QuietOnes(d.trace);
    forall i | 0 <= i < |all|
      ensures all[i] in d.summary || Told(d.queue, all[i])
    {
      if i < |QuietOnes(e.trace)| {
        assert QuietOnes(e.trace)[i] == all[i];
        ToldGrows(e.queue, Single(x.key, x.recovery), all[i]);
      }
    }
  }

  lemma StepQuiet(cfg: Config, e: Engine, ev: Event)
    requires QuietKept(e) && !Overwrites(cfg, e, ev)
    ensures QuietKept(Apply(cfg, e, ev))
  {
    match ev
    case Eval(now, key, condition, f) =>
      hide Step, QuietKept, Follows, QuietOnes;
      StepFollows(e, cfg, now, key, condition, SustainOf(cfg, key), f);
      FollowsKeeps(e, Apply(cfg, e, ev), f.loadOk, Entry(now.ms, key, !condition));
    case Flush(f) => FlushKeepsQuiet(cfg, e, f);
    case Orphan(key, f) =>
    case Operator(key, f) =>
  }

  lemma FlushKeepsQuiet(cfg: Config, e: Engine, f: Faults)
    requires QuietKept(e)
    ensures QuietKept(FlushSummary(e, cfg, f))
  {
    FlushTells(cfg, e, f);
    hide FlushSummary, Told, QuietOnes, SortLines, DigestOf;
    var d := FlushSummary(e, cfg, f);
    var all := QuietOnes(e.trace);
    forall i | 0 <= i < |all|
      ensures all[i] in d.summary || Told(d.queue, all[i])
    {
      if all[i] in e.summary {
        var j :| 0 <= j < |e.summary| && e.summary[j] == all[i];
      }
    }
  }

  lemma StepPrompt(cfg: Config, e: Engine, ev: Event)
    requires Singles(e.queue) == PromptOnes(e.trace)
    ensures var d := Apply(cfg, e, ev); Singles(d.queue) == PromptOnes(d.trace)
  {
    hide Step, FlushSummary;
    match ev
    case Eval(now, key, condition, f) =>
      StepFollows(e, cfg, now, key, condition, SustainOf(cfg, key), f);
      SinglesNext(e.queue, Single(key, !condition));
      hide SinceEmptied, QuietOnes, PromptOnes, Singles;
    case Flush(f) =>
      FlushTells(cfg, e, f);
      SinglesNext(e.queue, Digest(SortLines(cfg.style, DigestOf(e.summary))));
      hide SortLines, DigestOf, Told, Singles;
    case _ =>
  }

  /** Over every run, whatever fails, the notifications accepted outside quiet hours are in the queue, each
      once and in order; */
  lemma {:induction false} PromptAreQueued(cfg: Config, es: seq<Event>)
    ensures Singles(Run(cfg, es).queue) == PromptOnes(Run(cfg, es).trace)
  {
    if es != [] {
      hide Apply, Singles, PromptOnes;
      PromptAreQueued(cfg, es[..|es| - 1]);
      StepPrompt(cfg, Run(cfg, es[..|es| - 1]), es[|es| - 1]);
    }
  }

  /** and those accepted in quiet hours are in the summary or told by a queued digest, as long as the summary
      is never overwritten. */
  lemma {:induction false} QuietAreKept(cfg: Config, es: seq<Event>)
    requires NeverOverwrites(cfg, es)
    ensures QuietKept(Run(cfg, es)) && SummaryRight(Run(cfg, es))
  {
    SummaryIff(cfg, es);
    if es != [] {
      hide Apply, QuietKept, SummaryRight, Overwrites;
      QuietAreKept(cfg, es[..|es| - 1]);
      StepQuiet(cfg, Run(cfg, es[..|es| - 1]), es[|es| - 1]);
    }
  }

  /** One failing read is enough to lose an alert for good: it is in no queue and no summary. */
  lemma OverwrittenIsLost(cfg: Config, minute: int)
    requires InQuietWindow(minute, cfg.quiet)
    ensures var k, l := Key(ProbeOffline, "k"), Key(ProbeOffline, "l");
            var good, unread := Faults(true, true, true, true, true), Faults(false, true, true, true, true);
            var e := Run(cfg, [Eval(Now(0, minute), k, true, good), Eval(Now(1, minute), l, true, unread)]);
            && QuietOnes(e.trace) == [Entry(0, k, false), Entry(1, l, false)]
            && e.summary == [Entry(1, l, false)] && e.queue == []
  {
    var k, l := Key(ProbeOffline, "k"), Key(ProbeOffline, "l");
    var good, unread := Faults(true, true, true, true, true), Faults(false, true, true, true, true);
    var es := [Eval(Now(0, minute), k, true, good), Eval(Now(1, minute), l, true, unread)];
    hide Run, Step, InQuietWindow, QuietOnes;
    var e1, e2 := Apply(cfg, START, es[0]), Apply(cfg, Apply(cfg, START, es[0]), es[1]);
    FirstSighting(START, cfg, Now(0, minute), k, good);
    FirstSighting(e1, cfg, Now(1, minute), l, unread);
    RunsTo(cfg, es);
    NothingYet();
  }

  lemma NothingYet()
    ensures QuietOnes(Begin) == []
  {
  }

  lemma RunsTo(cfg: Config, es: seq<Event>)
    requires |es| == 2
    ensures Run(cfg, es) == Apply(cfg, Apply(cfg, START, es[0]), es[1])
  {
    hide Apply;
    assert es[..1][..0] == [] && es[..1][0] == es[0];
    assert Run(cfg, es[..1]) == Apply(cfg, START, es[0]);
  }

  // A probe seen offline for the first time, in quiet hours.
  lemma FirstSighting(e: Engine, cfg: Config, now: Now, key: Key, f: Faults)
    requires key.event.ProbeOffline? && key !in e.rows && key !in e.lastRaised
    requires InQuietWindow(now.minute, cfg.quiet) && f.saveOk
    ensures var d := Apply(cfg, e, Eval(now, key, true, f)); var x := Entry(now.ms, key, false);
            && QuietOnes(d.trace) == QuietOnes(e.trace) + [x]
            && d.summary == (if f.loadOk then e.summary else []) + [x] && d.queue == e.queue
            && d.rows.Keys <= e.rows.Keys + {key} && d.lastRaised.Keys <= e.lastRaised.Keys + {key}
  {
    hide InQuietWindow;
    var e0 := Mark1(e, Evaluated(key, true, now.ms));
    var e1 := Mark1(e0, Attempt(key, now.ms, 0));
    var e2 := Mark1(e1.(lastRaised := e1.lastRaised[key := now.ms]), Raised(key, now.ms));
    assert QuietOnes(e0.trace) == QuietOnes(e.trace);
    assert QuietOnes(e1.trace) == QuietOnes(e.trace);
    assert QuietOnes(e2.trace) == QuietOnes(e.trace);
    QuietMark(e2.trace, Entry(now.ms, key, false));
  }

  // ---- ticks ----

  // Quiet hours queue nothing, and the other hours summarize nothing.
  predicate InItsPlace(cfg: Config, now: Now, e: Engine, d: Engine) {
    && e.queue <= d.queue
    && if InQuietWindow(now.minute, cfg.quiet) then d.queue == e.queue else d.summary == e.summary
  }

  lemma StepInItsPlace(e: Engine, cfg: Config, now: Now, key: Key, condition: bool, sustain: int, f: Faults)
    ensures InItsPlace(cfg, now, e, Step(e, cfg, now, key, condition, sustain, f))
  {
    var e0 := Mark1(e, Evaluated(key, condition, now.ms));
    hide Deliver, InQuietWindow, Raise;
    if condition {
      var row := if key in e.rows then e.rows[key] else Row(false, now.ms, None);
      RaiseInItsPlace(e0, cfg, now, key, row, sustain, f);
    } else {
      DeliverInItsPlace(e0, cfg, now, key, true, f);
    }
  }

  lemma RaiseInItsPlace(e: Engine, cfg: Config, now: Now, key: Key, row: Row, sustain: int, f: Faults)
    ensures InItsPlace(cfg, now, e, Raise(e, cfg, now, key, row, sustain, f).0)
  {
    var e1 := Mark1(e, Attempt(key, now.ms, sustain));
    var e2 := Mark1(e1.(lastRaised := e1.lastRaised[key := now.ms]), Raised(key, now.ms));
    hide Deliver, InQuietWindow, Suppressed;
    DeliverInItsPlace(e2, cfg, now, key, false, f);
  }

  lemma DeliverInItsPlace(e: Engine, cfg: Config, now: Now, key: Key, recovery: bool, f: Faults)
    ensures InItsPlace(cfg, now, e, Deliver(e, cfg, now, key, recovery, f).0)
  {
    hide Recent, InQuietWindow;
  }

  lemma {:induction false} EvalsInTheirPlace(e: Engine, cfg: Config, now: Now, cs: seq<Check>, f: nat -> Faults)
    ensures InItsPlace(cfg, now, e, EvalAll(e, cfg, now, cs, f))
  {
    if cs != [] {
      hide Step, InQuietWindow, SustainOf;
      var n := |cs| - 1;
      EvalsInTheirPlace(e, cfg, now, cs[..n], f);
      var d := EvalAll(e, cfg, now, cs[..n], f);
      StepInItsPlace(d, cfg, now, cs[n].key, cs[n].condition, SustainOf(cfg, cs[n].key), f(n));
    }
  }

  lemma {:induction false} SweepsLeaveNotes(e: Engine, rules: Rules, src: Sources, listed: seq<Key>, f: nat -> Faults)
    ensures var d := SweepAll(e, rules, src, listed, f); d.queue == e.queue && d.summary == e.summary
  {
    if listed != [] {
      hide Orphaned;
      SweepsLeaveNotes(e, rules, src, listed[..|listed| - 1], f);
    }
  }

  lemma {:induction false} ToldStays(queue: seq<Note>, longer: seq<Note>, x: Entry)
    requires queue <= longer && Told(queue, x)
    ensures Told(longer, x)
  {
    var i :| 0 <= i < |queue| && queue[i].Digest? && Covers(queue[i].lines, x);
    assert longer[i] == queue[i];
  }

  /** A tick in quiet hours queues nothing. One after them leaves nothing in the summary, with everything that
      was in it told, as long as the flush's statements work; evaluation may be switched off. */
  lemma TickKeepsHours(e: Engine, cfg: Config, rules: Rules, now: Now, src: Sources, listed: Option<seq<Key>>,
                       luck: Luck)
    ensures var d := Tick(e, cfg, rules, now, src, listed, luck); var f := luck.flush;
            if InQuietWindow(now.minute, cfg.quiet) then d.queue == e.queue
            else f.loadOk && f.enqueueOk && f.deleteOk ==>
                   d.summary == [] && forall i | 0 <= i < |e.summary| :: Told(d.queue, e.summary[i])
  {
    var d := Tick(e, cfg, rules, now, src, listed, luck);
    var e1 := if InQuietWindow(now.minute, cfg.quiet) then e else FlushSummary(e, cfg, luck.flush);
    FlushTells(cfg, e, luck.flush);
    var cs := Checks(now, rules, src).0;
    EvalsInTheirPlace(e1, cfg, now, cs, luck.eval);
    if listed.Some? {
      SweepsLeaveNotes(EvalAll(e1, cfg, now, cs, luck.eval), rules, src, listed.value, luck.sweep);
    }
    assert InItsPlace(cfg, now, e1, d);
    hide Checks, EvalAll, SweepAll, Tick, Told, SortLines, DigestOf, InQuietWindow;
    forall i | 0 <= i < |e.summary| && Told(e1.queue, e.summary[i])
      ensures Told(d.queue, e.summary[i])
    {
      ToldStays(e1.queue, d.queue, e.summary[i]);
    }
  }
}
