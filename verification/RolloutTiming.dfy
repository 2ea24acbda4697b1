/** When an update that has started to apply is given up: the times a heartbeat compares, over whole runs. */
module RolloutTiming {
  import opened Wrappers
  import opened Rollout

  // When an event happens, as far as a row can be stamped with it.
  function TimeOf(s: State, e: Event): int {
    match e
    case Command(_, _, at) => at
    case Report(_, _, at) => at
    case Write(h, _) => if h in s.handlers then s.handlers[h].now else 0
    case WriteFailure(h, _) => if h in s.handlers then s.handlers[h].now else 0
    case Issue(_, at) => at
    case Look(at, _, _) => at
    case _ => 0
  }

  function RowOf(s: State, p: ProbeId): Option<Row> {
    if p in s.rows then Some(s.rows[p]) else None
  }

  // When the last event that changed p's row happened.
  function LastChange(es: seq<Event>, p: ProbeId): int {
    if es == [] then 0
    else
      var s, e := Run(es[..|es| - 1]), es[|es| - 1];
      if RowOf(Apply(s, e), p) != RowOf(s, p) then TimeOf(s, e) else LastChange(es[..|es| - 1], p)
  }

  predicate Serves(s: State, e: Event, h: nat) {
    e.Read? && e.handler == h && h !in s.handlers && e.probe in s.rows
  }

  // When the row that handler h last read had last been changed.
  function ReadChange(es: seq<Event>, h: nat): int {
    if es == [] then 0
    else
      var s, e := Run(es[..|es| - 1]), es[|es| - 1];
      if Serves(s, e, h) then LastChange(es[..|es| - 1], e.probe) else ReadChange(es[..|es| - 1], h)
  }

  lemma ChangesAreStamped(s: State, e: Event, p: ProbeId)
    ensures p in Apply(s, e).rows && RowOf(Apply(s, e), p) != RowOf(s, p) ==>
              Apply(s, e).rows[p].updatedAt == TimeOf(s, e)
  {
  }

  /** A row's stamp is the time of the last change to it, whoever made it. */
  lemma {:induction false} StampIsLastChange(es: seq<Event>, p: ProbeId)
    requires p in Run(es).rows
    ensures Run(es).rows[p].updatedAt == LastChange(es, p)
  {
    if es != [] {
      var s, e := Run(es[..|es| - 1]), es[|es| - 1];
      assert Run(es) == Apply(s, e);
      hide Apply, Run;
      ChangesAreStamped(s, e, p);
      if RowOf(Apply(s, e), p) == RowOf(s, p) {
        StampIsLastChange(es[..|es| - 1], p);
      }
    }
  }

  lemma HandlersStay(s: State, e: Event, h: nat)
    requires h in Apply(s, e).handlers
    ensures var k := Apply(s, e).handlers[h];
            if Serves(s, e, h) then k == Handler(e.probe, e.reported, e.now, s.rows[e.probe], false)
            else h in s.handlers && k.(exhausted := false) == s.handlers[h].(exhausted := false)
  {
  }

  lemma {:induction false} SeenStamp(es: seq<Event>, h: nat)
    requires h in Run(es).handlers
    ensures Run(es).handlers[h].seen.updatedAt == ReadChange(es, h)
  {
    if es != [] {
      var s, e := Run(es[..|es| - 1]), es[|es| - 1];
      assert Run(es) == Apply(s, e);
      hide Apply, Run;
      HandlersStay(s, e, h);
      if Serves(s, e, h) {
        StampIsLastChange(es[..|es| - 1], e.probe);
      } else {
        SeenStamp(es[..|es| - 1], h);
      }
    }
  }

  // The heartbeat h is serving found an update being applied, and is not on its version.
  predicate FoundApplying(s: State, h: nat) {
    && h in s.handlers && !s.handlers[h].exhausted
    && s.handlers[h].seen.phase.Applying? && s.handlers[h].reported != s.handlers[h].seen.offer.target
  }

  /** Over any run: a heartbeat that finds an update applying and is not on its version gives the update up
      if and only if more than five minutes have passed since the row it read was last changed. Otherwise
      its reply carries that row's command again and the table is as it was. */
  lemma GivesUpIff(es: seq<Event>, h: nat)
    requires FoundApplying(Run(es), h)
    ensures var s := Run(es); var k := s.handlers[h]; var t := Apply(s, Write(h, true));
            var reply := Act(s.rows, k.probe, k.seen, k.reported, k.now, true).reply;
            if k.now > ReadChange(es, h) + 300_000 then
              reply == None && (k.probe in s.rows ==> t.rows[k.probe].phase.GivenUp?)
            else
              reply == Some(k.seen.offer) && t.rows == s.rows
  {
    SeenStamp(es, h);
    hide Run;
  }

  /** So once a heartbeat has found the row overdue, any later one that found it as old does. */
  lemma OverdueStaysOverdue(es: seq<Event>, h: nat, fs: seq<Event>, g: nat)
    requires FoundApplying(Run(es), h) && FoundApplying(Run(fs), g)
    requires Run(es).handlers[h].probe in Run(es).rows && Run(fs).handlers[g].probe in Run(fs).rows
    requires ReadChange(fs, g) <= ReadChange(es, h) && Run(es).handlers[h].now <= Run(fs).handlers[g].now
    requires !Run(es).rows[Run(es).handlers[h].probe].phase.GivenUp?
    requires Apply(Run(es), Write(h, true)).rows[Run(es).handlers[h].probe].phase.GivenUp?
    ensures Apply(Run(fs), Write(g, true)).rows[Run(fs).handlers[g].probe].phase.GivenUp?
  {
    GivesUpIff(es, h);
    GivesUpIff(fs, g);
  }

  /** A row that is applied, or given up with the probe still off its version, answers nothing and stays. */
  lemma SettledIsSilent(es: seq<Event>, h: nat, p: ProbeId, reported: string, now: int)
    requires var s := Run(es);
             && h !in s.handlers && p in s.rows
             && (s.rows[p].phase.Applied? || (s.rows[p].phase.GivenUp? && reported != s.rows[p].offer.target))
    ensures var s := Run(es);
            && Apply(Apply(s, Read(h, p, reported, now)), Write(h, true)).rows == s.rows
            && Act(s.rows, p, s.rows[p], reported, now, true).reply == None
  {
    hide Run;
  }

  /** A whole heartbeat with nothing in between: an update is given up exactly when its row has not been
      changed for more than five minutes, and in time the command is offered again. */
  lemma HeartbeatGivesUpIff(es: seq<Event>, h: nat, p: ProbeId, reported: string, now: int)
    requires var s := Run(es);
             h !in s.handlers && p in s.rows && s.rows[p].phase.Applying? && reported != s.rows[p].offer.target
    ensures var s := Run(es); var t := Apply(Apply(s, Read(h, p, reported, now)), Write(h, true));
            var reply := Act(s.rows, p, s.rows[p], reported, now, true).reply;
            && (t.rows[p].phase.GivenUp? <==> now > LastChange(es, p) + 300_000)
            && (!t.rows[p].phase.GivenUp? ==> t.rows == s.rows && reply == Some(s.rows[p].offer))
  {
    StampIsLastChange(es, p);
    hide Run;
  }

  // ---- the rollout's own wait ----

  predicate Issues(s: State, e: Event) {
    e.Issue? && e.cmd.Some? && s.line.running && !s.line.waiting && |s.line.done| < |s.line.candidates|
  }

  // When the rollout last commanded a candidate.
  function LastIssue(es: seq<Event>): int {
    if es == [] then 0
    else
      var s, e := Run(es[..|es| - 1]), es[|es| - 1];
      if Issues(s, e) then e.at else LastIssue(es[..|es| - 1])
  }

  lemma StepDeadline(s: State, e: Event)
    ensures var t := Apply(s, e);
            t.line.waiting ==> if Issues(s, e) then t.line.deadline == e.at + 480_000
                               else s.line.waiting && t.line.deadline == s.line.deadline
  {
  }

  /** Over any run: a rollout waiting on a candidate has waited since it commanded it, for up to eight minutes. */
  lemma {:induction false} DeadlineIsEightMinutes(es: seq<Event>)
    requires Run(es).line.waiting
    ensures Run(es).line.deadline == LastIssue(es) + 480_000
  {
    if es != [] {
      var s, e := Run(es[..|es| - 1]), es[|es| - 1];
      assert Run(es) == Apply(s, e);
      StepDeadline(s, e);
      hide Apply, Run;
      if !Issues(s, e) {
        DeadlineIsEightMinutes(es[..|es| - 1]);
      }
    }
  }

  /** So a poll gives up on a candidate exactly when its row has failed, or is still undecided more than eight
      minutes after the command. */
  lemma PollGivesUpIff(es: seq<Event>, at: int, writeOk: bool)
    requires var s := Run(es); s.line.running && s.line.waiting && |s.line.done| < |s.line.candidates|
    requires var s := Run(es); s.line.failed.None? && s.line.candidates[|s.line.done|] in s.rows
    ensures var s := Run(es); var p := s.line.candidates[|s.line.done|]; var t := Apply(s, Look(at, true, writeOk));
            t.line.failed == Some(p) <==>
              s.rows[p].phase.GivenUp? || (!s.rows[p].phase.Applied? && at > LastIssue(es) + 480_000)
  {
    hide Run, LastIssue;
    DeadlineIsEightMinutes(es);
    PollFails(Run(es), at, writeOk);
  }

  lemma PollFails(s: State, at: int, writeOk: bool)
    requires s.line.running && s.line.waiting && |s.line.done| < |s.line.candidates|
    requires s.line.failed.None? && s.line.candidates[|s.line.done|] in s.rows
    ensures var p := s.line.candidates[|s.line.done|];
            Apply(s, Look(at, true, writeOk)).line.failed == Some(p) <==>
              s.rows[p].phase.GivenUp? || (!s.rows[p].phase.Applied? && at > s.line.deadline)
  {
  }
}
