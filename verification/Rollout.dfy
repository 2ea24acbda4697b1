/** Central-driven probe updates (internal/server/probeupdate.go over internal/storage/probeupdates.go):
    one row per probe, heartbeat handlers that read it and later write it, status reports, operator
    commands, and the stop-the-line rollout, all interleaved. */
module Rollout {
  import opened Wrappers

  const APPLY_TIMEOUT := 5 * 60 * 1000
  const MAX_DELIVERIES := 2
  const WAIT_LIMIT := 3 * 60 * 1000 + APPLY_TIMEOUT

  type ProbeId = string

  datatype Phase = Pending | Applying | Applied | GivenUp

  // A command as it rides a heartbeat reply.
  datatype Offer = Offer(target: string, sha: string, arch: string)

  datatype Row = Row(
    offer: Offer,
    phase: Phase,
    error: string,
    deliveries: nat,
    requestedAt: int,
    updatedAt: int,
    serial: nat)        // history: which command wrote this row

  type Rows = map<ProbeId, Row>

  // ---- the table ----

  function NewRow(offer: Offer, at: int, serial: nat): Row {
    Row(offer, Pending, "", 0, at, at, serial)
  }

  function SetPhase(rows: Rows, p: ProbeId, phase: Phase, error: string, at: int): Rows {
    if p in rows then rows[p := rows[p].(phase := phase, error := error, updatedAt := at)] else rows
  }

  function CountDelivery(rows: Rows, p: ProbeId, at: int): Rows {
    if p in rows then rows[p := rows[p].(deliveries := rows[p].deliveries + 1, updatedAt := at)] else rows
  }

  // ---- the heartbeat path ----

  datatype Decision = Ignore | MarkApplied | TimeOut | Repeat | Count

  // What a heartbeat does about the row it read.
  function Decide(row: Row, reported: string, now: int): Decision {
    if row.phase.Applied? then Ignore
    else if reported == row.offer.target then MarkApplied
    else
      match row.phase
      case Applying => if now - row.updatedAt > APPLY_TIMEOUT then TimeOut else Repeat
      case Pending => Count
      case _ => Ignore
  }

  // exhausted: delivered too often, the row is still to be failed.
  datatype Acted = Acted(rows: Rows, reply: Option<Offer>, exhausted: bool)

  // The handler's first write, made on whatever the table holds by then.
  function Act(rows: Rows, p: ProbeId, seen: Row, reported: string, now: int, works: bool): Acted {
    match Decide(seen, reported, now)
    case Ignore => Acted(rows, None, false)
    case MarkApplied => Acted(if works then SetPhase(rows, p, Applied, "", now) else rows, None, false)
    case TimeOut => Acted(if works then SetPhase(rows, p, GivenUp, "timeout", now) else rows, None, false)
    case Repeat => Acted(rows, Some(seen.offer), false)
    case Count =>
      if !works || p !in rows then Acted(rows, None, false)
      else
        var counted := CountDelivery(rows, p, now);
        if counted[p].deliveries > MAX_DELIVERIES then Acted(counted, None, true)
        else Acted(counted, Some(seen.offer), false)
  }

  // ---- the rollout ----

  datatype Line = Line(
    running: bool,
    candidates: seq<ProbeId>,
    done: seq<ProbeId>,
    waiting: bool,          // the current candidate has been commanded
    deadline: int,
    failed: Option<ProbeId>)

  datatype Verdict = Wait | Succeeded | Stopped | Expired

  // One poll: None is a failed read, Some(None) a missing row.
  function Poll(read: Option<Option<Phase>>, at: int, deadline: int): Verdict {
    match read
    case Some(Some(Applied)) => Succeeded
    case Some(Some(GivenUp)) => Stopped
    case Some(Some(_)) => if at > deadline then Expired else Wait
    case _ => Wait
  }

  // ---- everything together ----

  datatype Mark =
    | Started(candidates: seq<ProbeId>)
    | Commanded(probe: ProbeId, target: string, byRollout: bool)
    | Beat(probe: ProbeId, version: string, handler: nat)
    | Rode(probe: ProbeId, serial: nat)                             // a reply carried that pending command

  datatype History = Begin | Then(past: History, mark: Mark)

  datatype Handler = Handler(probe: ProbeId, reported: string, now: int, seen: Row, exhausted: bool)

  datatype State = State(rows: Rows, handlers: map<nat, Handler>, line: Line, serial: nat, log: History)

  const IDLE := State(map[], map[], Line(false, [], [], false, 0, None), 0, Begin)

  datatype Event =
    | Command(probe: ProbeId, offer: Offer, at: int)                // an operator
    | Clear(probe: ProbeId)                                         // cancelled, or the probe forgotten
    | Report(probe: ProbeId, applying: bool, at: int)               // the probe's own status
    | Read(handler: nat, probe: ProbeId, reported: string, now: int)
    | Write(handler: nat, works: bool)
    | WriteFailure(handler: nat, works: bool)
    | Start(candidates: seq<ProbeId>)
    | Issue(cmd: Option<Offer>, at: int)                            // None: the command could not be issued
    | Look(at: int, readOk: bool, writeOk: bool)

  predicate Distinct(ps: seq<ProbeId>) {
    forall i, j | 0 <= i < j < |ps| :: ps[i] != ps[j]
  }

  function CommandRow(s: State, p: ProbeId, offer: Offer, at: int, byRollout: bool): State {
    s.(rows := s.rows[p := NewRow(offer, at, s.serial + 1)], serial := s.serial + 1,
       log := Then(s.log, Commanded(p, offer.target, byRollout)))
  }

  function ApplyWrite(s: State, h: nat, works: bool): State
    requires h in s.handlers && !s.handlers[h].exhausted
  {
    var k := s.handlers[h];
    var a := Act(s.rows, k.probe, k.seen, k.reported, k.now, works);
    s.(rows := a.rows,
       handlers := if a.exhausted then s.handlers[h := k.(exhausted := true)] else s.handlers - {h},
       log := if a.reply.Some? && Decide(k.seen, k.reported, k.now).Count?
              then Then(s.log, Rode(k.probe, k.seen.serial)) else s.log)
  }

  function ApplyLook(s: State, at: int, readOk: bool, writeOk: bool): State
    requires s.line.running && s.line.waiting && |s.line.done| < |s.line.candidates|
  {
    var p := s.line.candidates[|s.line.done|];
    var read := if !readOk then None else Some(if p in s.rows then Some(s.rows[p].phase) else None);
    match Poll(read, at, s.line.deadline)
    case Wait => s
    case Succeeded =>
      s.(line := s.line.(done := s.line.done + [p], waiting := false,
                         running := |s.line.done| + 1 < |s.line.candidates|))
    case Stopped => s.(line := s.line.(failed := Some(p), waiting := false, running := false))
    case Expired =>
      s.(rows := if writeOk then SetPhase(s.rows, p, GivenUp, "rollout gave up", at) else s.rows,
         line := s.line.(failed := Some(p), waiting := false, running := false))
  }

  function Apply(s: State, e: Event): State {
    match e
    case Command(p, offer, at) => CommandRow(s, p, offer, at, false)
    case Clear(p) => s.(rows := s.rows - {p})
    case Report(p, applying, at) =>
      s.(rows := if applying then SetPhase(s.rows, p, Applying, "", at)
                 else SetPhase(s.rows, p, GivenUp, "reported", at))
    case Read(h, p, reported, now) =>
      if h in s.handlers || p !in s.rows then s
      else
        s.(handlers := s.handlers[h := Handler(p, reported, now, s.rows[p], false)],
           log := Then(s.log, Beat(p, reported, h)))
    case Write(h, works) => if h in s.handlers && !s.handlers[h].exhausted then ApplyWrite(s, h, works) else s
    case WriteFailure(h, works) =>
      if h !in s.handlers || !s.handlers[h].exhausted then s
      else
        var k := s.handlers[h];
        s.(rows := if works then SetPhase(s.rows, k.probe, GivenUp, "never acknowledged", k.now) else s.rows,
           handlers := s.handlers - {h})
    case Start(cs) =>
      // Probe ids are a table's primary key, so no candidate is listed twice.
      if s.line.running || cs == [] || !Distinct(cs) then s
      else s.(line := Line(true, cs, [], false, 0, None), log := Then(s.log, Started(cs)))
    case Issue(cmd, at) =>
      if !s.line.running || s.line.waiting || |s.line.done| >= |s.line.candidates| then s
      else
        var p := s.line.candidates[|s.line.done|];
        if cmd.None? then s.(line := s.line.(failed := Some(p), running := false))
        else CommandRow(s, p, cmd.value, at, true).(line := s.line.(waiting := true, deadline := at + WAIT_LIMIT))
    case Look(at, readOk, writeOk) =>
      if s.line.running && s.line.waiting && |s.line.done| < |s.line.candidates| then ApplyLook(s, at, readOk, writeOk)
      else s
  }

  function Run(es: seq<Event>): State {
    if es == [] then IDLE else Apply(Run(es[..|es| - 1]), es[|es| - 1])
  }

  // ---- what the history says ----

  // The version the probe was last commanded to.
  function LastTarget(log: History, p: ProbeId): Option<string> {
    match log
    case Begin => None
    case Then(past, Commanded(q, target, _)) => if q == p then Some(target) else LastTarget(past, p)
    case Then(past, _) => LastTarget(past, p)
  }

  // The probe has heartbeated on the version it was last commanded to, since that command.
  predicate Confirmed(log: History, p: ProbeId) {
    match log
    case Begin => false
    case Then(past, Commanded(q, _, _)) => q != p && Confirmed(past, p)
    case Then(past, Beat(q, version, _)) => (q == p && LastTarget(past, p) == Some(version)) || Confirmed(past, p)
    case Then(past, _) => Confirmed(past, p)
  }

  // The heartbeat that handler h is serving came after the last command to p.
  predicate BeatSince(log: History, p: ProbeId, h: nat) {
    match log
    case Begin => false
    case Then(past, Commanded(q, _, _)) => q != p && BeatSince(past, p, h)
    case Then(past, Beat(q, _, g)) => (g == h && q == p) || BeatSince(past, p, h)
    case Then(past, _) => BeatSince(past, p, h)
  }

  // At some time since the rollout commanded p, p stood confirmed.
  predicate ConfirmedForRollout(log: History, p: ProbeId) {
    match log
    case Begin => false
    case Then(past, mark) =>
      Confirmed(log, p) || (!(mark.Commanded? && mark.byRollout && mark.probe == p) && ConfirmedForRollout(past, p))
  }

  // The probes commanded by the rollout since it started.
  function Issued(log: History): seq<ProbeId> {
    match log
    case Begin => []
    case Then(_, Started(_)) => []
    case Then(past, Commanded(p, _, byRollout)) => if byRollout then Issued(past) + [p] else Issued(past)
    case Then(past, _) => Issued(past)
  }

  // Replies that carried p's command number n while it was pending.
  function Rides(log: History, p: ProbeId, n: nat): nat {
    match log
    case Begin => 0
    case Then(past, Rode(q, m)) => Rides(past, p, n) + if q == p && m == n then 1 else 0
    case Then(past, _) => Rides(past, p, n)
  }

  // Replies to p since its last command that carried a pending command, that one or an older one.
  function Replies(log: History, p: ProbeId): nat {
    match log
    case Begin => 0
    case Then(past, Commanded(q, _, _)) => if q == p then 0 else Replies(past, p)
    case Then(past, Rode(q, _)) => Replies(past, p) + if q == p then 1 else 0
    case Then(past, _) => Replies(past, p)
  }

  // Those of them that carried another command than number n.
  function Strays(log: History, p: ProbeId, n: nat): nat {
    match log
    case Begin => 0
    case Then(past, Commanded(q, _, _)) => if q == p then 0 else Strays(past, p, n)
    case Then(past, Rode(q, m)) => Strays(past, p, n) + if q == p && m != n then 1 else 0
    case Then(past, _) => Strays(past, p, n)
  }

  // ---- how often a command rides ----

  // A row's count is of the replies since its command, whichever command they carried.
  predicate RowCounts(s: State, p: ProbeId) {
    && Replies(s.log, p) <= MAX_DELIVERIES
    && (p in s.rows ==>
          var row := s.rows[p];
          && row.serial <= s.serial
          && Replies(s.log, p) == (if row.deliveries < MAX_DELIVERIES then row.deliveries else MAX_DELIVERIES)
          && Rides(s.log, p, row.serial) + Strays(s.log, p, row.serial) == Replies(s.log, p))
  }

  predicate SeenBefore(s: State, k: Handler) {
    k.seen.serial <= s.serial && (k.probe in s.rows ==> k.seen.serial <= s.rows[k.probe].serial)
  }

  ghost predicate CountsInv(s: State) {
    && (forall p, n :: n > s.serial ==> Rides(s.log, p, n) == 0)
    && (forall p :: RowCounts(s, p))
    && (forall h | h in s.handlers :: SeenBefore(s, s.handlers[h]))
  }

  lemma StepCounts(s: State, e: Event)
    requires CountsInv(s)
    ensures CountsInv(Apply(s, e))
  {
    hide ApplyWrite, ApplyLook, CommandRow;
    match e
    case Write(h, works) =>
      if h in s.handlers && !s.handlers[h].exhausted {
        WriteKeepsCounts(s, h, works);
      }
    case Look(at, readOk, writeOk) =>
      if s.line.running && s.line.waiting && |s.line.done| < |s.line.candidates| {
        LookKeepsCounts(s, at, readOk, writeOk);
      }
    case Command(p, offer, at) => CommandKeepsCounts(s, p, offer, at, false);
    case Issue(cmd, at) =>
      if s.line.running && !s.line.waiting && |s.line.done| < |s.line.candidates| && cmd.Some? {
        CommandKeepsCounts(s, s.line.candidates[|s.line.done|], cmd.value, at, true);
        var t := CommandRow(s, s.line.candidates[|s.line.done|], cmd.value, at, true);
        SameCounts(t, Apply(s, e));
      } else {
        SameCounts(s, Apply(s, e));
      }
    case Read(h, p, reported, now) => ReadKeepsCounts(s, h, p, reported, now);
    case Report(_, _, _) => SameCounts(s, Apply(s, e));
    case Start(cs) => SameCounts(s, Apply(s, e));
    case WriteFailure(_, _) => SameCounts(s, Apply(s, e));
    case Clear(_) => SameCounts(s, Apply(s, e));
  }

  // Nothing these facts speak of has changed, unless a row is gone.
  lemma SameCounts(s: State, t: State)
    requires CountsInv(s) && t.serial == s.serial
    requires forall p, n :: Rides(t.log, p, n) == Rides(s.log, p, n) && Strays(t.log, p, n) == Strays(s.log, p, n)
    requires forall p :: Replies(t.log, p) == Replies(s.log, p)
    requires forall p | p in t.rows :: p in s.rows && t.rows[p].serial == s.rows[p].serial
                                       && t.rows[p].deliveries == s.rows[p].deliveries
    requires forall h | h in t.handlers :: h in s.handlers && t.handlers[h] == s.handlers[h]
    ensures CountsInv(t)
  {
    forall p
      ensures RowCounts(t, p)
    {
      assert RowCounts(s, p);
    }
    forall h | h in t.handlers
      ensures SeenBefore(t, t.handlers[h])
    {
      assert SeenBefore(s, s.handlers[h]);
    }
  }

  lemma CommandKeepsCounts(s: State, p: ProbeId, offer: Offer, at: int, byRollout: bool)
    requires CountsInv(s)
    ensures CountsInv(CommandRow(s, p, offer, at, byRollout))
  {
    var t := CommandRow(s, p, offer, at, byRollout);
    forall q
      ensures RowCounts(t, q)
    {
      assert RowCounts(s, q);
    }
    forall h | h in t.handlers
      ensures SeenBefore(t, t.handlers[h])
    {
      assert SeenBefore(s, s.handlers[h]);
    }
  }

  lemma ReadKeepsCounts(s: State, h: nat, p: ProbeId, reported: string, now: int)
    requires CountsInv(s)
    ensures CountsInv(Apply(s, Read(h, p, reported, now)))
  {
    var t := Apply(s, Read(h, p, reported, now));
    forall q
      ensures RowCounts(t, q)
    {
      assert RowCounts(s, q);
    }
    forall g | g in t.handlers
      ensures SeenBefore(t, t.handlers[g])
    {
      assert g in s.handlers ==> SeenBefore(s, s.handlers[g]);
      assert RowCounts(s, p);
    }
  }

  lemma WriteKeepsCounts(s: State, h: nat, works: bool)
    requires CountsInv(s) && h in s.handlers && !s.handlers[h].exhausted
    ensures CountsInv(ApplyWrite(s, h, works))
  {
    var t := ApplyWrite(s, h, works);
    WriteKeepsSeen(s, h, works);
    assert forall p, n | n > s.serial :: Rides(t.log, p, n) == 0 by {
      assert SeenBefore(s, s.handlers[h]);
    }
    hide ApplyWrite, RowCounts, SeenBefore;
    forall q
      ensures RowCounts(t, q)
    {
      WriteKeepsRow(s, h, works, q);
    }
  }

  lemma WriteKeepsRow(s: State, h: nat, works: bool, q: ProbeId)
    requires h in s.handlers && !s.handlers[h].exhausted && SeenBefore(s, s.handlers[h]) && RowCounts(s, q)
    ensures RowCounts(ApplyWrite(s, h, works), q)
  {
  }

  lemma WriteKeepsSeen(s: State, h: nat, works: bool)
    requires h in s.handlers && !s.handlers[h].exhausted
    requires forall g | g in s.handlers :: SeenBefore(s, s.handlers[g])
    ensures var t := ApplyWrite(s, h, works);
            t.serial == s.serial && forall g | g in t.handlers :: SeenBefore(t, t.handlers[g])
  {
    hide Decide;
    var t := ApplyWrite(s, h, works);
    forall g | g in t.handlers
      ensures SeenBefore(t, t.handlers[g])
    {
      assert SeenBefore(s, s.handlers[g]);
    }
  }

  lemma LookKeepsCounts(s: State, at: int, readOk: bool, writeOk: bool)
    requires CountsInv(s) && s.line.running && s.line.waiting && |s.line.done| < |s.line.candidates|
    ensures CountsInv(ApplyLook(s, at, readOk, writeOk))
  {
    SameCounts(s, ApplyLook(s, at, readOk, writeOk));
  }

  lemma {:induction false} CountsAlways(es: seq<Event>)
    ensures CountsInv(Run(es))
  {
    if es != [] {
      hide CountsInv, Apply;
      CountsAlways(es[..|es| - 1]);
      StepCounts(Run(es[..|es| - 1]), es[|es| - 1]);
    }
  }

  /** However heartbeats, reports and commands interleave, no more than two replies between one command
      and the next carry a pending command. */
  lemma TwoRepliesPerCommand(es: seq<Event>, p: ProbeId)
    ensures Replies(Run(es).log, p) <= MAX_DELIVERIES
  {
    CountsAlways(es);
    assert RowCounts(Run(es), p);
  }

  // A reply about to carry command n to p that is charged to a newer command with a reply to spare.
  predicate ChargedToNewer(s: State, e: Event, p: ProbeId, n: nat) {
    && e.Write? && e.works && e.handler in s.handlers
    && var k := s.handlers[e.handler];
       && !k.exhausted && k.probe == p && k.seen.serial == n && Decide(k.seen, k.reported, k.now).Count?
       && p in s.rows && s.rows[p].serial > n && s.rows[p].deliveries < MAX_DELIVERIES
  }

  /** Exactly which steps take a command past two replies: those that charge the reply to a newer one,
      once the command has ridden twice. */
  lemma PastTwoIff(s: State, e: Event, p: ProbeId, n: nat)
    requires CountsInv(s) && Rides(s.log, p, n) <= MAX_DELIVERIES
    ensures Rides(Apply(s, e).log, p, n) > MAX_DELIVERIES <==>
            Rides(s.log, p, n) == MAX_DELIVERIES && ChargedToNewer(s, e, p, n)
  {
    assert RowCounts(s, p);
    if e.Write? && e.handler in s.handlers && !s.handlers[e.handler].exhausted {
      assert SeenBefore(s, s.handlers[e.handler]);
    }
  }

  ghost predicate TwiceAtMost(log: History) {
    forall p, n :: Rides(log, p, n) <= MAX_DELIVERIES
  }

  // No step charges the reply of a command that has ridden twice to a newer one.
  ghost predicate ChargedRight(es: seq<Event>) {
    es == [] || (ChargedRight(es[..|es| - 1]) &&
                 var s := Run(es[..|es| - 1]);
                 !exists p, n :: Rides(s.log, p, n) == MAX_DELIVERIES && ChargedToNewer(s, es[|es| - 1], p, n))
  }

  /** Every command rides at most two replies exactly in the runs without such a step. */
  lemma {:induction false} CommandRidesTwiceIff(es: seq<Event>)
    ensures TwiceAtMost(Run(es).log) <==> ChargedRight(es)
  {
    if es != [] {
      var s, e := Run(es[..|es| - 1]), es[|es| - 1];
      assert Run(es) == Apply(s, e);
      hide CountsInv, Run, Apply, ChargedToNewer;
      CommandRidesTwiceIff(es[..|es| - 1]);
      CountsAlways(es[..|es| - 1]);
      forall p, n
        ensures Rides(s.log, p, n) <= Rides(Apply(s, e).log, p, n)
      {
        RidesStay(s, e, p, n);
      }
      if TwiceAtMost(s.log) {
        forall p, n
          ensures Rides(Apply(s, e).log, p, n) > MAX_DELIVERIES <==>
                  Rides(s.log, p, n) == MAX_DELIVERIES && ChargedToNewer(s, e, p, n)
        {
          PastTwoIff(s, e, p, n);
        }
      }
    }
  }

  lemma RidesStay(s: State, e: Event, p: ProbeId, n: nat)
    ensures Rides(s.log, p, n) <= Rides(Apply(s, e).log, p, n)
  {
  }

  // ---- the same steps one at a time, for runs given in full ----

  lemma CommandStep(s: State, p: ProbeId, v: Offer, at: int, t: State)
    requires t == Apply(s, Command(p, v, at))
    ensures t.rows == s.rows[p := NewRow(v, at, s.serial + 1)] && t.handlers == s.handlers && t.serial == s.serial + 1
    ensures forall n :: Rides(t.log, p, n) == Rides(s.log, p, n)
  {
  }

  lemma ReadStep(s: State, h: nat, p: ProbeId, reported: string, now: int, t: State)
    requires t == Apply(s, Read(h, p, reported, now)) && h !in s.handlers && p in s.rows
    ensures t.rows == s.rows && t.handlers == s.handlers[h := Handler(p, reported, now, s.rows[p], false)]
    ensures t.serial == s.serial && forall n :: Rides(t.log, p, n) == Rides(s.log, p, n)
  {
  }

  lemma RideStep(s: State, h: nat, p: ProbeId, t: State)
    requires t == Apply(s, Write(h, true)) && h in s.handlers && !s.handlers[h].exhausted && s.handlers[h].probe == p
    requires Decide(s.handlers[h].seen, s.handlers[h].reported, s.handlers[h].now).Count?
    requires p in s.rows && s.rows[p].deliveries < MAX_DELIVERIES
    ensures t.rows == CountDelivery(s.rows, p, s.handlers[h].now) && t.handlers == s.handlers - {h}
    ensures t.serial == s.serial
    ensures forall n :: Rides(t.log, p, n) == Rides(s.log, p, n) + if n == s.handlers[h].seen.serial then 1 else 0
  {
  }

  lemma Snoc(es: seq<Event>, e: Event)
    ensures Run(es + [e]) == Apply(Run(es), e)
  {
    assert (es + [e])[..|es|] == es;
  }

  /** Three heartbeats read a command before a newer one replaces it: the third reply is charged to the
      newer one, and the old command rides three times. */
  lemma ReplacedRidesThrice(p: ProbeId, old1: string, v1: Offer, v2: Offer)
    requires old1 != v1.target
    ensures var es := [Command(p, v1, 0), Read(0, p, old1, 1), Read(1, p, old1, 1), Read(2, p, old1, 1),
                       Write(0, true), Write(1, true), Command(p, v2, 2), Write(2, true)];
            Rides(Run(es).log, p, 1) == 3
  {
    hide Apply, Run, Decide, Rides;
    var es := [Command(p, v1, 0), Read(0, p, old1, 1), Read(1, p, old1, 1), Read(2, p, old1, 1),
               Write(0, true), Write(1, true)];
    RidesTwice(p, old1, v1);
    var s := Run(es);
    var t := Apply(s, Command(p, v2, 2));
    CommandStep(s, p, v2, 2, t);
    RideStep(t, 2, p, Apply(t, Write(2, true)));
    Snoc(es, Command(p, v2, 2));
    Snoc(es + [Command(p, v2, 2)], Write(2, true));
    assert es + [Command(p, v2, 2)] + [Write(2, true)]
        == [Command(p, v1, 0), Read(0, p, old1, 1), Read(1, p, old1, 1), Read(2, p, old1, 1),
            Write(0, true), Write(1, true), Command(p, v2, 2), Write(2, true)];
  }

  lemma RidesTwice(p: ProbeId, old1: string, v1: Offer)
    requires old1 != v1.target
    ensures var s := Run([Command(p, v1, 0), Read(0, p, old1, 1), Read(1, p, old1, 1), Read(2, p, old1, 1),
                          Write(0, true), Write(1, true)]);
            && p in s.rows && 2 in s.handlers && s.handlers[2] == Handler(p, old1, 1, NewRow(v1, 0, 1), false)
            && Decide(NewRow(v1, 0, 1), old1, 1).Count? && Rides(s.log, p, 1) == 2
  {
    var es := [Command(p, v1, 0), Read(0, p, old1, 1), Read(1, p, old1, 1), Read(2, p, old1, 1),
               Write(0, true), Write(1, true)];
    assert Rides(IDLE.log, p, 1) == 0 && Decide(NewRow(v1, 0, 1), old1, 1).Count?;
    hide Apply, Run, Decide, Rides;
    var s1 := Apply(IDLE, es[0]);
    CommandStep(IDLE, p, v1, 0, s1);
    var s2 := Apply(s1, es[1]);
    ReadStep(s1, 0, p, old1, 1, s2);
    var s3 := Apply(s2, es[2]);
    ReadStep(s2, 1, p, old1, 1, s3);
    var s4 := Apply(s3, es[3]);
    ReadStep(s3, 2, p, old1, 1, s4);
    var s5 := Apply(s4, es[4]);
    RideStep(s4, 0, p, s5);
    var s6 := Apply(s5, es[5]);
    RideStep(s5, 1, p, s6);
    Traced(es, [IDLE, s1, s2, s3, s4, s5, s6]);
  }

  // A run, given all its states.
  lemma {:induction false} Traced(es: seq<Event>, ss: seq<State>)
    requires |ss| == |es| + 1 && ss[0] == IDLE
    requires forall i | 0 <= i < |es| :: Apply(ss[i], es[i]) == ss[i + 1]
    ensures Run(es) == ss[|es|]
  {
    if es != [] {
      hide Apply;
      Traced(es[..|es| - 1], ss[..|es|]);
    }
  }

  /** When a row is failed as never acknowledged, its command has ridden two replies if and only if two
      have been counted and none of those since it was issued carried an older command. */
  lemma GivenUpAfterTwoIff(es: seq<Event>, h: nat)
    requires var s := Run(es); h in s.handlers && s.handlers[h].exhausted && s.handlers[h].probe in s.rows
    ensures var s := Run(es); var p := s.handlers[h].probe; var t := Apply(s, WriteFailure(h, true));
            && p in t.rows && t.rows[p].phase.GivenUp? && t.rows[p].serial == s.rows[p].serial
            && (Rides(t.log, p, t.rows[p].serial) == MAX_DELIVERIES <==>
                s.rows[p].deliveries >= MAX_DELIVERIES && Strays(s.log, p, s.rows[p].serial) == 0)
  {
    CountsAlways(es);
    assert RowCounts(Run(es), Run(es).handlers[h].probe);
  }

  /** A command can be failed as never acknowledged although no reply has carried it. */
  lemma NeverSentGivenUp(p: ProbeId, old1: string, v1: Offer, v2: Offer)
    requires old1 != v1.target && old1 != v2.target
    ensures var es := [Command(p, v1, 0), Read(0, p, old1, 1), Read(1, p, old1, 1), Command(p, v2, 2),
                       Write(0, true), Write(1, true), Read(2, p, old1, 3), Write(2, true), WriteFailure(2, true)];
            var s := Run(es);
            && p in s.rows && s.rows[p].offer == v2 && s.rows[p].phase.GivenUp?
            && Rides(s.log, p, s.rows[p].serial) == 0
  {
    hide Apply, Run, Rides;
    var es := [Command(p, v1, 0), Read(0, p, old1, 1), Read(1, p, old1, 1), Command(p, v2, 2),
               Write(0, true), Write(1, true)];
    OldOneRidesTwice(p, old1, v1, v2);
    var s := Run(es);
    var t := Apply(s, Read(2, p, old1, 3));
    ReadStep(s, 2, p, old1, 3, t);
    var u := Apply(t, Write(2, true));
    GiveUpSteps(t, 2, p, u, Apply(u, WriteFailure(2, true)));
    var es1 := es + [Read(2, p, old1, 3)];
    Snoc(es, Read(2, p, old1, 3));
    Snoc(es1, Write(2, true));
    Snoc(es1 + [Write(2, true)], WriteFailure(2, true));
    assert es1 + [Write(2, true)] + [WriteFailure(2, true)]
        == [Command(p, v1, 0), Read(0, p, old1, 1), Read(1, p, old1, 1), Command(p, v2, 2), Write(0, true),
            Write(1, true), Read(2, p, old1, 3), Write(2, true), WriteFailure(2, true)];
  }

  lemma OldOneRidesTwice(p: ProbeId, old1: string, v1: Offer, v2: Offer)
    requires old1 != v1.target
    ensures var s := Run([Command(p, v1, 0), Read(0, p, old1, 1), Read(1, p, old1, 1), Command(p, v2, 2),
                          Write(0, true), Write(1, true)]);
            && p in s.rows && s.rows[p] == NewRow(v2, 2, 2).(deliveries := 2, updatedAt := 1)
            && 2 !in s.handlers && Rides(s.log, p, 2) == 0
  {
    var es := [Command(p, v1, 0), Read(0, p, old1, 1), Read(1, p, old1, 1), Command(p, v2, 2),
               Write(0, true), Write(1, true)];
    assert Rides(IDLE.log, p, 2) == 0 && Decide(NewRow(v1, 0, 1), old1, 1).Count?;
    hide Apply, Run, Decide, Rides;
    var s1 := Apply(IDLE, es[0]);
    CommandStep(IDLE, p, v1, 0, s1);
    var s2 := Apply(s1, es[1]);
    ReadStep(s1, 0, p, old1, 1, s2);
    var s3 := Apply(s2, es[2]);
    ReadStep(s2, 1, p, old1, 1, s3);
    var s4 := Apply(s3, es[3]);
    CommandStep(s3, p, v2, 2, s4);
    var s5 := Apply(s4, es[4]);
    RideStep(s4, 0, p, s5);
    var s6 := Apply(s5, es[5]);
    RideStep(s5, 1, p, s6);
    Traced(es, [IDLE, s1, s2, s3, s4, s5, s6]);
  }

  lemma GiveUpSteps(s: State, h: nat, p: ProbeId, t: State, u: State)
    requires t == Apply(s, Write(h, true)) && u == Apply(t, WriteFailure(h, true))
    requires h in s.handlers && !s.handlers[h].exhausted && s.handlers[h].probe == p
    requires p in s.rows && s.rows[p].deliveries == MAX_DELIVERIES
    requires var k := s.handlers[h]; k.seen.phase.Pending? && k.reported != k.seen.offer.target
    ensures p in u.rows && u.rows[p].phase.GivenUp? && u.rows[p].serial == s.rows[p].serial
    ensures u.rows[p].offer == s.rows[p].offer && u.log == s.log
  {
  }

  // A poll writes no log and no row's command or count.
  lemma LookKeepsLog(s: State, at: int, readOk: bool, writeOk: bool)
    requires s.line.running && s.line.waiting && |s.line.done| < |s.line.candidates|
    ensures var t := ApplyLook(s, at, readOk, writeOk);
            && t.log == s.log && t.serial == s.serial && t.handlers == s.handlers
            && (forall p :: p in t.rows <==> p in s.rows)
            && (forall p | p in t.rows :: SameCommand(t.rows[p], s.rows[p]))
  {
  }

  predicate SameCommand(a: Row, b: Row) {
    a.serial == b.serial && a.offer == b.offer
  }

  // ---- a heartbeat and the command it confirms ----

  ghost predicate RowsInv(s: State) {
    forall p | p in s.rows :: s.rows[p].serial <= s.serial && LastTarget(s.log, p) == Some(s.rows[p].offer.target)
  }

  // The row a handler read is the one in the table exactly when its heartbeat is since the command,
  // and it then vouches for the row it read.
  predicate HandlerOk(rows: Rows, serial: nat, log: History, h: nat, k: Handler) {
    && k.seen.serial <= serial
    && (k.probe in rows ==>
          && (BeatSince(log, k.probe, h) <==> rows[k.probe].serial == k.seen.serial)
          && (rows[k.probe].serial == k.seen.serial ==> rows[k.probe].offer == k.seen.offer)
          && (rows[k.probe].serial == k.seen.serial && k.reported == k.seen.offer.target ==> Confirmed(log, k.probe)))
  }

  ghost predicate HandlersInv(s: State) {
    forall h | h in s.handlers :: HandlerOk(s.rows, s.serial, s.log, h, s.handlers[h])
  }

  lemma StepRows(s: State, e: Event)
    requires RowsInv(s)
    ensures RowsInv(Apply(s, e))
  {
    hide ApplyWrite, ApplyLook;
    match e
    case Write(h, works) =>
      if h in s.handlers && !s.handlers[h].exhausted {
        WriteKeepsCommands(s, h, works);
      }
    case Look(at, readOk, writeOk) =>
      if s.line.running && s.line.waiting && |s.line.done| < |s.line.candidates| {
        LookKeepsLog(s, at, readOk, writeOk);
      }
    case _ =>
  }

  lemma WriteKeepsCommands(s: State, h: nat, works: bool)
    requires h in s.handlers && !s.handlers[h].exhausted
    ensures var t := ApplyWrite(s, h, works);
            && t.serial == s.serial && (forall p :: p in t.rows <==> p in s.rows)
            && (forall p | p in t.rows :: SameCommand(t.rows[p], s.rows[p]))
            && (forall p :: LastTarget(t.log, p) == LastTarget(s.log, p))
  {
  }

  lemma CommandKeepsHandlers(s: State, p: ProbeId, offer: Offer, at: int, byRollout: bool)
    requires RowsInv(s) && HandlersInv(s)
    ensures HandlersInv(CommandRow(s, p, offer, at, byRollout))
  {
    var t := CommandRow(s, p, offer, at, byRollout);
    forall h | h in t.handlers
      ensures HandlerOk(t.rows, t.serial, t.log, h, t.handlers[h])
    {
      assert HandlerOk(s.rows, s.serial, s.log, h, s.handlers[h]);
    }
  }

  lemma ReadKeepsHandlers(s: State, h: nat, p: ProbeId, reported: string, now: int)
    requires RowsInv(s) && HandlersInv(s)
    ensures HandlersInv(Apply(s, Read(h, p, reported, now)))
  {
    var t := Apply(s, Read(h, p, reported, now));
    forall g | g in t.handlers
      ensures HandlerOk(t.rows, t.serial, t.log, g, t.handlers[g])
    {
      assert g in s.handlers ==> HandlerOk(s.rows, s.serial, s.log, g, s.handlers[g]);
    }
  }

  lemma WriteKeepsHandlers(s: State, h: nat, works: bool)
    requires HandlersInv(s) && h in s.handlers && !s.handlers[h].exhausted
    ensures HandlersInv(ApplyWrite(s, h, works))
  {
    var t := ApplyWrite(s, h, works);
    var k := s.handlers[h];
    assert forall p :: p in t.rows <==> p in s.rows;
    assert forall p | p in t.rows :: t.rows[p].serial == s.rows[p].serial && t.rows[p].offer == s.rows[p].offer;
    forall g | g in t.handlers
      ensures HandlerOk(t.rows, t.serial, t.log, g, t.handlers[g])
    {
      assert HandlerOk(s.rows, s.serial, s.log, g, s.handlers[g]);
    }
  }

  lemma StepHandlers(s: State, e: Event)
    requires RowsInv(s) && HandlersInv(s)
    ensures HandlersInv(Apply(s, e))
  {
    match e
    case Command(p, offer, at) => CommandKeepsHandlers(s, p, offer, at, false);
    case Read(h, p, reported, now) => ReadKeepsHandlers(s, h, p, reported, now);
    case Write(h, works) =>
      if h in s.handlers && !s.handlers[h].exhausted {
        WriteKeepsHandlers(s, h, works);
      }
    case Issue(cmd, at) =>
      if s.line.running && !s.line.waiting && |s.line.done| < |s.line.candidates| && cmd.Some? {
        CommandKeepsHandlers(s, s.line.candidates[|s.line.done|], cmd.value, at, true);
      }
    case Look(_, _, _) =>
    case _ =>
  }

  lemma {:induction false} HandlersAlways(es: seq<Event>)
    ensures RowsInv(Run(es)) && HandlersInv(Run(es))
  {
    if es != [] {
      hide RowsInv, HandlersInv, Apply;
      HandlersAlways(es[..|es| - 1]);
      StepRows(Run(es[..|es| - 1]), es[|es| - 1]);
      StepHandlers(Run(es[..|es| - 1]), es[|es| - 1]);
    }
  }

  /** A heartbeat being served came after the command now in the table exactly when that row is
      still the one it read. */
  lemma BeatIsCurrentIff(es: seq<Event>, h: nat)
    requires var s := Run(es); h in s.handlers && s.handlers[h].probe in s.rows
    ensures var s := Run(es); var k := s.handlers[h];
            BeatSince(s.log, k.probe, h) <==> s.rows[k.probe].serial == k.seen.serial
  {
    HandlersAlways(es);
  }

  // A success about to be written for a command that a newer one has replaced.
  predicate Overtaken(s: State, e: Event) {
    && e.Write? && e.handler in s.handlers
    && var k := s.handlers[e.handler];
       && Decide(k.seen, k.reported, k.now).MarkApplied?
       && k.probe in s.rows && s.rows[k.probe].serial != k.seen.serial
  }

  // Some heartbeat other than h's has confirmed the last command to p.
  predicate ConfirmedByOther(log: History, p: ProbeId, h: nat) {
    match log
    case Begin => false
    case Then(past, Commanded(q, _, _)) => q != p && ConfirmedByOther(past, p, h)
    case Then(past, Beat(q, version, g)) =>
      (q == p && g != h && LastTarget(past, p) == Some(version)) || ConfirmedByOther(past, p, h)
    case Then(past, _) => ConfirmedByOther(past, p, h)
  }

  lemma {:induction false} ConfirmedHow(log: History, p: ProbeId, h: nat)
    ensures ConfirmedByOther(log, p, h) ==> Confirmed(log, p)
    ensures Confirmed(log, p) && !BeatSince(log, p, h) ==> ConfirmedByOther(log, p, h)
  {
    match log
    case Begin =>
    case Then(past, _) => ConfirmedHow(past, p, h);
  }

  // A success that lands on a command no heartbeat has confirmed.
  predicate Misfires(s: State, e: Event) {
    && Overtaken(s, e) && e.works && !s.handlers[e.handler].exhausted
    && !ConfirmedByOther(s.log, s.handlers[e.handler].probe, e.handler)
  }

  predicate NoMisfire(es: seq<Event>) {
    es == [] || (NoMisfire(es[..|es| - 1]) && !Misfires(Run(es[..|es| - 1]), es[|es| - 1]))
  }

  // Every row marked applied belongs to a probe that has heartbeated on its target since its last command.
  ghost predicate AppliedInv(s: State) {
    forall p | p in s.rows && s.rows[p].phase.Applied? :: Confirmed(s.log, p)
  }

  ghost predicate AppliedThroughout(es: seq<Event>) {
    AppliedInv(Run(es)) && (es == [] || AppliedThroughout(es[..|es| - 1]))
  }

  /** Exactly which steps make an applied row stop meaning a confirmed one. */
  lemma StepAppliedIff(s: State, e: Event)
    requires AppliedInv(s) && HandlersInv(s)
    ensures AppliedInv(Apply(s, e)) <==> !Misfires(s, e)
  {
    if e.Write? && e.handler in s.handlers && !s.handlers[e.handler].exhausted {
      WriteAppliedIff(s, e.handler, e.works);
    } else {
      OtherKeepsApplied(s, e);
    }
  }

  lemma WriteAppliedIff(s: State, h: nat, works: bool)
    requires AppliedInv(s) && HandlersInv(s) && h in s.handlers && !s.handlers[h].exhausted
    ensures AppliedInv(ApplyWrite(s, h, works)) <==> !Misfires(s, Write(h, works))
  {
    var k, t := s.handlers[h], ApplyWrite(s, h, works);
    assert HandlerOk(s.rows, s.serial, s.log, h, k);
    ConfirmedHow(s.log, k.probe, h);
    assert forall p :: Confirmed(t.log, p) == Confirmed(s.log, p);
    if Misfires(s, Write(h, works)) {
      assert k.probe in t.rows && t.rows[k.probe].phase.Applied?;
    }
  }

  lemma OtherKeepsApplied(s: State, e: Event)
    requires AppliedInv(s) && (e.Write? ==> e.handler !in s.handlers || s.handlers[e.handler].exhausted)
    ensures AppliedInv(Apply(s, e))
  {
    hide ApplyWrite;
  }

  /** Every row marked applied belongs, after every step, to a probe that has heartbeated on its target
      since its last command, exactly in the runs in which no success misfires. */
  lemma {:induction false} AppliedIsConfirmedIff(es: seq<Event>)
    ensures AppliedThroughout(es) <==> NoMisfire(es)
  {
    if es != [] {
      var s, e := Run(es[..|es| - 1]), es[|es| - 1];
      assert Run(es) == Apply(s, e);
      hide AppliedInv, HandlersInv, Apply, Run, Misfires;
      AppliedIsConfirmedIff(es[..|es| - 1]);
      HandlersAlways(es[..|es| - 1]);
      if AppliedThroughout(es[..|es| - 1]) {
        StepAppliedIff(s, e);
      }
    }
  }

  /** Exactly when a success write is genuine: the row it marks applied belongs to a probe that has
      heartbeated on its target since its last command if and only if no command has replaced the row
      since the heartbeat read it, or another heartbeat has confirmed the new one. */
  lemma SuccessIsGenuineIff(es: seq<Event>, h: nat)
    requires var s := Run(es);
             && h in s.handlers && !s.handlers[h].exhausted && s.handlers[h].probe in s.rows
             && Decide(s.handlers[h].seen, s.handlers[h].reported, s.handlers[h].now).MarkApplied?
    ensures var s := Run(es); var p := s.handlers[h].probe; var t := Apply(s, Write(h, true));
            && t.rows[p].phase.Applied?
            && (Confirmed(t.log, p) <==> !Overtaken(s, Write(h, true)) || ConfirmedByOther(s.log, p, h))
  {
    HandlersAlways(es);
    var s := Run(es);
    ConfirmedHow(s.log, s.handlers[h].probe, h);
    assert HandlerOk(s.rows, s.serial, s.log, h, s.handlers[h]);
  }

  /** The write names only the probe, so a command that lands in between is marked applied by a
      heartbeat on the old version. */
  lemma OvertakenIsMarkedApplied(p: ProbeId, v1: Offer, v2: Offer)
    requires v1.target != v2.target
    ensures var s := Run([Command(p, v1, 0), Read(0, p, v1.target, 1), Command(p, v2, 2), Write(0, true)]);
            p in s.rows && s.rows[p].offer == v2 && s.rows[p].phase.Applied? && !Confirmed(s.log, p)
  {
    var es := [Command(p, v1, 0), Read(0, p, v1.target, 1), Command(p, v2, 2), Write(0, true)];
    assert es[..3][..2] == es[..2] && es[..2][..1] == es[..1] && es[..1][..0] == [];
    assert Run(es[..1]) == Apply(IDLE, es[0]);
    assert Run(es[..2]) == Apply(Run(es[..1]), es[1]);
    assert Run(es[..3]) == Apply(Run(es[..2]), es[2]);
  }

  // ---- stop the line ----

  predicate LineInv(s: State) {
    var line := s.line;
    && |line.done| <= |line.candidates| && line.done == line.candidates[..|line.done|]
    && Distinct(line.candidates)
    && |line.done| <= |Issued(s.log)| <= |line.candidates| && |Issued(s.log)| <= |line.done| + 1
    && Issued(s.log) == line.candidates[..|Issued(s.log)|]
    && (line.running ==> line.failed.None? && |line.done| < |line.candidates|
                         && |Issued(s.log)| == |line.done| + if line.waiting then 1 else 0)
    && (line.failed.Some? ==> |line.done| < |line.candidates| && line.failed.value == line.candidates[|line.done|])
    && (!line.running && line.failed.None? ==> line.done == line.candidates)
  }

  lemma StepLine(s: State, e: Event)
    requires LineInv(s)
    ensures LineInv(Apply(s, e))
  {
    match e
    case Look(at, readOk, writeOk) => LookKeepsLine(s, at, readOk, writeOk);
    case Issue(cmd, at) => IssueKeepsLine(s, cmd, at);
    case Write(h, works) =>
      hide ApplyLook, CommandRow, Distinct;
    case _ =>
      hide ApplyWrite, ApplyLook;
  }

  lemma LookKeepsLine(s: State, at: int, readOk: bool, writeOk: bool)
    requires LineInv(s)
    ensures LineInv(Apply(s, Look(at, readOk, writeOk)))
  {
    hide Distinct, Issued;
  }

  lemma IssueKeepsLine(s: State, cmd: Option<Offer>, at: int)
    requires LineInv(s)
    ensures LineInv(Apply(s, Issue(cmd, at)))
  {
    hide Distinct;
  }

  /** `done` is a prefix of the candidates; the rollout has commanded just those and at most the next
      one; and it ends either with all of them done or stopped at the first that is not. */
  lemma {:induction false} LineAlways(es: seq<Event>)
    ensures LineInv(Run(es))
  {
    if es != [] {
      hide LineInv, Apply;
      LineAlways(es[..|es| - 1]);
      StepLine(Run(es[..|es| - 1]), es[|es| - 1]);
    }
  }

  /** After a failure the rollout commands nothing more. */
  lemma StoppedStaysStopped(s: State, e: Event)
    requires !s.line.running && !e.Start?
    ensures Apply(s, e).line == s.line && Issued(Apply(s, e).log) == Issued(s.log)
  {
  }

  ghost predicate DoneInv(s: State) {
    forall j | 0 <= j < |s.line.done| :: ConfirmedForRollout(s.log, s.line.done[j])
  }

  // A poll that takes an applied row for the candidate's success although it stands unconfirmed since
  // the rollout commanded it.
  predicate PassesUnconfirmed(s: State, e: Event) {
    && e.Look? && e.readOk && s.line.running && s.line.waiting && |s.line.done| < |s.line.candidates|
    && var p := s.line.candidates[|s.line.done|];
       p in s.rows && s.rows[p].phase.Applied? && !ConfirmedForRollout(s.log, p)
  }

  /** Exactly which steps let an unconfirmed candidate pass. */
  lemma StepDoneIff(s: State, e: Event)
    requires DoneInv(s) && LineInv(s)
    ensures DoneInv(Apply(s, e)) <==> !PassesUnconfirmed(s, e)
  {
    var t := Apply(s, e);
    if PassesUnconfirmed(s, e) {
      assert t.line.done[|s.line.done|] == s.line.candidates[|s.line.done|];
    } else {
      forall j | 0 <= j < |t.line.done|
        ensures ConfirmedForRollout(t.log, t.line.done[j])
      {
      }
    }
  }

  ghost predicate DoneThroughout(es: seq<Event>) {
    DoneInv(Run(es)) && (es == [] || DoneThroughout(es[..|es| - 1]))
  }

  predicate NonePassesUnconfirmed(es: seq<Event>) {
    es == [] || (NonePassesUnconfirmed(es[..|es| - 1]) && !PassesUnconfirmed(Run(es[..|es| - 1]), es[|es| - 1]))
  }

  /** The line is stopped as promised, after every step, exactly in the runs without such a poll. */
  lemma {:induction false} StopTheLineIff(es: seq<Event>)
    ensures DoneThroughout(es) <==> NonePassesUnconfirmed(es)
  {
    if es != [] {
      var s, e := Run(es[..|es| - 1]), es[|es| - 1];
      assert Run(es) == Apply(s, e);
      hide DoneInv, LineInv, Apply, Run, PassesUnconfirmed;
      StopTheLineIff(es[..|es| - 1]);
      LineAlways(es[..|es| - 1]);
      if DoneThroughout(es[..|es| - 1]) {
        StepDoneIff(s, e);
      }
    }
  }

  /** Stop the line: in a run in which no success misfires, every candidate but the last one commanded
      has, since the rollout commanded it, heartbeated on the version of its latest command. */
  lemma {:induction false} NextOnlyAfterConfirmed(es: seq<Event>)
    requires NoMisfire(es)
    ensures DoneInv(Run(es))
    ensures var s := Run(es); var issued := Issued(s.log);
            issued <= s.line.candidates && forall j | 0 <= j < |issued| - 1 :: ConfirmedForRollout(s.log, issued[j])
  {
    LineAlways(es);
    if es != [] {
      var s, e := Run(es[..|es| - 1]), es[|es| - 1];
      NextOnlyAfterConfirmed(es[..|es| - 1]);
      AppliedIsConfirmedIff(es[..|es| - 1]);
      LineAlways(es[..|es| - 1]);
      AppliedPasses(s, e);
      hide DoneInv, AppliedInv, LineInv, Apply, PassesUnconfirmed;
      StepDoneIff(s, e);
    }
    IssuedAreDone(Run(es));
  }

  lemma AppliedPasses(s: State, e: Event)
    requires AppliedInv(s)
    ensures !PassesUnconfirmed(s, e)
  {
  }

  /** A probe already on the version it was last told to take reports it; before that heartbeat is
      written down the rollout commands the next version, and the write marks that one applied. The line
      then moves on past a candidate that never confirmed it. */
  lemma LinePassesUnconfirmed(p: ProbeId, q: ProbeId, v1: Offer, v2: Offer)
    requires p != q && v1.target != v2.target
    ensures var s := Run([Command(p, v1, 0), Read(0, p, v1.target, 1), Start([p, q]), Issue(Some(v2), 2),
                          Write(0, true), Look(3, true, true), Issue(Some(v2), 4)]);
            Issued(s.log) == [p, q] && !ConfirmedForRollout(s.log, p)
  {
    var es := [Command(p, v1, 0), Read(0, p, v1.target, 1), Start([p, q]), Issue(Some(v2), 2)];
    UnderWay(p, q, v1, v2);
    var s := Run(es);
    Snoc(es, Write(0, true));
    var es1 := es + [Write(0, true)];
    Snoc(es1, Look(3, true, true));
    var es2 := es1 + [Look(3, true, true)];
    Snoc(es2, Issue(Some(v2), 4));
    assert es2 + [Issue(Some(v2), 4)]
        == [Command(p, v1, 0), Read(0, p, v1.target, 1), Start([p, q]), Issue(Some(v2), 2),
            Write(0, true), Look(3, true, true), Issue(Some(v2), 4)];
    hide Run;
    var t := Apply(s, Write(0, true));
    assert t.rows[p].phase.Applied? && t.line == s.line && t.log == s.log;
    var u := Apply(t, Look(3, true, true));
    assert u.line.done == [p] && u.line.running && !u.line.waiting && u.log == s.log;
  }

  lemma UnderWay(p: ProbeId, q: ProbeId, v1: Offer, v2: Offer)
    requires p != q && v1.target != v2.target
    ensures var s := Run([Command(p, v1, 0), Read(0, p, v1.target, 1), Start([p, q]), Issue(Some(v2), 2)]);
            && p in s.rows && s.line == Line(true, [p, q], [], true, 2 + WAIT_LIMIT, None)
            && 0 in s.handlers && s.handlers[0] == Handler(p, v1.target, 1, NewRow(v1, 0, 1), false)
            && Issued(s.log) == [p] && !ConfirmedForRollout(s.log, p)
  {
    var es := [Command(p, v1, 0), Read(0, p, v1.target, 1), Start([p, q]), Issue(Some(v2), 2)];
    var s1 := Apply(IDLE, es[0]);
    var s2 := Apply(s1, es[1]);
    assert s2.line == IDLE.line && s2.serial == 1 && s2.log == Then(s1.log, Beat(p, v1.target, 0));
    assert 0 in s2.handlers && s2.handlers[0] == Handler(p, v1.target, 1, NewRow(v1, 0, 1), false);
    var s3 := Apply(s2, es[2]);
    assert s3 == s2.(line := Line(true, [p, q], [], false, 0, None), log := Then(s2.log, Started([p, q])));
    var s4 := Apply(s3, es[3]);
    IssueFirst(s3, v2, s4);
    hide Apply, Run;
    Traced(es, [IDLE, s1, s2, s3, s4]);
  }

  lemma IssueFirst(s: State, v: Offer, t: State)
    requires s.line.running && !s.line.waiting && s.line.done == [] && s.line.candidates != []
    requires s.log.Then? && s.log.mark.Started? && t == Apply(s, Issue(Some(v), 2))
    ensures var p := s.line.candidates[0];
            && p in t.rows && t.line == s.line.(waiting := true, deadline := 2 + WAIT_LIMIT)
            && t.handlers == s.handlers && Issued(t.log) == [p]
    ensures Confirmed(t.log, s.line.candidates[0]) == ConfirmedForRollout(t.log, s.line.candidates[0]) == false
  {
  }

  lemma IssuedAreDone(s: State)
    requires LineInv(s) && DoneInv(s)
    ensures var issued := Issued(s.log);
            issued <= s.line.candidates && forall j | 0 <= j < |issued| - 1 :: ConfirmedForRollout(s.log, issued[j])
  {
    forall j | 0 <= j < |Issued(s.log)| - 1
      ensures ConfirmedForRollout(s.log, Issued(s.log)[j])
    {
      assert Issued(s.log)[j] == s.line.candidates[j] == s.line.done[j];
    }
  }

  // ---- how long the rollout waits ----

  /** A poll leaves the rollout waiting exactly when the read fails, the row is missing, or the row is
      undecided with time left: the deadline is only ever tested against a row. */
  lemma WaitsIff(s: State, at: int, readOk: bool, writeOk: bool)
    requires s.line.running && s.line.waiting && |s.line.done| < |s.line.candidates|
    ensures var p := s.line.candidates[|s.line.done|];
            (Apply(s, Look(at, readOk, writeOk)).line == s.line) <==>
            (!readOk || p !in s.rows ||
             ((s.rows[p].phase.Pending? || s.rows[p].phase.Applying?) && at <= s.line.deadline))
  {
  }

  // Only polls, at any times.
  function Polls(s: State, ats: seq<int>): State
    decreases |ats|
  {
    if ats == [] then s else Polls(Apply(s, Look(ats[0], true, true)), ats[1..])
  }

  /** So a row cleared while the rollout waits on it keeps the rollout waiting through every later
      poll, however far past the deadline. */
  lemma {:induction false} ClearedRowNeverTimesOut(s: State, ats: seq<int>)
    requires s.line.running && s.line.waiting && |s.line.done| < |s.line.candidates|
    requires s.line.candidates[|s.line.done|] !in s.rows
    ensures Polls(s, ats) == s
    decreases |ats|
  {
    if ats != [] {
      ClearedRowNeverTimesOut(s, ats[1..]);
    }
  }

  // ---- the objects ----

  class UpdateStore {
    var rows: Rows
    var serial: nat   // history: commands so far

    constructor ()
      ensures rows == map[] && serial == 0
    {
      rows, serial := map[], 0;
    }

    /** INSERT OR REPLACE: whatever was there, the row is pending and uncounted again. */
    method CommandProbeUpdate(p: ProbeId, offer: Offer, at: int, works: bool) returns (ok: bool)
      modifies this
      ensures ok <==> works && p != "" && offer.target != "" && offer.sha != "" && offer.arch != ""
      ensures !ok ==> rows == old(rows) && serial == old(serial)
      ensures ok ==> serial == old(serial) + 1 && rows == old(rows)[p := NewRow(offer, at, serial)]
      ensures ok ==> rows[p].offer == offer && rows[p].phase.Pending? && rows[p].deliveries == 0
                     && rows[p].updatedAt == at
    {
      if p == "" || offer.target == "" || offer.sha == "" || offer.arch == "" {
        return false;
      }
      if !works {
        return false;
      }
      serial := serial + 1;
      rows := rows[p := Row(offer, Pending, "", 0, at, at, serial)];
      ok := true;
    }

    method SetProbeUpdateState(p: ProbeId, phase: Phase, error: string, at: int, works: bool) returns (ok: bool)
      modifies this`rows
      ensures ok <==> works && p in old(rows)
      ensures rows == if works then SetPhase(old(rows), p, phase, error, at) else old(rows)
      ensures ok ==> rows[p].phase == phase && rows[p].error == error && rows[p].updatedAt == at
                     && rows[p].offer == old(rows)[p].offer && rows[p].deliveries == old(rows)[p].deliveries
    {
      if !works || p !in rows {
        return false;
      }
      var row := rows[p];
      rows := rows[p := row.(phase := phase, error := error, updatedAt := at)];
      ok := true;
    }

    method IncrementProbeUpdateDeliveries(p: ProbeId, at: int, works: bool) returns (n: Option<nat>)
      modifies this`rows
      ensures n.Some? <==> works && p in old(rows)
      ensures rows == if works then CountDelivery(old(rows), p, at) else old(rows)
      ensures n.Some? ==> n.value == rows[p].deliveries == old(rows)[p].deliveries + 1
    {
      if !works || p !in rows {
        return None;
      }
      var row := rows[p];
      rows := rows[p := row.(deliveries := row.deliveries + 1, updatedAt := at)];
      n := Some(row.deliveries + 1);
    }

    method ClearProbeUpdate(p: ProbeId, works: bool) returns (ok: bool)
      modifies this`rows
      ensures ok == works && rows == if works then old(rows) - {p} else old(rows)
    {
      if works {
        rows := rows - {p};
      }
      ok := works;
    }
  }

  // Which of a handler's statements work.
  datatype Luck = Luck(read: bool, write: bool, failure: bool)

  class UpdateServer {
    const store: UpdateStore

    constructor (store: UpdateStore)
      ensures this.store == store
    {
      this.store := store;
    }

    /** One whole heartbeat with nothing in between: it does what the two writes of the interleaved
        handler do, and a probe on its row's target heals the row whatever state it was in. */
    method HeartbeatUpdateFor(p: ProbeId, reported: string, now: int, luck: Luck) returns (reply: Option<Offer>)
      modifies store`rows
      ensures !luck.read || p !in old(store.rows) ==> reply.None? && store.rows == old(store.rows)
      ensures luck.read && p in old(store.rows) ==>
                var a := Act(old(store.rows), p, old(store.rows)[p], reported, now, luck.write);
                && reply == a.reply
                && store.rows == if a.exhausted && luck.failure
                                 then SetPhase(a.rows, p, GivenUp, "never acknowledged", now) else a.rows
      ensures luck.read && luck.write && p in old(store.rows) && reported == old(store.rows)[p].offer.target ==>
                reply.None? && p in store.rows && store.rows[p].phase.Applied?
    {
      if !luck.read || p !in store.rows {
        return None;
      }
      var row := store.rows[p];
      if row.phase.Applied? {
        return None;
      }
      if reported == row.offer.target {
        var _ := store.SetProbeUpdateState(p, Applied, "", now, luck.write);
        return None;
      }
      match row.phase {
        case Applying =>
          if now - row.updatedAt > APPLY_TIMEOUT {
            var _ := store.SetProbeUpdateState(p, GivenUp, "timeout", now, luck.write);
            return None;
          }
          return Some(row.offer);
        case Pending =>
          var n := store.IncrementProbeUpdateDeliveries(p, now, luck.write);
          if n.None? {
            return None;
          }
          if n.value > MAX_DELIVERIES {
            var _ := store.SetProbeUpdateState(p, GivenUp, "never acknowledged", now, luck.failure);
            return None;
          }
          return Some(row.offer);
        case _ =>
          return None;
      }
    }

    /** The probe's own report moves its row from any state; without a row it conflicts. */
    method HandleIngestUpdateStatus(p: ProbeId, state: string, error: string, now: int, works: bool)
      returns (status: int)
      modifies store`rows
      ensures state == "applying" ==>
                && status == (if works && p in old(store.rows) then 200 else 409)
                && store.rows == if works then SetPhase(old(store.rows), p, Applying, "", now) else old(store.rows)
      ensures state == "failed" ==>
                && status == 200
                && store.rows == if works then SetPhase(old(store.rows), p, GivenUp, Told(error), now)
                                 else old(store.rows)
      ensures state != "applying" && state != "failed" ==> status == 400 && store.rows == old(store.rows)
    {
      if state == "applying" {
        var ok := store.SetProbeUpdateState(p, Applying, "", now, works);
        return if ok then 200 else 409;
      }
      if state == "failed" {
        var _ := store.SetProbeUpdateState(p, GivenUp, Told(error), now, works);
        return 200;
      }
      status := 400;
    }

    function Told(error: string): string {
      if error == "" then "probe reported failure without detail" else error
    }
  }

  // What the rollout sees of one candidate: whether the command was issued and when, then its polls.
  datatype Leg = Leg(issued: Option<int>, polls: seq<(Option<Option<Phase>>, int)>)

  // The first poll that is not a Wait.
  function Settled(polls: seq<(Option<Option<Phase>>, int)>, deadline: int): Verdict {
    if polls == [] then Wait
    else
      var v := Poll(polls[0].0, polls[0].1, deadline);
      if v != Wait then v else Settled(polls[1..], deadline)
  }

  function LegVerdict(leg: Leg): Verdict {
    match leg.issued
    case None => Stopped
    case Some(at) => Settled(leg.polls, at + WAIT_LIMIT)
  }

  /** The rollout loop over what each candidate's leg shows: it goes on exactly past the candidates
      that succeed, and stops at the first that does not, naming it unless still waiting on it. */
  method RunRollout(candidates: seq<ProbeId>, legs: seq<Leg>) returns (done: seq<ProbeId>, failed: Option<ProbeId>)
    requires |legs| == |candidates|
    ensures done <= candidates
    ensures forall j | 0 <= j < |done| :: LegVerdict(legs[j]) == Succeeded
    ensures |done| < |candidates| ==> LegVerdict(legs[|done|]) != Succeeded
    ensures failed == if |done| < |candidates| && LegVerdict(legs[|done|]) != Wait then Some(candidates[|done|])
                      else None
  {
    done, failed := [], None;
    for i := 0 to |candidates|
      invariant done == candidates[..i] && failed.None?
      invariant forall j | 0 <= j < i :: LegVerdict(legs[j]) == Succeeded
    {
      var leg := legs[i];
      if leg.issued.None? {
        failed := Some(candidates[i]);
        return;
      }
      var deadline := leg.issued.value + WAIT_LIMIT;
      var k, verdict := 0, Wait;
      while k < |leg.polls| && verdict == Wait
        invariant 0 <= k <= |leg.polls|
        invariant verdict == Wait ==> Settled(leg.polls, deadline) == Settled(leg.polls[k..], deadline)
        invariant verdict != Wait ==> verdict == Settled(leg.polls, deadline)
      {
        verdict := Poll(leg.polls[k].0, leg.polls[k].1, deadline);
        k := k + 1;
      }
      if verdict == Wait {
        assert leg.polls[k..] == [];
        return;
      }
      if verdict != Succeeded {
        failed := Some(candidates[i]);
        return;
      }
      done := done + [candidates[i]];
    }
  }
}
