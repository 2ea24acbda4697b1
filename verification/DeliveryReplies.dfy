/** What replies mean from end to end: which ones central gives, and what each one does to a batch on the probe. */
module DeliveryReplies {
  import opened Wrappers
  import opened Wire
  import opened SpillBuffer
  import opened Ingest
  import opened Delivery
  import opened DeliveryRuns

  // ---- what central answers ----

  predicate Refusal(r: Reply) {
    r == Status4xx || r == Status401
  }

  /** A refusal is about the request: no better or worse luck with the store changes it. */
  lemma RefusalIgnoresStore(c: Central, b: Batch, now: int, gate: Gate, working: nat, other: nat)
    requires Refusal(Handle(c, b, now, gate, working).1)
    ensures Handle(c, b, now, gate, other) == Handle(c, b, now, gate, working)
  {
  }

  /** A server error is about the store: a request that got past the gate to meet one would have been
      stored by a store that works. */
  lemma ErrorIsTransient(c: Central, b: Batch, now: int, working: nat)
    requires Handle(c, b, now, Pass, working).1 == Status5xx
    ensures exists w :: Handle(c, b, now, Pass, w).1 == Status2xx
  {
    assert Handle(c, b, now, Pass, WriteStatements(c.log, b)).1 == Status2xx;
  }

  /** An acknowledged batch is remembered, and any other answer leaves the tables alone. */
  lemma AcknowledgedIffKept(c: Central, b: Batch, now: int, gate: Gate, working: nat)
    ensures var (d, r) := Handle(c, b, now, gate, working);
            if r == Status2xx then b.id in d.log else d == c
  {
  }

  /** Whatever the probe's arithmetic, central finds a built batch acceptable exactly when its size and the
      probe's id are, and every observation in it names a target, has a TTL a path can have and is within a
      day of central's clock. */
  lemma BuiltAcceptableIff(cfg: Config, id: nat, ss: seq<Sample>, cs: seq<Change>, size: nat, now: int)
    ensures Acceptable(Batch(cfg.probeId, id, ToWireSamples(cfg.toMs, ss), ToWireChanges(cs), size), now) <==>
              && size <= 4 * 1024 * 1024 && ValidProbeId(cfg.probeId)
              && (forall i | 0 <= i < |ss| ::
                    TargetId(ss[i].targetId, ss[i].resolved) != "" && 1 <= ss[i].ttl <= 64
                    && ss[i].ts - 86_400_000 <= now <= ss[i].ts + 86_400_000)
              && (forall i | 0 <= i < |cs| ::
                    TargetId(cs[i].targetId, cs[i].resolved) != "" && 1 <= cs[i].ttl <= 64 && cs[i].newIp != ""
                    && cs[i].ts - 86_400_000 <= now <= cs[i].ts + 86_400_000)
  {
    var b := Batch(cfg.probeId, id, ToWireSamples(cfg.toMs, ss), ToWireChanges(cs), size);
    hide ValidProbeId, TargetId;
    forall i | 0 <= i < |ss|
      ensures SampleOk(b.samples[i], now) <==>
              TargetId(ss[i].targetId, ss[i].resolved) != "" && 1 <= ss[i].ttl <= 64
              && ss[i].ts - 86_400_000 <= now <= ss[i].ts + 86_400_000
    {
    }
    forall i | 0 <= i < |cs|
      ensures ChangeOk(b.changes[i], now) <==>
              TargetId(cs[i].targetId, cs[i].resolved) != "" && 1 <= cs[i].ttl <= 64 && cs[i].newIp != ""
              && cs[i].ts - 86_400_000 <= now <= cs[i].ts + 86_400_000
    {
    }
    hide SampleOk, ChangeOk, ToWireSamples, ToWireChanges;
  }

  // ---- what the probe holds against a batch, central has told it ----

  ghost predicate Told(lost: map<nat, Loss>, fatal: bool, replies: set<(nat, Reply)>) {
    && (forall id | id in lost && lost[id].Rejected? :: (id, Status4xx) in replies)
    && (forall id | id in lost && lost[id].Revoked? :: (id, Status401) in replies)
    && (fatal ==> exists id :: (id, Status401) in replies)
  }

  lemma StepTold(cfg: Config, s: State, e: Event)
    requires Told(s.probe.lost, s.probe.fatal, s.replies)
    ensures var t := Apply(cfg, s, e); Told(t.probe.lost, t.probe.fatal, t.replies)
  {
    hide AfterAdd, EvictedIds, Handle, UsedId, QueueRows, DrainOrder, Removed, Prune;
    match e
    case Flushed(r, at, w) =>
      if Heard(s, s.probe.flushing, r) && s.probe.flushing.Some? {
        FlushedTold(cfg, s, r, at, w);
      }
    case Drained(r, works) =>
    case Arrive(k, gate, w) =>
      var t := Apply(cfg, s, e);
      assert forall x :: x in s.replies ==> x in t.replies;
    case _ =>
  }

  lemma FlushedTold(cfg: Config, s: State, r: Option<Reply>, at: int, w: nat)
    requires Told(s.probe.lost, s.probe.fatal, s.replies) && Heard(s, s.probe.flushing, r) && s.probe.flushing.Some?
    ensures var q := SettleFlush(cfg, s.probe, Classify(r), at, w); Told(q.lost, q.fatal, s.replies)
  {
    hide AfterAdd, EvictedIds;
  }

  /** In every reachable state a batch is named rejected only if central refused it, named revoked only if
      central turned its token away, and the probe is in its fatal state only after such an answer. */
  lemma {:induction false} LossesWereAnswered(cfg: Config, now: int, es: seq<Event>)
    ensures var s := Run(cfg, Init(now), es); Told(s.probe.lost, s.probe.fatal, s.replies)
    decreases |es|
  {
    if es != [] {
      hide Told, Apply;
      LossesWereAnswered(cfg, now, es[..|es| - 1]);
      StepTold(cfg, Run(cfg, Init(now), es[..|es| - 1]), es[|es| - 1]);
    } else {
      hide Apply;
    }
  }

  // No reply, or one that blames the server.
  predicate Retryable(r: Option<Reply>) {
    r == None || r == Some(Status5xx)
  }

  /** Exactly when a flush without a final answer spills its batch, in every reachable state; and whether or
      not it does, nothing is held against the batch but the spill. */
  lemma UnansweredIsSpilledIff(cfg: Config, now: int, es: seq<Event>, r: Option<Reply>, at: int, working: nat)
    requires var s := Run(cfg, Init(now), es); s.probe.flushing.Some? && Heard(s, s.probe.flushing, r) && Retryable(r)
    ensures var s := Run(cfg, Init(now), es);
            var p, q := s.probe, Apply(cfg, s, Flushed(r, at, working)).probe;
            var row := Pending(at, p.flushing.value);
            && (row in q.pending <==>
                  && working >= AddStatements(p.pending, row, cfg.maxBytes)
                  && row.batch.size + SizeAfter(p.pending, row) <= cfg.maxBytes)
            && q.fatal == p.fatal
            && (forall id | id in q.lost && (q.lost[id].Rejected? || q.lost[id].Revoked?) ::
                  id in p.lost && p.lost[id] == q.lost[id])
  {
    hide Run, Apply, AddStatements, SizeAfter, SettleFlush, AfterAdd, Heard;
    var s := Run(cfg, Init(now), es);
    SpilledIff(cfg, now, es, at, working);
    FlushedRetries(cfg, s, r, at, working);
    SpillBlamesNoReply(cfg, s.probe, at, working);
  }

  lemma FlushedRetries(cfg: Config, s: State, r: Option<Reply>, at: int, working: nat)
    requires Heard(s, s.probe.flushing, r) && Retryable(r)
    ensures Apply(cfg, s, Flushed(r, at, working)).probe == SettleFlush(cfg, s.probe, Retry, at, working)
  {
    hide SettleFlush;
  }

  lemma SpillBlamesNoReply(cfg: Config, p: Probe, at: int, working: nat)
    ensures var q := SettleFlush(cfg, p, Retry, at, working);
            && q.fatal == p.fatal
            && (forall id | id in q.lost && (q.lost[id].Rejected? || q.lost[id].Revoked?) ::
                  id in p.lost && p.lost[id] == q.lost[id])
  {
    hide AfterAdd, EvictedIds;
  }

  /** A final answer leaves the spill buffer alone: an acknowledgement costs nothing, a refusal the batch, a
      token turned away the batch and the probe's run. */
  lemma AnsweredFlush(cfg: Config, s: State, r: Reply, at: int, working: nat)
    requires s.probe.flushing.Some? && Heard(s, s.probe.flushing, Some(r)) && r != Status5xx
    ensures var p, q := s.probe, Apply(cfg, s, Flushed(Some(r), at, working)).probe;
            var id := p.flushing.value.id;
            && q.flushing == None && q.pending == p.pending
            && q.lost == (if r == Status2xx then p.lost else p.lost[id := if r == Status401 then Revoked else Rejected])
            && q.fatal == (p.fatal || r == Status401)
  {
    hide AfterAdd, EvictedIds;
  }

  /** A drain turn without a final answer leaves the batch pending and holds nothing against it. */
  lemma UnansweredStaysPending(cfg: Config, s: State, r: Option<Reply>, deleteWorks: bool)
    requires Heard(s, s.probe.draining, r) && Retryable(r)
    ensures Apply(cfg, s, Drained(r, deleteWorks)) == s.(probe := s.probe.(draining := None))
  {
  }

  /** A final answer takes the batch out of the spill buffer, unless the delete fails or the token was turned
      away; only a refusal is held against it. */
  lemma AnsweredDrain(cfg: Config, s: State, r: Reply, deleteWorks: bool)
    requires s.probe.draining.Some? && Heard(s, s.probe.draining, Some(r)) && r != Status5xx
    ensures var p, q := s.probe, Apply(cfg, s, Drained(Some(r), deleteWorks)).probe;
            var id, goes := p.draining.value.id, deleteWorks && r != Status401;
            && q.draining == None && q.pending == (if goes then Removed(p.pending, id) else p.pending)
            && q.lost == (if goes && r == Status4xx then p.lost[id := Rejected] else p.lost)
            && q.fatal == (p.fatal || r == Status401)
  {
  }

  // ---- runs in which nothing is wrong with the requests ----

  // The request gets past the gate, or meets a failing token lookup, with a batch central can accept.
  predicate Welcome(s: State, e: Event) {
    e.Arrive? && e.k < |s.probe.formed| ==>
      e.gate.LookupFailed? || (e.gate.Pass? && Acceptable(s.probe.formed[e.k], s.now))
  }

  predicate AllWelcome(cfg: Config, now: int, es: seq<Event>)
    decreases |es|
  {
    es == [] ||
    (AllWelcome(cfg, now, es[..|es| - 1]) && Welcome(Run(cfg, Init(now), es[..|es| - 1]), es[|es| - 1]))
  }

  predicate NoRefusal(replies: set<(nat, Reply)>) {
    forall x | x in replies :: !Refusal(x.1)
  }

  lemma StepRefusesIff(cfg: Config, s: State, e: Event)
    requires NoRefusal(s.replies)
    ensures NoRefusal(Apply(cfg, s, e).replies) <==> Welcome(s, e)
  {
    hide Acceptable, SettleFlush, SettleDrain, TakeQueue, PickOldest;
    if e.Arrive? && e.k < |s.probe.formed| {
      var id, r := s.probe.formed[e.k].id, Handle(s.central, s.probe.formed[e.k], s.now, e.gate, e.statements).1;
      assert Apply(cfg, s, e).replies == s.replies + {(id, r)};
      assert (id, r) in s.replies + {(id, r)};
    }
  }

  lemma RefusalsStay(cfg: Config, s: State, e: Event)
    ensures s.replies <= Apply(cfg, s, e).replies
  {
    hide Handle, SettleFlush, SettleDrain, TakeQueue, PickOldest;
  }

  /** Central refuses nothing over a run if and only if every request in it is welcome, however often its
      store fails; */
  lemma {:induction false} NoRefusalIff(cfg: Config, now: int, es: seq<Event>)
    ensures NoRefusal(Run(cfg, Init(now), es).replies) <==> AllWelcome(cfg, now, es)
    decreases |es|
  {
    if es != [] {
      var s, e := Run(cfg, Init(now), es[..|es| - 1]), es[|es| - 1];
      assert Run(cfg, Init(now), es) == Apply(cfg, s, e);
      hide Run, Apply, Welcome;
      NoRefusalIff(cfg, now, es[..|es| - 1]);
      RefusalsStay(cfg, s, e);
      if NoRefusal(s.replies) {
        StepRefusesIff(cfg, s, e);
      } else {
        var x :| x in s.replies && Refusal(x.1);
        assert x in Apply(cfg, s, e).replies;
      }
    }
  }

  /** and then the probe throws no batch away for a reply: none is named rejected or revoked, and it never
      stops. */
  lemma WelcomeIsNeverRejected(cfg: Config, now: int, es: seq<Event>)
    requires AllWelcome(cfg, now, es)
    ensures var p := Run(cfg, Init(now), es).probe;
            !p.fatal && forall id | id in p.lost :: p.lost[id].Evicted? || p.lost[id].SpillFailed?
  {
    NoRefusalIff(cfg, now, es);
    LossesWereAnswered(cfg, now, es);
    hide Run, AllWelcome;
    var s := Run(cfg, Init(now), es);
    assert forall id :: (id, Status4xx) !in s.replies && (id, Status401) !in s.replies by {
      assert Refusal(Status4xx) && Refusal(Status401);
    }
  }

  /** The answer to a revoked token is the one that stops the probe. */
  lemma RevokedTokenStops(cfg: Config, s: State, k: nat, working: nat, at: int, w: nat)
    requires k < |s.probe.formed| && s.probe.flushing == Some(s.probe.formed[k])
    ensures var t := Apply(cfg, s, Arrive(k, UnknownToken, working));
            && (s.probe.formed[k].id, Status401) in t.replies
            && Apply(cfg, t, Flushed(Some(Status401), at, w)).probe.fatal
  {
    hide AfterAdd, EvictedIds;
  }

  // ---- one whole drain, under any schedule ----

  // A turn after which the drain goes on.
  predicate GoesOn(t: Turn) {
    t.readWorks && (t.reply == Some(Status2xx) || t.reply == Some(Status4xx)) && t.deleteWorks
  }

  function LeadingTurns(turns: seq<Turn>): (n: nat)
    ensures n <= |turns| && (forall i | 0 <= i < n :: GoesOn(turns[i])) && (n < |turns| ==> !GoesOn(turns[n]))
  {
    if turns == [] || !GoesOn(turns[0]) then 0 else 1 + LeadingTurns(turns[1..])
  }

  function Least(a: nat, b: nat): nat {
    if a < b then a else b
  }

  // The drain posts the oldest batches first, one for each turn that goes on and one for the turn that ends
  // it, and takes those of the former off the buffer; it is healthy exactly when it sees the buffer empty.
  predicate Takes(p: Probe, turns: seq<Turn>) {
    var d, n := DrainOrder(p.pending), LeadingTurns(turns);
    var more := if n < |turns| && turns[n].readWorks then 1 else 0;
    && DrainOrder(Drain(p, turns).0.pending) == d[Least(n, |d|)..]
    && DrainPosts(p, turns) == Batches(d[..Least(n + more, |d|)])
    && (Drain(p, turns).1 <==> n >= |d| && |d| < |turns| && turns[|d|].readWorks)
  }

  /** A drain works through the pending batches in order, and how far it gets is up to its turns alone. */
  lemma {:induction false} DrainTakes(p: Probe, turns: seq<Turn>)
    requires Keyed(p.pending) && p.draining.None?
    ensures Takes(p, turns)
    decreases |turns|
  {
    hide Takes, DrainOrder, Removed, Keyed, SettleDrain, PickOldest, Classify;
    if turns == [] || p.pending == [] || !GoesOn(turns[0]) {
      TurnStops(p, turns);
    } else {
      var o := Classify(turns[0].reply);
      TurnTakes(p, turns[0].reply);
      DrainTakes(SettleDrain(PickOldest(p), o, true), turns[1..]);
      TurnGoesOn(p, turns);
    }
  }

  lemma TurnStops(p: Probe, turns: seq<Turn>)
    requires p.draining.None? && (turns == [] || p.pending == [] || !GoesOn(turns[0]))
    ensures Takes(p, turns)
  {
    hide DrainOrder, Removed;
    var d := DrainOrder(p.pending);
    assert |d| == |p.pending|;
    if turns != [] && turns[0].readWorks && p.pending != [] {
      var q := SettleDrain(PickOldest(p), Classify(turns[0].reply), turns[0].deleteWorks);
      assert q.pending == p.pending && Drain(p, turns) == (q, false);
      assert LeadingTurns(turns) == 0;
      assert Batches(d[..1]) == [d[0].batch];
    }
  }

  lemma TurnGoesOn(p: Probe, turns: seq<Turn>)
    requires p.draining.None? && p.pending != [] && turns != [] && GoesOn(turns[0])
    requires var q := SettleDrain(PickOldest(p), Classify(turns[0].reply), true);
             Takes(q, turns[1..]) && DrainOrder(q.pending) == DrainOrder(p.pending)[1..]
    ensures Takes(p, turns)
  {
    hide SettleDrain, PickOldest, DrainOrder;
    var d, rest := DrainOrder(p.pending), turns[1..];
    assert |d| == |p.pending|;
    var q := SettleDrain(PickOldest(p), Classify(turns[0].reply), true);
    assert Drain(p, turns) == Drain(q, rest);
    assert DrainPosts(p, turns) == [d[0].batch] + DrainPosts(q, rest);
    hide Drain, DrainPosts, GoesOn, Classify;
    var n := LeadingTurns(turns);
    assert n == 1 + LeadingTurns(rest) && |d| >= 1;
    assert n < |turns| ==> turns[n] == rest[n - 1];
    var more: nat := if n < |turns| && turns[n].readWorks then 1 else 0;
    hide LeadingTurns;
    OneOff(d, n);
    OneOff(d, n + more);
    assert |d| < |turns| ==> turns[|d|] == rest[|d| - 1];
  }

  // What is left of the tail, and what of it is posted, is what is left and posted of the whole.
  lemma OneOff(d: seq<Pending>, n: nat)
    requires d != [] && n > 0
    ensures d[1..][Least(n - 1, |d| - 1)..] == d[Least(n, |d|)..]
    ensures Batches(d[..Least(n, |d|)]) == [d[0].batch] + Batches(d[1..][..Least(n - 1, |d| - 1)])
  {
    var k := Least(n, |d|);
    assert d[..k][1..] == d[1..][..k - 1];
    assert Batches(d[..k]) == [d[0].batch] + Batches(d[..k][1..]);
  }

  lemma TurnTakes(p: Probe, r: Option<Reply>)
    requires Keyed(p.pending) && p.draining.None? && p.pending != [] && (r == Some(Status2xx) || r == Some(Status4xx))
    ensures var q := SettleDrain(PickOldest(p), Classify(r), true);
            Keyed(q.pending) && q.draining.None? && DrainOrder(q.pending) == DrainOrder(p.pending)[1..]
  {
    hide Removed, Keyed;
    DeleteOldestDrains(p.pending);
    KeyedRemoved(p.pending, DrainOrder(p.pending)[0].batch.id);
    var d := DrainOrder(p.pending);
    assert SettleDrain(PickOldest(p), Classify(r), true).pending == Removed(p.pending, d[0].batch.id);
    hide DrainOrder;
  }
}
