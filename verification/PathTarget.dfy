/** Which TTL the destination is taken to answer at, and how much of the path is shown, told from the
    results alone. */
module PathTarget {
  import opened Wrappers
  import opened Ring
  import opened Routing
  import opened Path

  predicate InRange(r: ProbeResult) {
    1 <= r.ttl <= MAX_TTL
  }

  predicate Echoes(r: ProbeResult) {
    InRange(r) && r.reply.EchoReply?
  }

  // A router between here and the destination answers.
  predicate Exceeds(r: ProbeResult) {
    InRange(r) && r.reply.TimeExceeded?
  }

  // Between results k and n some router answers at or under TTL u.
  predicate RoutedBetween(rs: seq<ProbeResult>, k: nat, n: nat, u: int)
    requires n <= |rs|
  {
    exists m | k < m < n :: Exceeds(rs[m]) && rs[m].ttl <= u
  }

  // Result i made t the target, and nothing since has unmade it.
  predicate Decides(rs: seq<ProbeResult>, i: nat, t: int)
    requires i < |rs|
  {
    && Echoes(rs[i]) && rs[i].ttl == t
    && (forall j | i < j < |rs| :: !(Exceeds(rs[j]) && rs[j].ttl == t) && !(Echoes(rs[j]) && rs[j].ttl < t))
    && (forall k | 0 <= k < i && Echoes(rs[k]) && rs[k].ttl < t :: RoutedBetween(rs, k, i, rs[k].ttl))
  }

  predicate Refuted(rs: seq<ProbeResult>, k: nat)
    requires k < |rs|
  {
    RoutedBetween(rs, k, |rs|, rs[k].ttl)
  }

  predicate TargetLaw(rs: seq<ProbeResult>, t: int) {
    if t == 0 then forall k | 0 <= k < |rs| && Echoes(rs[k]) :: Refuted(rs, k)
    else exists i | 0 <= i < |rs| :: Decides(rs, i, t)
  }

  lemma RoutedLater(rs: seq<ProbeResult>, r: ProbeResult, k: nat, n: nat, u: int)
    requires n <= |rs| && RoutedBetween(rs, k, n, u)
    ensures RoutedBetween(rs + [r], k, n, u) && RoutedBetween(rs + [r], k, |rs| + 1, u)
  {
    var m :| k < m < n && Exceeds(rs[m]) && rs[m].ttl <= u;
    assert (rs + [r])[m] == rs[m];
  }

  // An echo lowers the target, or is the first of one.
  lemma Lowered(rs: seq<ProbeResult>, r: ProbeResult, t: int)
    requires TargetLaw(rs, t) && Echoes(r) && (t == 0 || r.ttl < t)
    ensures TargetLaw(rs + [r], r.ttl)
  {
    var all := rs + [r];
    forall k | 0 <= k < |rs| && Echoes(all[k]) && all[k].ttl < r.ttl
      ensures RoutedBetween(all, k, |rs|, all[k].ttl)
    {
      if t == 0 {
        assert Refuted(rs, k);
        RoutedLater(rs, r, k, |rs|, rs[k].ttl);
      } else {
        var i :| 0 <= i < |rs| && Decides(rs, i, t);
        RoutedLater(rs, r, k, i, rs[k].ttl);
        var m :| k < m < i && Exceeds(rs[m]) && rs[m].ttl <= rs[k].ttl;
        assert all[m] == rs[m];
      }
    }
    assert Decides(all, |rs|, r.ttl);
  }

  // A router answers at the target.
  lemma Cleared(rs: seq<ProbeResult>, r: ProbeResult, t: int)
    requires t != 0 && TargetLaw(rs, t) && Exceeds(r) && r.ttl == t
    ensures TargetLaw(rs + [r], 0)
  {
    var all := rs + [r];
    var i :| 0 <= i < |rs| && Decides(rs, i, t);
    forall k | 0 <= k < |all| && Echoes(all[k])
      ensures Refuted(all, k)
    {
      if all[k].ttl >= t {
        assert all[|rs|] == r;
      } else {
        RoutedLater(rs, r, k, i, rs[k].ttl);
      }
    }
  }

  // Any other result.
  lemma Kept(rs: seq<ProbeResult>, r: ProbeResult, t: int)
    requires TargetLaw(rs, t)
    requires Echoes(r) ==> t != 0 && r.ttl >= t
    requires Exceeds(r) ==> r.ttl != t
    ensures TargetLaw(rs + [r], t)
  {
    var all := rs + [r];
    if t == 0 {
      forall k | 0 <= k < |all| && Echoes(all[k])
        ensures Refuted(all, k)
      {
        assert Refuted(rs, k);
        RoutedLater(rs, r, k, |rs|, rs[k].ttl);
      }
    } else {
      var i :| 0 <= i < |rs| && Decides(rs, i, t);
      forall k | 0 <= k < i && Echoes(all[k]) && all[k].ttl < t
        ensures RoutedBetween(all, k, i, all[k].ttl)
      {
        RoutedLater(rs, r, k, i, rs[k].ttl);
      }
      assert Decides(all, i, t);
    }
  }

  lemma TargetSteps(v: PathView, r: ProbeResult, threshold: int, caps: Caps)
    ensures var t, u := v.targetTtl, Feed(v, r, threshold, caps).targetTtl;
            if Echoes(r) && (t == 0 || r.ttl < t) then u == r.ttl
            else if Exceeds(r) && r.ttl == t then u == 0 else u == t
  {
    hide ApplyHop;
  }

  /** The target TTL told from the results. If there is one, some echo reply came from it that neither a
      router's answer at it nor an echo from nearer has followed, and every nearer echo before that was
      followed by a router's answer at or under its TTL. If there is none, so was every echo. */
  lemma {:induction false} TargetFromResults(rs: seq<ProbeResult>, threshold: int, caps: Caps)
    ensures TargetLaw(rs, Run(rs, threshold, caps).targetTtl)
  {
    if rs != [] {
      var past, last := rs[..|rs| - 1], rs[|rs| - 1];
      TargetFromResults(past, threshold, caps);
      var v := Run(past, threshold, caps);
      TargetSteps(v, last, threshold, caps);
      assert rs == past + [last];
      hide Feed, TargetLaw;
      if Echoes(last) && (v.targetTtl == 0 || last.ttl < v.targetTtl) {
        Lowered(past, last, v.targetTtl);
      } else if Exceeds(last) && last.ttl == v.targetTtl {
        Cleared(past, last, v.targetTtl);
      } else {
        Kept(past, last, v.targetTtl);
      }
    }
  }

  /** In particular, with no router answering at or under the nearest TTL that echoes, that TTL is the target. */
  lemma NearestEchoIsTarget(rs: seq<ProbeResult>, n: nat, threshold: int, caps: Caps)
    requires n < |rs| && Echoes(rs[n])
    requires forall j | 0 <= j < |rs| ::
               (Echoes(rs[j]) ==> rs[j].ttl >= rs[n].ttl) && (Exceeds(rs[j]) ==> rs[j].ttl > rs[n].ttl)
    ensures Run(rs, threshold, caps).targetTtl == rs[n].ttl
  {
    TargetFromResults(rs, threshold, caps);
    var t := Run(rs, threshold, caps).targetTtl;
    assert !Refuted(rs, n);
    var i :| 0 <= i < |rs| && Decides(rs, i, t);
    assert n < i && rs[n].ttl < t ==> RoutedBetween(rs, n, i, rs[n].ttl);
  }

  // How many results there had been when the target was last cleared.
  function LastCleared(rs: seq<ProbeResult>, threshold: int, caps: Caps): (m: nat)
    ensures m <= |rs|
  {
    if rs == [] then 0
    else
      var past, last := rs[..|rs| - 1], rs[|rs| - 1];
      if Exceeds(last) && last.ttl == Run(past, threshold, caps).targetTtl then |rs|
      else LastCleared(past, threshold, caps)
  }

  /** Exactly: the target is the least TTL to echo since it was last cleared, and unknown when none has. */
  lemma {:induction false} TargetIsLeastSinceCleared(rs: seq<ProbeResult>, threshold: int, caps: Caps)
    ensures var t, m := Run(rs, threshold, caps).targetTtl, LastCleared(rs, threshold, caps);
            && (forall i | m <= i < |rs| && Echoes(rs[i]) :: 0 < t <= rs[i].ttl)
            && (t != 0 ==> exists i | m <= i < |rs| :: Echoes(rs[i]) && rs[i].ttl == t)
  {
    if rs != [] {
      var past, last := rs[..|rs| - 1], rs[|rs| - 1];
      TargetIsLeastSinceCleared(past, threshold, caps);
      TargetSteps(Run(past, threshold, caps), last, threshold, caps);
      hide Feed;
      var t, m := Run(past, threshold, caps).targetTtl, LastCleared(past, threshold, caps);
      if t != 0 {
        var i :| m <= i < |past| && Echoes(past[i]) && past[i].ttl == t;
        assert rs[i] == past[i];
      }
      assert rs[|rs| - 1] == last;
    }
  }

  /** The farthest TTL seen is the greatest of those that were answered by anything but an error. */
  lemma {:induction false} MaxSeenIsGreatest(rs: seq<ProbeResult>, threshold: int, caps: Caps)
    ensures var far := Run(rs, threshold, caps).maxSeen;
            && (forall i | 0 <= i < |rs| && InRange(rs[i]) && !IsMiss(rs[i]) :: rs[i].ttl <= far)
            && (far != 0 ==> exists i | 0 <= i < |rs| :: InRange(rs[i]) && !IsMiss(rs[i]) && rs[i].ttl == far)
  {
    if rs != [] {
      var past, last := rs[..|rs| - 1], rs[|rs| - 1];
      MaxSeenIsGreatest(past, threshold, caps);
      hide ApplyHop, IsMiss;
      var far := Run(past, threshold, caps).maxSeen;
      if far != 0 {
        var i :| 0 <= i < |past| && InRange(past[i]) && !IsMiss(past[i]) && past[i].ttl == far;
        assert rs[i] == past[i];
      }
      assert rs[|rs| - 1] == last;
    }
  }

  predicate AnsweredLast(rs: seq<ProbeResult>, at: Option<int>) {
    match at
    case None => forall i | 0 <= i < |rs| :: IsMiss(rs[i])
    case Some(ts) => exists i | 0 <= i < |rs| ::
      !IsMiss(rs[i]) && rs[i].ts == ts && forall j | i < j < |rs| :: IsMiss(rs[j])
  }

  /** A hop's last response is that of its last result that was no miss. */
  lemma {:induction false} LastResponseIsLast(rs: seq<ProbeResult>, threshold: int, caps: Caps)
    ensures AnsweredLast(rs, HopRun(rs, threshold, caps).lastResponse)
  {
    if rs != [] {
      var past, last := rs[..|rs| - 1], rs[|rs| - 1];
      hide AnsweredLast, IsMiss, Observe;
      LastResponseIsLast(past, threshold, caps);
      AnsweredNext(past, last, HopRun(past, threshold, caps).lastResponse);
      assert rs == past + [last];
    } else {
      hide IsMiss;
    }
  }

  lemma AnsweredNext(past: seq<ProbeResult>, last: ProbeResult, at: Option<int>)
    requires AnsweredLast(past, at)
    ensures AnsweredLast(past + [last], if IsMiss(last) then at else Some(last.ts))
  {
    hide IsMiss;
    var rs := past + [last];
    assert rs[|past|] == last;
    if IsMiss(last) && at.Some? {
      var i :| 0 <= i < |past| && !IsMiss(past[i]) && past[i].ts == at.value
               && forall j | i < j < |past| :: IsMiss(past[j]);
      assert rs[i] == past[i];
      assert forall j | i < j < |rs| :: IsMiss(rs[j]);
    }
  }

  predicate Shows(hs: seq<HopSnapshot>, ttl: int) {
    exists i | 0 <= i < |hs| :: hs[i].ttl == ttl
  }

  lemma {:induction false} SummariesShow(v: PathView, n: nat, caps: Caps, ttl: int)
    requires ttl >= 1
    ensures Shows(Summaries(v, n, caps), ttl) <==> ttl <= n && ttl in v.hops
  {
    if n > 0 {
      SummariesShow(v, n - 1, caps, ttl);
      var hs, all := Summaries(v, n - 1, caps), Summaries(v, n, caps);
      assert n in v.hops ==> Summary(n, v.hops[n], caps).ttl == n && all == hs + [Summary(n, v.hops[n], caps)];
      hide Summary, Summaries;
      if Shows(hs, ttl) {
        var i :| 0 <= i < |hs| && hs[i].ttl == ttl;
        assert all[i] == hs[i];
      }
      if n in v.hops {
        assert all[|hs|].ttl == n;
      }
    }
  }

  /** A snapshot shows exactly the TTLs that have had a result, up to the farthest seen and no farther than
      the target. */
  lemma SnapshotShows(rs: seq<ProbeResult>, ttl: int, threshold: int, caps: Caps)
    requires 1 <= ttl <= MAX_TTL
    ensures var v := Run(rs, threshold, caps);
            Shows(SnapshotOf(v, caps).hops, ttl) <==>
              AtTtl(rs, ttl) != [] && ttl <= v.maxSeen && (v.targetTtl != 0 ==> ttl <= v.targetTtl)
  {
    var v := Run(rs, threshold, caps);
    HopsAreIndependent(rs, ttl, threshold, caps);
    SummariesShow(v, Visible(v), caps, ttl);
    hide Run, AtTtl, Summaries, Shows;
  }

  /** A route change is reported only by an answer, with that answer's time and TTL, from the address the hop
      showed to the one that just answered. */
  lemma ChangeIsThisAnswer(rs: seq<ProbeResult>, r: ProbeResult, threshold: int, caps: Caps)
    requires caps.candidates >= 1
    requires HopChange(HopRun(rs, threshold, caps), r, threshold, caps).Some?
    ensures var h := HopRun(rs, threshold, caps); var rc := HopChange(h, r, threshold, caps).value;
            && !IsMiss(r) && r.respIp.Some? && rc.newIp == r.respIp && rc.oldIp == h.current && rc.newIp != rc.oldIp
            && rc.ttl == r.ttl && rc.ts == r.ts
  {
    var t := ObserveAll(Observations(rs), threshold, caps.candidates);
    HopIsTrack(rs, threshold, caps);
    TrackAlways(Observations(rs), threshold, caps.candidates);
    ObserveForgets(t, Observed(r), threshold, caps.candidates);
    if Observed(r).None? {
      MissIsSilent(t, threshold, caps.candidates);
    } else {
      AnswerFires(t, Observed(r).value, threshold, caps.candidates);
    }
  }

  lemma AnswerFires(t: Track, x: nat, threshold: int, cap: nat)
    requires TrackInv(t, threshold, cap)
    ensures Fires(Take([Some(x)] + t.obs, cap), t.current, threshold) ==>
              Responding(Take([Some(x)] + t.obs, cap))[0] == x && t.current != Some(x)
  {
    if Fires(Take([Some(x)] + t.obs, cap), t.current, threshold) {
      FiringPays(t, x, threshold, cap);
    }
  }

  /** What a snapshot shows of a hop is its TTL, the address its whole history leaves it with, and when it last
      answered. */
  lemma SummaryShowsHop(rs: seq<ProbeResult>, ttl: int, threshold: int, caps: Caps)
    ensures var hs := Summary(ttl, HopRun(rs, threshold, caps), caps);
            && hs.ttl == ttl && hs.current == ObserveAll(Observations(rs), threshold, caps.candidates).current
            && hs.lastResponse == HopRun(rs, threshold, caps).lastResponse
  {
    HopIsTrack(rs, threshold, caps);
    hide HopRun, LossPercent, Rtts, ObserveAll;
  }
}
