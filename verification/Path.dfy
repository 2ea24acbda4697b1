/** The per-target path state and its snapshot (internal/probe/path.go). */
module Path {
  import opened Wrappers
  import opened Ring
  import opened Routing

  const MAX_TTL := 64

  datatype Reply = NoReply | EchoReply | TimeExceeded | DestUnreachable

  datatype ProbeResult = ProbeResult(ttl: int, ts: int, respIp: Addr, rtt: int, reply: Reply, timedOut: bool)

  datatype Sample = Sample(ttl: int, ts: int, ip: Addr, rtt: int)

  datatype RouteChange = RouteChange(ttl: int, ts: int, oldIp: Addr, newIp: Addr)

  datatype Caps = Caps(candidates: nat, samples: nat)

  // One hop: everything ever observed at it, newest first, and what it displays.
  datatype HopView = HopView(
    obs: seq<Addr>, rtts: seq<int>, losses: seq<bool>, current: Addr, lastResponse: Option<int>)

  const NEW_HOP := HopView([], [], [], None, None)

  datatype PathView = PathView(hops: map<int, HopView>, maxSeen: nat, targetTtl: nat)

  const NEW_PATH := PathView(map[], 0, 0)

  // A timeout, or an error that says nothing about who sits at this TTL.
  predicate IsMiss(r: ProbeResult) {
    r.timedOut || r.reply.DestUnreachable?
  }

  function Observed(r: ProbeResult): Addr {
    if IsMiss(r) then None else r.respIp
  }

  function ApplyHop(h: HopView, r: ProbeResult, threshold: int, caps: Caps): HopView {
    var t := Observe(Track(h.obs, h.current, []), Observed(r), threshold, caps.candidates);
    if IsMiss(r) then HopView(t.obs, [0] + h.rtts, [true] + h.losses, t.current, h.lastResponse)
    else HopView(t.obs, [r.rtt] + h.rtts, [false] + h.losses, t.current, Some(r.ts))
  }

  function HopChange(h: HopView, r: ProbeResult, threshold: int, caps: Caps): Option<RouteChange> {
    var t := Observe(Track(h.obs, h.current, []), Observed(r), threshold, caps.candidates);
    if t.changes == [] then None else Some(RouteChange(r.ttl, r.ts, t.changes[0].oldIp, Some(t.changes[0].newIp)))
  }

  function HopAt(v: PathView, ttl: int): HopView {
    if ttl in v.hops then v.hops[ttl] else NEW_HOP
  }

  function NextTarget(target: nat, r: ProbeResult): nat
    requires 0 <= r.ttl
  {
    match r.reply
    case EchoReply => if target == 0 || r.ttl < target then r.ttl else target
    case TimeExceeded => if target != 0 && r.ttl == target then 0 else target
    case _ => target
  }

  function Apply(v: PathView, r: ProbeResult, threshold: int, caps: Caps): PathView
    requires 1 <= r.ttl <= MAX_TTL
  {
    PathView(v.hops[r.ttl := ApplyHop(HopAt(v, r.ttl), r, threshold, caps)],
             if !IsMiss(r) && r.ttl > v.maxSeen then r.ttl else v.maxSeen,
             NextTarget(v.targetTtl, r))
  }

  // ---- summaries ----

  datatype HopSnapshot = HopSnapshot(ttl: int, current: Addr, lastResponse: Option<int>,
                                     avgRtt: int, currentRtt: int, minRtt: int, lossPercent: real)

  datatype Snapshot = Snapshot(hops: seq<HopSnapshot>, targetTtl: nat)

  function Positive(s: seq<int>): seq<int> {
    if s == [] then []
    else if s[|s| - 1] > 0 then Positive(s[..|s| - 1]) + [s[|s| - 1]] else Positive(s[..|s| - 1])
  }

  function Sum(s: seq<int>): int {
    if s == [] then 0 else Sum(s[..|s| - 1]) + s[|s| - 1]
  }

  function Min(s: seq<int>): int
    requires s != []
  {
    if |s| == 1 || s[|s| - 1] < Min(s[..|s| - 1]) then s[|s| - 1] else Min(s[..|s| - 1])
  }

  function Lost(s: seq<bool>): nat {
    if s == [] then 0 else Lost(s[..|s| - 1]) + if s[|s| - 1] then 1 else 0
  }

  function LossPercent(losses: seq<bool>): real {
    if losses == [] then 0.0 else 100.0 * Lost(losses) as real / |losses| as real
  }

  // The hop's last `caps.samples` results, oldest first.
  function Rtts(h: HopView, caps: Caps): seq<int> {
    Positive(Reversed(Take(h.rtts, caps.samples)))
  }

  function Summary(ttl: int, h: HopView, caps: Caps): HopSnapshot {
    var rtts := Rtts(h, caps);
    var losses := Reversed(Take(h.losses, caps.samples));
    if rtts == [] then HopSnapshot(ttl, h.current, h.lastResponse, 0, 0, 0, LossPercent(losses))
    else
      var avg, last := Sum(rtts) / |rtts|, rtts[|rtts| - 1];
      HopSnapshot(ttl, h.current, h.lastResponse, avg, last, Min(rtts), LossPercent(losses))
  }

  function Summaries(v: PathView, n: nat, caps: Caps): seq<HopSnapshot> {
    if n == 0 then []
    else Summaries(v, n - 1, caps) + if n in v.hops then [Summary(n, v.hops[n], caps)] else []
  }

  function Visible(v: PathView): nat {
    if v.targetTtl != 0 && v.targetTtl < v.maxSeen then v.targetTtl else v.maxSeen
  }

  function SnapshotOf(v: PathView, caps: Caps): Snapshot {
    Snapshot(Summaries(v, Visible(v), caps), v.targetTtl)
  }

  // ---- the objects ----

  class Hop {
    const ttl: int
    const candidates: RingBuffer<Addr>
    const recentRtts: RingBuffer<int>
    const recentLosses: RingBuffer<bool>
    var currentIp: Addr
    var lastResponse: Option<int>

    ghost function Repr(): set<object> {
      {this, candidates, candidates.buf, recentRtts, recentRtts.buf, recentLosses, recentLosses.buf}
    }

    ghost predicate Valid()
      reads Repr()
    {
      && candidates.Valid() && recentRtts.Valid() && recentLosses.Valid()
    }

    ghost predicate Sized(caps: Caps)
    {
      && candidates.buf.Length == caps.candidates
      && recentRtts.buf.Length == caps.samples && recentLosses.buf.Length == caps.samples
    }

    ghost function View(): HopView
      reads Repr()
    {
      HopView(candidates.history, recentRtts.history, recentLosses.history, currentIp, lastResponse)
    }

    constructor (ttl: int, caps: Caps)
      requires caps.candidates >= 1 && caps.samples >= 1
      ensures Valid() && Sized(caps) && fresh(Repr()) && View() == NEW_HOP && this.ttl == ttl
    {
      this.ttl := ttl;
      candidates := new RingBuffer<Addr>(caps.candidates);
      recentRtts := new RingBuffer<int>(caps.samples);
      recentLosses := new RingBuffer<bool>(caps.samples);
      currentIp, lastResponse := None, None;
    }

    // Pushes one result into the three buffers.
    method Push(r: ProbeResult)
      requires Valid()
      modifies Repr()
      ensures Valid()
      ensures var o := old(View());
              View() == if IsMiss(r)
                        then HopView([None] + o.obs, [0] + o.rtts, [true] + o.losses, o.current, o.lastResponse)
                        else HopView([r.respIp] + o.obs, [r.rtt] + o.rtts, [false] + o.losses, o.current, Some(r.ts))
    {
      hide RingBuffer.Valid;
      if r.timedOut || r.reply.DestUnreachable? {
        candidates.Push(None);
        recentRtts.Push(0);
        recentLosses.Push(true);
      } else {
        candidates.Push(r.respIp);
        recentRtts.Push(r.rtt);
        recentLosses.Push(false);
        lastResponse := Some(r.ts);
      }
    }

    // Runs the detector over the candidates buffer.
    method Detect(threshold: int) returns (changed: bool, newIp: Addr)
      requires Valid()
      modifies this`currentIp
      ensures Valid()
      ensures var window := Take(candidates.history, candidates.buf.Length);
              && changed == Fires(window, old(currentIp), threshold)
              && newIp == (if changed then Some(Responding(window)[0]) else None)
              && currentIp == if changed then newIp else if old(currentIp).None? then Modal(window) else old(currentIp)
    {
      var obs := candidates.NewestFirst();
      changed, newIp := DetectRouteChange(obs, currentIp, threshold);
      if changed {
        currentIp := newIp;
      } else if currentIp.None? {
        currentIp := ModalIP(obs);
      }
    }

    /** Records one result and runs the detector over the updated buffer. */
    method Record(r: ProbeResult, threshold: int, ghost caps: Caps) returns (rc: Option<RouteChange>)
      requires Valid() && Sized(caps)
      modifies Repr()
      ensures Valid()
      ensures View() == ApplyHop(old(View()), r, threshold, caps)
      ensures rc == HopChange(old(View()), r, threshold, caps)
    {
      hide Fires, Responding, Modal, Take;
      Push(r);
      var old' := currentIp;
      var changed, newIp := Detect(threshold);
      rc := if changed then Some(RouteChange(r.ttl, r.ts, old', newIp)) else None;
    }

    method Summarize(ghost caps: Caps) returns (hs: HopSnapshot)
      requires Valid() && Sized(caps)
      ensures hs == Summary(ttl, View(), caps)
    {
      hide Sum, Min, Positive, Lost;
      var rtts := recentRtts.OldestFirst();
      var count, sum, last, min := SummarizeRtts(rtts);
      var losses := recentLosses.OldestFirst();
      var lost := CountLost(losses);
      var lossPercent := if |losses| > 0 then 100.0 * lost as real / |losses| as real else 0.0;
      if count > 0 {
        hs := HopSnapshot(ttl, currentIp, lastResponse, sum / count, last, min, lossPercent);
      } else {
        hs := HopSnapshot(ttl, currentIp, lastResponse, 0, 0, 0, lossPercent);
      }
    }
  }

  lemma PositiveStep(s: seq<int>, i: nat)
    requires i < |s|
    ensures var p, q := Positive(s[..i]), Positive(s[..i + 1]);
            if s[i] > 0 then
              && q == p + [s[i]] && Sum(q) == Sum(p) + s[i]
              && Min(q) == if p == [] || s[i] < Min(p) then s[i] else Min(p)
            else q == p
  {
    var p := Positive(s[..i]);
    assert s[..i + 1][..i] == s[..i];
    assert (p + [s[i]])[..|p|] == p;
  }

  /** One pass over the window: count, sum, last and minimum of the answered results (zero is a miss). */
  method SummarizeRtts(rtts: seq<int>) returns (count: nat, sum: int, last: int, min: int)
    ensures var p := Positive(rtts);
            && count == |p| && sum == Sum(p)
            && (p != [] ==> last == p[|p| - 1] && min == Min(p))
  {
    count, sum, last, min := 0, 0, 0, 0;
    for i := 0 to |rtts|
      invariant var p := Positive(rtts[..i]);
                && count == |p| && sum == Sum(p)
                && (p != [] ==> last == p[|p| - 1] && min == Min(p) && min > 0)
                && (p == [] ==> min == 0)
    {
      PositiveStep(rtts, i);
      hide Positive, Sum, Min;
      var r := rtts[i];
      if r > 0 {
        sum, count, last := sum + r, count + 1, r;
        if min == 0 || r < min {
          min := r;
        }
      }
    }
    assert rtts[..|rtts|] == rtts;
  }

  method CountLost(losses: seq<bool>) returns (lost: nat)
    ensures lost == Lost(losses)
  {
    lost := 0;
    for i := 0 to |losses|
      invariant lost == Lost(losses[..i])
    {
      assert losses[..i + 1][..i] == losses[..i];
      if losses[i] {
        lost := lost + 1;
      }
    }
    assert losses[..|losses|] == losses;
  }

  class PathState {
    const caps: Caps
    const hops: array<Hop?>   // indexed by TTL, slot 0 unused
    var maxSeen: nat
    var targetTtl: nat
    ghost var seen: map<int, HopView>   // what each hop shows, by TTL
    ghost var Repr: set<object>

    ghost predicate Valid()
      reads this, hops, Repr
    {
      && this !in Repr
      && caps.candidates >= 1 && caps.samples >= 1
      && hops.Length == MAX_TTL + 1 && maxSeen <= MAX_TTL && targetTtl <= MAX_TTL
      && HopsOk()
    }

    ghost predicate HopsOk()
      requires hops.Length == MAX_TTL + 1
      reads this`Repr, this`seen, hops, Repr
    {
      && hops !in Repr
      && (forall i | i in seen :: 1 <= i <= MAX_TTL)
      && (forall i | 0 <= i <= MAX_TTL :: hops[i] == null <==> i !in seen)
      && (forall i | i in seen :: HopOk(hops[i], i))
      && (forall i, j | i in seen && j in seen && i != j :: hops[i].Repr() !! hops[j].Repr())
    }

    ghost predicate HopOk(h: Hop, i: int)
      requires i in seen
      reads this`Repr, this`seen, Repr
    {
      h.Repr() <= Repr && h.Valid() && h.Sized(caps) && h.ttl == i && h.View() == seen[i]
    }

    ghost function View(): PathView
      reads this
    {
      PathView(seen, maxSeen, targetTtl)
    }

    constructor (caps: Caps)
      requires caps.candidates >= 1 && caps.samples >= 1
      ensures Valid() && fresh(hops) && Repr == {} && View() == NEW_PATH && this.caps == caps
    {
      this.caps := caps;
      hops := new Hop?[MAX_TTL + 1](_ => null);
      maxSeen, targetTtl, seen := 0, 0, map[];
      Repr := {};
    }

    method GetOrCreateHop(ttl: int) returns (hop: Hop)
      requires Valid() && 1 <= ttl <= MAX_TTL
      modifies this`Repr, this`seen, hops
      ensures Valid() && fresh(Repr - old(Repr))
      ensures hop == hops[ttl] && ttl in seen
      ensures View() == old(View()).(hops := old(seen)[ttl := HopAt(old(View()), ttl)])
    {
      hide Hop.Valid, Hop.View, Hop.Sized;
      if hops[ttl] == null {
        var h := new Hop(ttl, caps);
        Install(ttl, h);
      }
      hop := hops[ttl];
    }

    method Install(ttl: int, h: Hop)
      requires Valid() && 1 <= ttl <= MAX_TTL && ttl !in seen
      requires h.Valid() && h.Sized(caps) && h.ttl == ttl && h.View() == NEW_HOP
      requires h.Repr() !! Repr + {this, hops}
      modifies this`Repr, this`seen, hops
      ensures Valid() && Repr == old(Repr) + h.Repr()
      ensures View() == old(View()).(hops := old(seen)[ttl := NEW_HOP])
    {
      hide Hop.Valid, Hop.View, Hop.Sized, Hop.Repr;
      hops[ttl] := h;
      seen := seen[ttl := NEW_HOP];
      Repr := Repr + h.Repr();
      forall i | i in seen
        ensures HopOk(hops[i], i)
      {
        assert i != ttl ==> old(HopOk(hops[i], i));
      }
      forall i, j | i in seen && j in seen && i != j
        ensures hops[i].Repr() !! hops[j].Repr()
      {
        assert i != ttl ==> hops[i].Repr() <= old(Repr);
        assert j != ttl ==> hops[j].Repr() <= old(Repr);
      }
    }

    // Feeds one result to the hop at its TTL.
    method RecordAt(r: ProbeResult, threshold: int) returns (rc: Option<RouteChange>)
      requires Valid() && r.ttl in seen
      modifies this`seen, Repr
      ensures Valid() && Repr == old(Repr)
      ensures View() == old(View()).(hops := old(seen)[r.ttl := ApplyHop(old(seen)[r.ttl], r, threshold, caps)])
      ensures rc == HopChange(old(seen)[r.ttl], r, threshold, caps)
    {
      hide ApplyHop, HopChange, Hop.Valid, Hop.View, Hop.Sized;
      var hop := hops[r.ttl];
      assert HopOk(hop, r.ttl);
      rc := hop.Record(r, threshold, caps);
      seen := seen[r.ttl := ApplyHop(seen[r.ttl], r, threshold, caps)];
      forall i | i in seen
        ensures HopOk(hops[i], i)
      {
        assert old(HopOk(hops[i], i));
      }
    }

    method ApplyProbeResult(r: ProbeResult, threshold: int) returns (s: Sample, rc: Option<RouteChange>)
      requires Valid() && 1 <= r.ttl <= MAX_TTL
      modifies this, hops, Repr
      ensures Valid() && fresh(Repr - old(Repr))
      ensures View() == Apply(old(View()), r, threshold, caps)
      ensures rc == HopChange(HopAt(old(View()), r.ttl), r, threshold, caps)
      ensures s == Sample(r.ttl, r.ts, Observed(r), if IsMiss(r) then 0 else r.rtt)
    {
      hide ApplyHop, HopChange, HopsOk;
      var hop := GetOrCreateHop(r.ttl);
      rc := RecordAt(r, threshold);
      var isMiss := r.timedOut || r.reply.DestUnreachable?;
      if !isMiss && r.ttl > maxSeen {
        maxSeen := r.ttl;
      }
      match r.reply {
        case EchoReply =>
          if targetTtl == 0 || r.ttl < targetTtl {
            targetTtl := r.ttl;
          }
        case TimeExceeded =>
          if targetTtl != 0 && r.ttl == targetTtl {
            targetTtl := 0;
          }
        case _ =>
      }
      s := if isMiss then Sample(r.ttl, r.ts, None, 0) else Sample(r.ttl, r.ts, r.respIp, r.rtt);
    }

    method TakeSnapshot() returns (out: Snapshot)
      requires Valid()
      ensures out == SnapshotOf(View(), caps)
    {
      hide Summary;
      if maxSeen == 0 {
        return Snapshot([], targetTtl);
      }
      var maxVisible := maxSeen;
      if targetTtl != 0 && targetTtl < maxVisible {
        maxVisible := targetTtl;
      }
      var list: seq<HopSnapshot> := [];
      for ttl := 1 to maxVisible + 1
        invariant list == Summaries(View(), ttl - 1, caps)
      {
        if hops[ttl] != null {
          assert HopOk(hops[ttl], ttl);
          var hs := hops[ttl].Summarize(caps);
          list := list + [hs];
        }
      }
      out := Snapshot(list, targetTtl);
    }
  }

  // ---- whole runs ----

  // The reducer drops results whose TTL is out of range.
  function Feed(v: PathView, r: ProbeResult, threshold: int, caps: Caps): PathView {
    if 1 <= r.ttl <= MAX_TTL then Apply(v, r, threshold, caps) else v
  }

  function Run(rs: seq<ProbeResult>, threshold: int, caps: Caps): PathView {
    if rs == [] then NEW_PATH else Feed(Run(rs[..|rs| - 1], threshold, caps), rs[|rs| - 1], threshold, caps)
  }

  function AtTtl(rs: seq<ProbeResult>, ttl: int): seq<ProbeResult> {
    if rs == [] then []
    else AtTtl(rs[..|rs| - 1], ttl) + if rs[|rs| - 1].ttl == ttl then [rs[|rs| - 1]] else []
  }

  function HopRun(rs: seq<ProbeResult>, threshold: int, caps: Caps): HopView {
    if rs == [] then NEW_HOP else ApplyHop(HopRun(rs[..|rs| - 1], threshold, caps), rs[|rs| - 1], threshold, caps)
  }

  lemma FeedHop(v: PathView, r: ProbeResult, ttl: int, threshold: int, caps: Caps)
    requires 1 <= ttl <= MAX_TTL
    ensures var w := Feed(v, r, threshold, caps);
            && HopAt(w, ttl) == (if r.ttl == ttl then ApplyHop(HopAt(v, ttl), r, threshold, caps) else HopAt(v, ttl))
            && (ttl in w.hops <==> r.ttl == ttl || ttl in v.hops)
  {
    hide ApplyHop, NextTarget;
  }

  lemma HopRunAppend(past: seq<ProbeResult>, last: ProbeResult, threshold: int, caps: Caps)
    ensures HopRun(past + [last], threshold, caps) == ApplyHop(HopRun(past, threshold, caps), last, threshold, caps)
  {
    hide ApplyHop;
    assert (past + [last])[..|past|] == past;
  }

  /** A hop is a function of the results at its own TTL: no other traffic touches it. */
  lemma {:induction false} HopsAreIndependent(rs: seq<ProbeResult>, ttl: int, threshold: int, caps: Caps)
    requires 1 <= ttl <= MAX_TTL
    ensures HopAt(Run(rs, threshold, caps), ttl) == HopRun(AtTtl(rs, ttl), threshold, caps)
    ensures ttl in Run(rs, threshold, caps).hops <==> AtTtl(rs, ttl) != []
  {
    if rs != [] {
      var past, last := rs[..|rs| - 1], rs[|rs| - 1];
      HopsAreIndependent(past, ttl, threshold, caps);
      FeedHop(Run(past, threshold, caps), last, ttl, threshold, caps);
      HopRunAppend(AtTtl(past, ttl), last, threshold, caps);
      hide Feed, HopRun, HopAt, ApplyHop;
      assert AtTtl(past, ttl) + [] == AtTtl(past, ttl);
    }
  }

  function Observations(rs: seq<ProbeResult>): seq<Addr> {
    seq(|rs|, i requires 0 <= i < |rs| => Observed(rs[i]))
  }

  function RttOf(r: ProbeResult): int {
    if IsMiss(r) then 0 else r.rtt
  }

  function RttsOf(rs: seq<ProbeResult>): seq<int> {
    seq(|rs|, i requires 0 <= i < |rs| => RttOf(rs[i]))
  }

  function LossesOf(rs: seq<ProbeResult>): seq<bool> {
    seq(|rs|, i requires 0 <= i < |rs| => IsMiss(rs[i]))
  }

  // The changes a run of results at one TTL reports.
  function ChangesOf(rs: seq<ProbeResult>, threshold: int, caps: Caps): seq<Change> {
    if rs == [] then []
    else
      ChangesOf(rs[..|rs| - 1], threshold, caps)
      + match HopChange(HopRun(rs[..|rs| - 1], threshold, caps), rs[|rs| - 1], threshold, caps)
        case None => []
        case Some(c) => if c.newIp.Some? then [Change(c.oldIp, c.newIp.value)] else []
  }

  // Earlier changes do not influence what is reported next.
  lemma ObserveForgets(t: Track, x: Addr, threshold: int, cap: nat)
    ensures var a, b := Observe(t, x, threshold, cap), Observe(Track(t.obs, t.current, []), x, threshold, cap);
            && a.obs == b.obs == [x] + t.obs && a.current == b.current
            && a.changes == t.changes + b.changes && |b.changes| <= 1
  {
    hide Fires, Modal, Responding, Take;
  }

  /** What a hop displays and reports is the detector run over its observations, so every fact about
      tracks is a fact about hops. */
  lemma {:induction false} HopIsTrack(rs: seq<ProbeResult>, threshold: int, caps: Caps)
    ensures var h, t := HopRun(rs, threshold, caps), ObserveAll(Observations(rs), threshold, caps.candidates);
            && h.obs == t.obs && h.current == t.current && ChangesOf(rs, threshold, caps) == t.changes
  {
    if rs != [] {
      var past, last := rs[..|rs| - 1], rs[|rs| - 1];
      HopIsTrack(past, threshold, caps);
      assert Observations(rs)[..|rs| - 1] == Observations(past);
      var t := ObserveAll(Observations(past), threshold, caps.candidates);
      ObserveForgets(t, Observed(last), threshold, caps.candidates);
      hide Observe, Observed;
    }
  }

  lemma HopGrows(h: HopView, r: ProbeResult, threshold: int, caps: Caps)
    ensures var t := ApplyHop(h, r, threshold, caps);
            t.rtts == [RttOf(r)] + h.rtts && t.losses == [IsMiss(r)] + h.losses
  {
    hide Observe;
  }

  /** A hop's buffers are its results, newest first. */
  lemma {:induction false} HopBuffers(rs: seq<ProbeResult>, threshold: int, caps: Caps)
    ensures var h := HopRun(rs, threshold, caps);
            h.rtts == Reversed(RttsOf(rs)) && h.losses == Reversed(LossesOf(rs))
  {
    if rs != [] {
      hide IsMiss, RttOf, ApplyHop, Reversed;
      var past, last := rs[..|rs| - 1], rs[|rs| - 1];
      HopBuffers(past, threshold, caps);
      HopGrows(HopRun(past, threshold, caps), last, threshold, caps);
      assert RttsOf(rs)[..|rs| - 1] == RttsOf(past) && LossesOf(rs)[..|rs| - 1] == LossesOf(past);
      ReversedLast(RttsOf(rs));
      ReversedLast(LossesOf(rs));
    }
  }

  // Results as discovery and the pinger build them.
  predicate WellFormed(r: ProbeResult) {
    && (r.timedOut ==> r.reply.NoReply?)
    && (!IsMiss(r) ==> r.rtt > 0)
  }

  predicate PathInv(v: PathView) {
    && (forall i | i in v.hops :: 1 <= i <= MAX_TTL)
    && (v.maxSeen != 0 ==> v.maxSeen in v.hops)
    && (v.targetTtl != 0 ==> v.targetTtl <= v.maxSeen && v.targetTtl in v.hops)
  }

  lemma {:induction false} PathAlways(rs: seq<ProbeResult>, threshold: int, caps: Caps)
    requires forall i | 0 <= i < |rs| :: WellFormed(rs[i])
    ensures PathInv(Run(rs, threshold, caps))
  {
    if rs != [] {
      hide ApplyHop;
      PathAlways(rs[..|rs| - 1], threshold, caps);
    }
  }

  predicate Listed(hs: seq<HopSnapshot>, v: PathView, n: nat, caps: Caps) {
    && (forall i | 0 <= i < |hs| ::
          1 <= hs[i].ttl <= n && hs[i].ttl in v.hops && hs[i] == Summary(hs[i].ttl, v.hops[hs[i].ttl], caps))
    && (forall i, j | 0 <= i < j < |hs| :: hs[i].ttl < hs[j].ttl)
    && (n in v.hops && n > 0 ==> hs != [] && hs[|hs| - 1].ttl == n)
  }

  lemma ListedGrows(hs: seq<HopSnapshot>, v: PathView, n: nat, caps: Caps)
    requires n > 0 && Listed(hs, v, n - 1, caps)
    ensures n in v.hops ==> Listed(hs + [Summary(n, v.hops[n], caps)], v, n, caps)
    ensures n !in v.hops ==> Listed(hs, v, n, caps)
  {
    if n in v.hops {
      assert Summary(n, v.hops[n], caps).ttl == n;
    }
    hide Summary;
  }

  lemma {:induction false} SummariesAscend(v: PathView, n: nat, caps: Caps)
    ensures Listed(Summaries(v, n, caps), v, n, caps)
  {
    if n > 0 {
      SummariesAscend(v, n - 1, caps);
      ListedGrows(Summaries(v, n - 1, caps), v, n, caps);
      hide Summary, Listed;
      assert Summaries(v, n - 1, caps) + [] == Summaries(v, n - 1, caps);
    }
  }

  /** After any results: hops in strictly ascending TTL, each the summary of the results at its own
      TTL, and a known target is a seen TTL and the last hop shown. */
  lemma SnapshotSound(rs: seq<ProbeResult>, threshold: int, caps: Caps)
    requires forall i | 0 <= i < |rs| :: WellFormed(rs[i])
    ensures var v := Run(rs, threshold, caps);
            var s := SnapshotOf(v, caps);
            && (forall i, j | 0 <= i < j < |s.hops| :: s.hops[i].ttl < s.hops[j].ttl)
            && (forall i | 0 <= i < |s.hops| ::
                  s.hops[i] == Summary(s.hops[i].ttl, HopRun(AtTtl(rs, s.hops[i].ttl), threshold, caps), caps))
            && (s.targetTtl != 0 ==>
                  s.targetTtl <= v.maxSeen && s.hops != [] && s.hops[|s.hops| - 1].ttl == s.targetTtl)
  {
    PathAlways(rs, threshold, caps);
    hide Run, HopRun, Summary, AtTtl;
    var v := Run(rs, threshold, caps);
    var s := SnapshotOf(v, caps);
    SummariesAscend(v, Visible(v), caps);
    forall i | 0 <= i < |s.hops|
      ensures s.hops[i] == Summary(s.hops[i].ttl, HopRun(AtTtl(rs, s.hops[i].ttl), threshold, caps), caps)
    {
      HopsAreIndependent(rs, s.hops[i].ttl, threshold, caps);
    }
  }

  lemma {:induction false} MinBounds(s: seq<int>)
    requires s != []
    ensures forall i | 0 <= i < |s| :: Min(s) <= s[i]
    ensures Min(s) in s
    ensures Min(s) * |s| <= Sum(s)
  {
    var n := |s| - 1;
    if n > 0 {
      MinBounds(s[..n]);
      assert Min(s) * n <= Min(s[..n]) * n;
      assert Min(s) * |s| == Min(s) * n + Min(s);
    }
  }

  lemma AverageAtLeast(sum: int, n: int, min: int)
    requires n > 0 && min * n <= sum
    ensures sum / n >= min
  {
    var q := sum / n;
    assert min * n < (q + 1) * n;
    MulCancel(min, q + 1, n);
  }

  lemma MulCancel(a: int, b: int, n: int)
    requires n > 0 && a * n < b * n
    ensures a < b
  {
  }

  lemma {:induction false} PositiveMembers(s: seq<int>)
    ensures forall x :: x in Positive(s) <==> x in s && x > 0
  {
    if s != [] {
      PositiveMembers(s[..|s| - 1]);
      assert forall x :: x in s <==> x in s[..|s| - 1] || x == s[|s| - 1];
    }
  }

  lemma LastResults(rs: seq<ProbeResult>, n: nat)
    ensures LossesOf(Last(rs, n)) == Last(LossesOf(rs), n) && RttsOf(Last(rs, n)) == Last(RttsOf(rs), n)
    ensures |Last(rs, n)| <= n && (rs != [] && n > 0 ==> |Last(rs, n)| > 0)
  {
  }

  lemma {:induction false} LostIsCount(s: seq<bool>)
    ensures Lost(s) == multiset(s)[true] <= |s|
  {
    if s != [] {
      LostIsCount(s[..|s| - 1]);
      assert s == s[..|s| - 1] + [s[|s| - 1]];
    }
  }

  function Last<T>(s: seq<T>, n: nat): seq<T> {
    if |s| <= n then s else s[|s| - n..]
  }

  // The newest n, put back in order, are the last n.
  lemma LastOf<T>(s: seq<T>, n: nat)
    ensures Reversed(Take(Reversed(s), n)) == Last(s, n)
  {
  }

  /** The loss shown is the share of missed results among the hop's last `caps.samples`, and a percentage. */
  lemma LossIsShare(rs: seq<ProbeResult>, ttl: int, threshold: int, caps: Caps)
    requires rs != [] && caps.samples > 0
    ensures var hs := Summary(ttl, HopRun(rs, threshold, caps), caps);
            var last := LossesOf(Last(rs, caps.samples));
            hs.lossPercent * |last| as real == 100.0 * multiset(last)[true] as real && 0.0 <= hs.lossPercent <= 100.0
  {
    hide HopRun, Rtts, LossPercent, Reversed, Take;
    HopBuffers(rs, threshold, caps);
    LastResults(rs, caps.samples);
    LastOf(LossesOf(rs), caps.samples);
    LossPercentIsShare(LossesOf(Last(rs, caps.samples)));
  }

  lemma LossPercentIsShare(losses: seq<bool>)
    requires losses != []
    ensures LossPercent(losses) * |losses| as real == 100.0 * multiset(losses)[true] as real
    ensures 0.0 <= LossPercent(losses) <= 100.0
  {
    hide Lost;
    LostIsCount(losses);
    ShareBounds(Lost(losses) as real, |losses| as real);
  }

  lemma ShareBounds(part: real, whole: real)
    requires 0.0 <= part <= whole && whole > 0.0
    ensures 100.0 * part / whole * whole == 100.0 * part && 0.0 <= 100.0 * part / whole <= 100.0
  {
  }

  /** A summary is over exactly the answered results among the hop's last `caps.samples`: its minimum is one of
      them, at most its average and at most its current value; with no answer all three are zero. */
  lemma SummaryBounds(rs: seq<ProbeResult>, ttl: int, threshold: int, caps: Caps)
    requires forall i | 0 <= i < |rs| :: WellFormed(rs[i])
    ensures var hs := Summary(ttl, HopRun(rs, threshold, caps), caps);
            var answers := Positive(RttsOf(Last(rs, caps.samples)));
            if answers == [] then hs.minRtt == hs.avgRtt == hs.currentRtt == 0
            else
              && hs.minRtt in answers && (forall i | 0 <= i < |answers| :: hs.minRtt <= answers[i])
              && hs.avgRtt == Sum(answers) / |answers| && hs.currentRtt == answers[|answers| - 1]
              && 0 < hs.minRtt <= hs.avgRtt && hs.minRtt <= hs.currentRtt
  {
    hide HopRun, LossPercent, Take, Reversed, Positive, Min, Sum, Last;
    HopBuffers(rs, threshold, caps);
    LastOf(RttsOf(rs), caps.samples);
    LastResults(rs, caps.samples);
    assert Rtts(HopRun(rs, threshold, caps), caps) == Positive(RttsOf(Last(rs, caps.samples)));
    AnswersBounds(RttsOf(Last(rs, caps.samples)));
  }

  lemma AnswersBounds(w: seq<int>)
    ensures var answers := Positive(w);
            answers != [] ==>
              && Min(answers) in answers && (forall i | 0 <= i < |answers| :: Min(answers) <= answers[i])
              && 0 < Min(answers) <= Sum(answers) / |answers|
  {
    var answers := Positive(w);
    PositiveMembers(w);
    hide Positive, Min, Sum;
    if answers != [] {
      MinBounds(answers);
      AverageAtLeast(Sum(answers), |answers|, Min(answers));
    }
  }
}
