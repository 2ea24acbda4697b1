/** Central's buffered writer (internal/storage/sink.go): drain, insert in one transaction, commit or
    put everything back, while writers keep appending. */
module BatchedSink {
  import opened Wrappers
  import opened Wire

  // Samples and changes drained by the flusher, with its lock released.
  datatype InFlight = InFlight(samples: seq<Sample>, changes: seq<Change>)

  datatype State = State(
    samples: seq<Sample>,
    changes: seq<Change>,
    inFlight: Option<InFlight>,
    dropped: nat,                 // since the last log line
    tableSamples: seq<Sample>,    // the samples table, as the events its rows were built from
    tableChanges: seq<Change>,
    accepted: seq<Sample>,        // history: every WriteSample
    acceptedChanges: seq<Change>,
    reported: nat)                // history: drops already logged

  const EMPTY := State([], [], None, 0, [], [], [], [], 0)

  datatype Event =
    | Write(sample: Sample)
    | WriteChange(change: Change)
    | Drain                       // flush, up to releasing the lock
    | Settle(committed: bool)     // the rest of flush
    | Report                      // logDropped

  function Newest<T>(xs: seq<T>, n: nat): (r: seq<T>) {
    if |xs| > n then xs[|xs| - n..] else xs
  }

  function Apply(cap: nat, s: State, e: Event): State
    requires cap > 0
  {
    match e
    case Write(x) =>
      s.(samples := (if |s.samples| >= cap then s.samples[1..] else s.samples) + [x],
         dropped := s.dropped + if |s.samples| >= cap then 1 else 0,
         accepted := s.accepted + [x])
    case WriteChange(x) =>
      s.(changes := s.changes + [x], acceptedChanges := s.acceptedChanges + [x])
    case Drain =>
      if s.inFlight.Some? || (s.samples == [] && s.changes == []) then s
      else s.(samples := [], changes := [], inFlight := Some(InFlight(s.samples, s.changes)))
    case Settle(committed) =>
      if s.inFlight.None? then s
      else
        var f := s.inFlight.value;
        if committed then
          s.(inFlight := None, tableSamples := s.tableSamples + f.samples, tableChanges := s.tableChanges + f.changes)
        else
          var merged := f.samples + s.samples;
          s.(inFlight := None,
             samples := if f.samples == [] then s.samples else Newest(merged, cap),
             changes := f.changes + s.changes,
             dropped := s.dropped + if f.samples != [] && |merged| > cap then |merged| - cap else 0)
    case Report => s.(dropped := 0, reported := s.reported + s.dropped)
  }

  function Run(cap: nat, es: seq<Event>): State
    requires cap > 0
  {
    if es == [] then EMPTY else Apply(cap, Run(cap, es[..|es| - 1]), es[|es| - 1])
  }

  // ---- conservation ----

  // xs is ys with some elements left out, order kept.
  predicate Subseq<T(==)>(xs: seq<T>, ys: seq<T>)
    decreases |ys|
  {
    if ys == [] then xs == []
    else
      || Subseq(xs, ys[..|ys| - 1])
      || (xs != [] && xs[|xs| - 1] == ys[|ys| - 1] && Subseq(xs[..|xs| - 1], ys[..|ys| - 1]))
  }

  lemma SubseqAppend<T>(xs: seq<T>, ys: seq<T>, z: T)
    requires Subseq(xs, ys)
    ensures Subseq(xs + [z], ys + [z])
  {
    assert (xs + [z])[..|xs + [z]| - 1] == xs;
    assert (ys + [z])[..|ys + [z]| - 1] == ys;
  }

  lemma {:induction false} SubseqRefl<T>(xs: seq<T>)
    ensures Subseq(xs, xs)
  {
    if xs != [] {
      SubseqRefl(xs[..|xs| - 1]);
    }
  }

  // Leaving one more element out.
  lemma {:induction false} SubseqRemove<T>(xs: seq<T>, i: nat, ys: seq<T>)
    requires i < |xs| && Subseq(xs, ys)
    ensures Subseq(xs[..i] + xs[i + 1..], ys)
    decreases |ys|
  {
    var short := xs[..i] + xs[i + 1..];
    var prefix := ys[..|ys| - 1];
    if Subseq(xs, prefix) {
      SubseqRemove(xs, i, prefix);
    } else if i == |xs| - 1 {
      assert short == xs[..|xs| - 1];
    } else {
      SubseqRemove(xs[..|xs| - 1], i, prefix);
      assert short[..|short| - 1] == xs[..|xs| - 1][..i] + xs[..|xs| - 1][i + 1..];
    }
  }

  // Leaving a whole stretch out.
  lemma {:induction false} SubseqCut<T>(a: seq<T>, b: seq<T>, c: seq<T>, ys: seq<T>)
    requires Subseq(a + b + c, ys)
    ensures Subseq(a + c, ys)
    decreases |b|
  {
    if b == [] {
      assert a + b + c == a + c;
    } else {
      var all := a + b + c;
      SubseqRemove(all, |a|, ys);
      assert all[..|a|] + all[|a| + 1..] == a + b[1..] + c;
      SubseqCut(a, b[1..], c, ys);
    }
  }

  lemma {:induction false} SubseqShorter<T>(xs: seq<T>, ys: seq<T>)
    requires Subseq(xs, ys)
    ensures |xs| <= |ys|
    ensures |xs| == |ys| ==> xs == ys
    decreases |ys|
  {
    if ys != [] {
      if Subseq(xs, ys[..|ys| - 1]) {
        SubseqShorter(xs, ys[..|ys| - 1]);
      } else {
        SubseqShorter(xs[..|xs| - 1], ys[..|ys| - 1]);
        assert xs == xs[..|xs| - 1] + [xs[|xs| - 1]];
        assert ys == ys[..|ys| - 1] + [ys[|ys| - 1]];
      }
    }
  }

  function Flying(s: State): seq<Sample> {
    if s.inFlight.Some? then s.inFlight.value.samples else []
  }

  function FlyingChanges(s: State): seq<Change> {
    if s.inFlight.Some? then s.inFlight.value.changes else []
  }

  predicate Conserved(cap: nat, s: State) {
    && |s.samples| <= cap && |Flying(s)| <= cap
    && Subseq(s.tableSamples + Flying(s) + s.samples, s.accepted)
    && |s.accepted| == |s.tableSamples| + |Flying(s)| + |s.samples| + s.dropped + s.reported
    && s.acceptedChanges == s.tableChanges + FlyingChanges(s) + s.changes
  }

  lemma WriteConserves(cap: nat, s: State, x: Sample)
    requires cap > 0 && Conserved(cap, s)
    ensures Conserved(cap, Apply(cap, s, Write(x)))
  {
    hide Subseq;
    var a, b := s.tableSamples + Flying(s), s.samples;
    var after := Apply(cap, s, Write(x));
    assert (a + b) + [x] == a + (b + [x]);
    SubseqAppend(a + b, s.accepted, x);
    if |b| >= cap {
      assert after.samples == (b + [x])[1..];
      assert a + (b + [x]) == a + b[..1] + (b + [x])[1..];
      SubseqCut(a, b[..1], (b + [x])[1..], s.accepted + [x]);
    }
  }

  lemma DrainConserves(cap: nat, s: State)
    requires cap > 0 && Conserved(cap, s)
    ensures Conserved(cap, Apply(cap, s, Drain))
  {
    var after := Apply(cap, s, Drain);
    assert s.tableSamples + Flying(s) + s.samples == after.tableSamples + Flying(after) + after.samples;
    assert s.tableChanges + FlyingChanges(s) + s.changes == after.tableChanges + FlyingChanges(after) + after.changes;
  }

  lemma CommitConserves(cap: nat, s: State)
    requires cap > 0 && Conserved(cap, s)
    ensures Conserved(cap, Apply(cap, s, Settle(true)))
  {
    hide Subseq;
    var after := Apply(cap, s, Settle(true));
    assert s.tableSamples + Flying(s) + s.samples == after.tableSamples + Flying(after) + after.samples;
    assert s.tableChanges + FlyingChanges(s) + s.changes == after.tableChanges + FlyingChanges(after) + after.changes;
  }

  lemma RequeueConserves(cap: nat, s: State)
    requires cap > 0 && Conserved(cap, s)
    ensures Conserved(cap, Apply(cap, s, Settle(false)))
  {
    hide Subseq;
    if s.inFlight.Some? {
      var after := Apply(cap, s, Settle(false));
      var merged := Flying(s) + s.samples;
      assert s.tableSamples + Flying(s) + s.samples == s.tableSamples + merged;
      assert s.tableChanges + FlyingChanges(s) + s.changes == after.tableChanges + FlyingChanges(after) + after.changes;
      assert after.tableSamples + Flying(after) + after.samples == s.tableSamples + after.samples;
      if Flying(s) == [] || |merged| <= cap {
        assert after.samples == merged;
      } else {
        var over := |merged| - cap;
        assert after.samples == merged[over..];
        assert s.tableSamples + merged == s.tableSamples + merged[..over] + merged[over..];
        SubseqCut(s.tableSamples, merged[..over], merged[over..], s.accepted);
      }
    }
  }

  lemma StepConserves(cap: nat, s: State, e: Event)
    requires cap > 0 && Conserved(cap, s)
    ensures Conserved(cap, Apply(cap, s, e))
  {
    match e
    case Write(x) => WriteConserves(cap, s, x);
    case WriteChange(x) =>
      var before := s.tableChanges + FlyingChanges(s);
      assert before + (s.changes + [x]) == (before + s.changes) + [x];
    case Drain => DrainConserves(cap, s);
    case Settle(committed) =>
      if committed {
        CommitConserves(cap, s);
      } else {
        RequeueConserves(cap, s);
      }
    case Report =>
  }

  /** Whatever writers, flushes, failed transactions and log lines interleave: table, in-flight batch
      and buffer, in that order, are the accepted samples with some left out; exactly the counted
      drops are missing; the buffer is bounded; and no route change is ever dropped or reordered. */
  lemma {:induction false} RunConserves(cap: nat, es: seq<Event>)
    requires cap > 0
    ensures Conserved(cap, Run(cap, es))
  {
    if es != [] {
      hide Conserved, Apply;
      RunConserves(cap, es[..|es| - 1]);
      StepConserves(cap, Run(cap, es[..|es| - 1]), es[|es| - 1]);
    }
  }

  /** A flush that commits with nothing written since empties the sink; if no drop was ever counted,
      the table then holds exactly the accepted samples, in order. */
  lemma CleanShutdownIsExact(cap: nat, es: seq<Event>)
    requires cap > 0
    requires Run(cap, es).inFlight.None?
    ensures var s := Apply(cap, Apply(cap, Run(cap, es), Drain), Settle(true));
            && s.inFlight.None? && s.samples == [] && s.changes == []
            && s.tableChanges == s.acceptedChanges
            && Subseq(s.tableSamples, s.accepted)
            && |s.accepted| == |s.tableSamples| + s.dropped + s.reported
            && (s.dropped + s.reported == 0 ==> s.tableSamples == s.accepted)
  {
    var s0 := Run(cap, es);
    var s := Apply(cap, Apply(cap, s0, Drain), Settle(true));
    RunConserves(cap, es);
    StepConserves(cap, s0, Drain);
    StepConserves(cap, Apply(cap, s0, Drain), Settle(true));
    assert s.tableSamples + Flying(s) + s.samples == s.tableSamples;
    assert s.tableChanges + FlyingChanges(s) + s.changes == s.tableChanges;
    SubseqShorter(s.tableSamples, s.accepted);
  }

  /** Backpressure only: a step drops something exactly when it would leave the buffer over its
      bound, and then drops just enough, oldest first. */
  lemma DropsOnlyOverCap(cap: nat, s: State, e: Event)
    requires cap > 0 && Conserved(cap, s) && !e.Report?
    ensures var t := Apply(cap, s, e);
            var wanted := match e
                          case Write(x) => s.samples + [x]
                          case Settle(false) => Flying(s) + s.samples
                          case Drain => t.samples
                          case _ => s.samples;
            && t.samples == Newest(wanted, cap)
            && t.dropped - s.dropped == |wanted| - |t.samples|
  {
    if e.Settle? && !e.committed {
      assert [] + s.samples == s.samples;
    }
  }

  // ---- the sink object ----

  datatype Fault = NoFault | BeginFails | RowFails(row: nat) | CommitFails

  predicate Commits(fault: Fault, rows: nat) {
    fault.NoFault? || (fault.RowFails? && fault.row >= rows)
  }

  class Store {
    var samples: seq<Sample>
    var changes: seq<Change>

    constructor ()
      ensures samples == [] && changes == []
    {
      samples, changes := [], [];
    }

    /** One transaction: every row or none. */
    method InsertAll(ss: seq<Sample>, cs: seq<Change>, fault: Fault) returns (ok: bool)
      modifies this
      ensures ok == Commits(fault, |ss| + |cs|)
      ensures samples == old(samples) + if ok then ss else []
      ensures changes == old(changes) + if ok then cs else []
    {
      if fault.BeginFails? {
        return false;
      }
      var txSamples, txChanges := samples, changes;
      for i := 0 to |ss|
        invariant txSamples == samples + ss[..i] && txChanges == changes
        invariant fault.RowFails? ==> fault.row >= i
      {
        if fault == RowFails(i) {
          return false;
        }
        txSamples := txSamples + [ss[i]];
      }
      for i := 0 to |cs|
        invariant txSamples == samples + ss && txChanges == changes + cs[..i]
        invariant fault.RowFails? ==> fault.row >= |ss| + i
      {
        if fault == RowFails(|ss| + i) {
          return false;
        }
        txChanges := txChanges + [cs[i]];
      }
      if fault.CommitFails? {
        return false;
      }
      samples, changes := txSamples, txChanges;
      ok := true;
    }
  }

  class Sink {
    const store: Store
    const flushSize: nat
    const bufferCap: nat
    var samples: seq<Sample>
    var changes: seq<Change>
    var dropped: nat
    var flushSignal: bool
    ghost var inFlight: Option<InFlight>
    ghost var accepted: seq<Sample>
    ghost var acceptedChanges: seq<Change>
    ghost var reported: nat

    ghost predicate Valid() {
      bufferCap > 0
    }

    ghost function View(): State
      reads this, store
    {
      State(samples, changes, inFlight, dropped, store.samples, store.changes, accepted, acceptedChanges, reported)
    }

    constructor (store: Store, flushSize: nat, bufferCap: nat)
      requires bufferCap > 0 && store.samples == [] && store.changes == []
      ensures Valid() && View() == EMPTY && !flushSignal
      ensures this.store == store && this.bufferCap == bufferCap && this.flushSize == flushSize
    {
      this.store, this.flushSize, this.bufferCap := store, flushSize, bufferCap;
      samples, changes, dropped, flushSignal := [], [], 0, false;
      inFlight, accepted, acceptedChanges, reported := None, [], [], 0;
    }

    method WriteSample(sample: Sample)
      requires Valid()
      modifies this
      ensures View() == Apply(bufferCap, old(View()), Write(sample))
      ensures flushSignal == (old(flushSignal) || |samples| >= flushSize)
    {
      if |samples| >= bufferCap {
        samples := samples[1..];
        dropped := dropped + 1;
      }
      samples := samples + [sample];
      if |samples| >= flushSize {
        flushSignal := true;
      }
      accepted := accepted + [sample];
    }

    method WriteRouteChange(change: Change)
      requires Valid()
      modifies this`changes, this`acceptedChanges
      ensures View() == Apply(bufferCap, old(View()), WriteChange(change))
    {
      changes := changes + [change];
      acceptedChanges := acceptedChanges + [change];
    }

    // The first locked section of flush.
    method DrainBuffers() returns (ss: seq<Sample>, cs: seq<Change>)
      requires Valid() && inFlight.None?
      modifies this
      ensures View() == Apply(bufferCap, old(View()), Drain)
      ensures inFlight == if ss == [] && cs == [] then None else Some(InFlight(ss, cs))
    {
      ss, cs := samples, changes;
      samples, changes := [], [];
      if !(ss == [] && cs == []) {
        inFlight := Some(InFlight(ss, cs));
      }
    }

    method Requeue(ss: seq<Sample>, cs: seq<Change>)
      requires Valid() && inFlight == Some(InFlight(ss, cs))
      modifies this
      ensures View() == Apply(bufferCap, old(View()), Settle(false))
    {
      if |ss| > 0 {
        var merged := ss + samples;
        if |merged| > bufferCap {
          var over := |merged| - bufferCap;
          dropped := dropped + over;
          merged := merged[over..];
        }
        samples := merged;
      }
      if |cs| > 0 {
        changes := cs + changes;
      } else {
        assert cs + changes == changes;
      }
      inFlight := None;
    }

    /** One flush with no writer in between: all rows committed, or everything back in the buffer. */
    method Flush(fault: Fault) returns (ok: bool)
      requires Valid() && inFlight.None?
      modifies this, store
      ensures var mid := Apply(bufferCap, old(View()), Drain);
              if mid.inFlight.None? then ok && View() == mid
              else ok == Commits(fault, |mid.inFlight.value.samples| + |mid.inFlight.value.changes|)
                   && View() == Apply(bufferCap, mid, Settle(ok))
      ensures ok ==> samples == [] && changes == []
                     && store.samples == old(store.samples) + old(samples)
                     && store.changes == old(store.changes) + old(changes)
    {
      var ss, cs := DrainBuffers();
      if |ss| == 0 && |cs| == 0 {
        assert old(store.samples) + [] == old(store.samples) && old(store.changes) + [] == old(store.changes);
        return true;
      }
      ok := store.InsertAll(ss, cs, fault);
      if !ok {
        assert old(store.samples) + [] == old(store.samples) && old(store.changes) + [] == old(store.changes);
        Requeue(ss, cs);
        return;
      }
      inFlight := None;
    }

    method LogDropped() returns (count: nat)
      modifies this`dropped, this`reported
      ensures Valid() ==> View() == Apply(bufferCap, old(View()), Report)
      ensures count == old(dropped)
    {
      count := dropped;
      dropped := 0;
      reported := reported + count;
    }
  }
}
