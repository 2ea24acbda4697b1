/** The WAL checkpoint's two-stage quiesce: a writer-preferring gate, then exhaustion of the
    connection pool (internal/storage/storage.go), as interleaved steps. */
module Quiesce {
  import opened Wrappers

  // Where a client goroutine stands with respect to a gated call.
  datatype Call =
    | Outside    // not in a gated call
    | AtGate     // blocked in RLock
    | Acquiring  // holds the read lock, waits for a pool connection
    | Running    // holds the read lock and a connection

  // Connections outlive the call that opened them: returned rows and open transactions keep theirs.
  datatype Client = Client(call: Call, conns: nat)

  // The checkpoint worker: not there, in gate.Lock(), or holding the gate and `got` connections.
  datatype Worker = Off | Locking | Holding(got: nat)

  datatype State = State(clients: seq<Client>, worker: Worker, free: nat)

  datatype Event =
    | Arrive(c: nat)               // a gated call begins
    | Enter(c: nat)                // RLock returns: only while no writer is pending or in
    | Connect(c: nat)              // the pool hands over a connection
    | GiveUp(c: nat)               // the call's context ends before a connection comes
    | Return(c: nat, keep: bool)   // the call leaves the gate, with or without its connection
    | Close(c: nat)                // rows or a transaction are closed
    | Lock
    | Granted                      // Lock returns: every reader has left the gate
    | Take                         // the worker gets a raw connection
    | Release                      // any exit of CheckpointWAL: checkpointed, failed or timed out

  predicate InGate(c: Client) {
    c.call.Acquiring? || c.call.Running?
  }

  predicate Enabled(maxConns: nat, s: State, e: Event) {
    match e
    case Arrive(c) => c < |s.clients| && s.clients[c].call.Outside?
    case Enter(c) => c < |s.clients| && s.clients[c].call.AtGate? && s.worker.Off?
    case Connect(c) => c < |s.clients| && s.clients[c].call.Acquiring? && s.free > 0
    case GiveUp(c) => c < |s.clients| && s.clients[c].call.Acquiring?
    case Return(c, keep) => c < |s.clients| && s.clients[c].call.Running? && s.clients[c].conns > 0
    case Close(c) => c < |s.clients| && s.clients[c].call.Outside? && s.clients[c].conns > 0
    case Lock => s.worker.Off?
    case Granted => s.worker.Locking? && forall c | c in s.clients :: !InGate(c)
    case Take => s.worker.Holding? && s.free > 0 && s.worker.got < maxConns
    case Release => s.worker.Holding?
  }

  function With(s: State, i: nat, c: Client): State
    requires i < |s.clients|
  {
    s.(clients := s.clients[i := c])
  }

  function Apply(maxConns: nat, s: State, e: Event): State {
    if !Enabled(maxConns, s, e) then s
    else match e
      case Arrive(c) => With(s, c, s.clients[c].(call := AtGate))
      case Enter(c) => With(s, c, s.clients[c].(call := Acquiring))
      case Connect(c) => With(s, c, Client(Running, s.clients[c].conns + 1)).(free := s.free - 1)
      case GiveUp(c) => With(s, c, s.clients[c].(call := Outside))
      case Return(c, keep) =>
        if keep then With(s, c, s.clients[c].(call := Outside))
        else With(s, c, Client(Outside, s.clients[c].conns - 1)).(free := s.free + 1)
      case Close(c) => With(s, c, Client(Outside, s.clients[c].conns - 1)).(free := s.free + 1)
      case Lock => s.(worker := Locking)
      case Granted => s.(worker := Holding(0))
      case Take => s.(worker := Holding(s.worker.got + 1), free := s.free - 1)
      case Release => s.(worker := Off, free := s.free + s.worker.got)
  }

  function Run(maxConns: nat, s: State, es: seq<Event>): State
    decreases |es|
  {
    if es == [] then s else Run(maxConns, Apply(maxConns, s, es[0]), es[1..])
  }

  // ---- safety ----

  function Out(cs: seq<Client>): nat {
    if cs == [] then 0 else cs[0].conns + Out(cs[1..])
  }

  function Got(w: Worker): nat {
    if w.Holding? then w.got else 0
  }

  predicate Inv(maxConns: nat, s: State) {
    && s.free + Got(s.worker) + Out(s.clients) == maxConns
    && (s.worker.Holding? ==> forall c | c in s.clients :: !InGate(c))
    && (forall c | c in s.clients :: c.call.Running? ==> c.conns > 0)
  }

  lemma OutUpdate(cs: seq<Client>, i: nat, c: Client)
    requires i < |cs|
    ensures Out(cs[i := c]) == Out(cs) - cs[i].conns + c.conns
  {
    if i > 0 {
      assert cs[i := c][1..] == cs[1..][i - 1 := c];
      OutUpdate(cs[1..], i - 1, c);
    }
  }

  lemma MemberUpdate(cs: seq<Client>, i: nat, c: Client)
    requires i < |cs|
    ensures forall x | x in cs[i := c] :: x in cs || x == c
  {
  }

  /** Every step conserves connections and keeps readers out while the worker holds the gate. */
  lemma StepKeeps(maxConns: nat, s: State, e: Event)
    requires Inv(maxConns, s)
    ensures Inv(maxConns, Apply(maxConns, s, e))
  {
    if Enabled(maxConns, s, e) && !e.Lock? && !e.Granted? && !e.Take? && !e.Release? {
      var t := Apply(maxConns, s, e);
      OutUpdate(s.clients, e.c, t.clients[e.c]);
      MemberUpdate(s.clients, e.c, t.clients[e.c]);
      assert s.clients[e.c] in s.clients;
    }
  }

  lemma {:induction false} RunKeeps(maxConns: nat, s: State, es: seq<Event>)
    requires Inv(maxConns, s)
    ensures Inv(maxConns, Run(maxConns, s, es))
    decreases |es|
  {
    if es != [] {
      hide Inv, Apply;
      StepKeeps(maxConns, s, es[0]);
      RunKeeps(maxConns, Apply(maxConns, s, es[0]), es[1..]);
    }
  }

  lemma OutZero(cs: seq<Client>)
    ensures Out(cs) == 0 <==> forall c | c in cs :: c.conns == 0
  {
  }

  /** At the PRAGMA, with every pool connection in the worker's hands, no client holds one and none
      is inside the gate. */
  lemma QuietAtCheckpoint(maxConns: nat, s: State, es: seq<Event>)
    requires Inv(maxConns, s)
    requires Run(maxConns, s, es).worker == Holding(maxConns)
    ensures forall c | c in Run(maxConns, s, es).clients :: c.conns == 0 && !InGate(c)
  {
    RunKeeps(maxConns, s, es);
    OutZero(Run(maxConns, s, es).clients);
  }

  /** Whatever way the checkpoint ends, the gate is open and every connection it took is back. */
  lemma ReleaseReturnsAll(maxConns: nat, s: State)
    requires Inv(maxConns, s) && s.worker.Holding?
    ensures var t := Apply(maxConns, s, Release);
            t.worker.Off? && t.clients == s.clients && t.free + Out(t.clients) == maxConns
  {
  }

  // ---- convergence ----

  // The lock is pending or held, and the checkpoint has not ended.
  predicate Quiescing(s: State) {
    !s.worker.Off?
  }

  // Steps that happen of themselves: no new work, no cancellation.
  predicate Progress(e: Event) {
    e.Connect? || e.Return? || e.Close? || e.Granted? || e.Take?
  }

  ghost predicate Stuck(maxConns: nat, s: State) {
    forall e | Progress(e) :: !Enabled(maxConns, s, e)
  }

  function Weight(c: Client): nat {
    c.conns + match c.call
      case AtGate => 0
      case Outside => 1
      case Running => 2
      case Acquiring => 4
  }

  function Weights(cs: seq<Client>): nat {
    if cs == [] then 0 else Weight(cs[0]) + Weights(cs[1..])
  }

  function Measure(maxConns: nat, s: State): int {
    Weights(s.clients) + match s.worker
      case Off => 0
      case Locking => maxConns + 1
      case Holding(got) => maxConns - got
  }

  lemma WeightsUpdate(cs: seq<Client>, i: nat, c: Client)
    requires i < |cs|
    ensures Weights(cs[i := c]) == Weights(cs) - Weight(cs[i]) + Weight(c)
  {
    if i > 0 {
      assert cs[i := c][1..] == cs[1..][i - 1 := c];
      WeightsUpdate(cs[1..], i - 1, c);
    }
  }

  /** While the checkpoint quiesces every step, of whichever client, strictly decreases the measure. */
  lemma StepDecreases(maxConns: nat, s: State, e: Event)
    requires Quiescing(s) && Enabled(maxConns, s, e) && !e.Release?
    ensures Quiescing(Apply(maxConns, s, e))
    ensures Measure(maxConns, Apply(maxConns, s, e)) < Measure(maxConns, s)
  {
    if !e.Granted? && !e.Take? {
      WeightsUpdate(s.clients, e.c, Apply(maxConns, s, e).clients[e.c]);
    }
  }

  /** Before all connections are held, the quiesce can make no progress exactly when nothing is free
      and every connection out is held by a client blocked inside a further gated call. */
  lemma StuckIff(maxConns: nat, s: State)
    requires Inv(maxConns, s) && Quiescing(s) && s.worker != Holding(maxConns)
    ensures Stuck(maxConns, s) <==>
              && s.free == 0
              && (forall c | c in s.clients && c.conns > 0 :: c.call.AtGate? || c.call.Acquiring?)
              && (s.worker.Locking? ==> exists c :: c in s.clients && c.call.Acquiring?)
  {
    hide Out;
    if Stuck(maxConns, s) {
      forall i | 0 <= i < |s.clients|
        ensures !s.clients[i].call.Running?
        ensures s.clients[i].conns > 0 ==> !s.clients[i].call.Outside?
        ensures s.clients[i].call.Acquiring? ==> s.free == 0
      {
        assert !Enabled(maxConns, s, Return(i, true));
        assert !Enabled(maxConns, s, Close(i));
        assert !Enabled(maxConns, s, Connect(i));
      }
      assert !Enabled(maxConns, s, Granted) && !Enabled(maxConns, s, Take);
    } else {
      var e :| Progress(e) && Enabled(maxConns, s, e);
      if e.Return? || e.Close? || e.Connect? {
        assert s.clients[e.c] in s.clients;
      }
    }
  }

  /** What a stuck quiesce can still do. Holding the gate, its sixty-second timeout releases it. Waiting for
      the gate it cannot: there is no timeout there, and only a client inside the gate giving up on its
      connection can end the wait. */
  lemma StuckOutcome(maxConns: nat, s: State)
    requires Inv(maxConns, s) && Quiescing(s) && s.worker != Holding(maxConns) && Stuck(maxConns, s)
    ensures s.worker.Holding? ==> Enabled(maxConns, s, Release)
    ensures s.worker.Locking? ==> !Enabled(maxConns, s, Release) && exists c :: Enabled(maxConns, s, GiveUp(c))
  {
    StuckIff(maxConns, s);
    hide Stuck, Out;
    if s.worker.Locking? {
      var c :| c in s.clients && c.call.Acquiring?;
      var i :| 0 <= i < |s.clients| && s.clients[i] == c;
      assert Enabled(maxConns, s, GiveUp(i));
    }
  }

  lemma StuckStep(maxConns: nat, s: State, e: Event)
    requires Stuck(maxConns, s) && s.worker.Locking? && Enabled(maxConns, s, e) && !e.GiveUp?
    ensures var t := Apply(maxConns, s, e); Stuck(maxConns, t) && t.worker.Locking?
  {
    assert e.Arrive? by {
      assert Progress(e) ==> !Enabled(maxConns, s, e);
    }
    var t := Apply(maxConns, s, e);
    forall x | Progress(x)
      ensures !Enabled(maxConns, t, x)
    {
      assert !Enabled(maxConns, s, x);
      if x.Granted? {
        var c :| c in s.clients && InGate(c);
        var i :| 0 <= i < |s.clients| && s.clients[i] == c;
        assert t.clients[i] in t.clients;
      }
    }
  }

  // Every step possible in turn, and no client gives up.
  predicate Patient(maxConns: nat, s: State, es: seq<Event>)
    decreases |es|
  {
    es == [] || (Enabled(maxConns, s, es[0]) && !es[0].GiveUp? && Patient(maxConns, Apply(maxConns, s, es[0]), es[1..]))
  }

  /** So, stuck before the gate, the checkpoint stays stuck for as long as no client gives up. */
  lemma {:induction false} StuckForever(maxConns: nat, s: State, es: seq<Event>)
    requires Stuck(maxConns, s) && s.worker.Locking? && Patient(maxConns, s, es)
    ensures var t := Run(maxConns, s, es); Stuck(maxConns, t) && t.worker.Locking?
    decreases |es|
  {
    if es != [] {
      hide Stuck, Enabled, Apply;
      StuckStep(maxConns, s, es[0]);
      StuckForever(maxConns, Apply(maxConns, s, es[0]), es[1..]);
    }
  }

  /** One nested call and one connection are enough: a client keeps its rows open and calls again, behind the
      pending lock, while another, inside the gate, waits for the connection those rows hold. */
  lemma NestedCallSticks()
    ensures var s := Run(1, State([Client(Outside, 0), Client(Outside, 0)], Off, 1),
                         [Arrive(0), Enter(0), Connect(0), Return(0, true), Arrive(1), Enter(1), Lock, Arrive(0)]);
            s == State([Client(AtGate, 1), Client(Acquiring, 0)], Locking, 0) && Stuck(1, s)
  {
    var idle := Client(Outside, 0);
    FirstKeepsRows();
    SecondWaits();
    hide Apply, Run, Stuck;
    Traced(1, [Arrive(0), Enter(0), Connect(0), Return(0, true), Arrive(1), Enter(1), Lock, Arrive(0)],
           [State([idle, idle], Off, 1), State([Client(AtGate, 0), idle], Off, 1),
            State([Client(Acquiring, 0), idle], Off, 1), State([Client(Running, 1), idle], Off, 0),
            State([Client(Outside, 1), idle], Off, 0), State([Client(Outside, 1), Client(AtGate, 0)], Off, 0),
            State([Client(Outside, 1), Client(Acquiring, 0)], Off, 0),
            State([Client(Outside, 1), Client(Acquiring, 0)], Locking, 0),
            State([Client(AtGate, 1), Client(Acquiring, 0)], Locking, 0)]);
    LastIsStuck();
  }

  lemma FirstKeepsRows()
    ensures var idle, calling := Client(Outside, 0), Client(Acquiring, 0);
            && Apply(1, State([idle, idle], Off, 1), Arrive(0)) == State([Client(AtGate, 0), idle], Off, 1)
            && Apply(1, State([Client(AtGate, 0), idle], Off, 1), Enter(0)) == State([calling, idle], Off, 1)
            && Apply(1, State([calling, idle], Off, 1), Connect(0)) == State([Client(Running, 1), idle], Off, 0)
            && Apply(1, State([Client(Running, 1), idle], Off, 0), Return(0, true))
               == State([Client(Outside, 1), idle], Off, 0)
  {
  }

  lemma SecondWaits()
    ensures var idle, rows, calling := Client(Outside, 0), Client(Outside, 1), Client(Acquiring, 0);
            && Apply(1, State([rows, idle], Off, 0), Arrive(1)) == State([rows, Client(AtGate, 0)], Off, 0)
            && Apply(1, State([rows, Client(AtGate, 0)], Off, 0), Enter(1)) == State([rows, calling], Off, 0)
            && Apply(1, State([rows, calling], Off, 0), Lock) == State([rows, calling], Locking, 0)
            && Apply(1, State([rows, calling], Locking, 0), Arrive(0))
               == State([Client(AtGate, 1), calling], Locking, 0)
  {
  }

  lemma LastIsStuck()
    ensures Stuck(1, State([Client(AtGate, 1), Client(Acquiring, 0)], Locking, 0))
  {
    var s := State([Client(AtGate, 1), Client(Acquiring, 0)], Locking, 0);
    assert s.clients[1] in s.clients && InGate(s.clients[1]);
  }

  // A run, given all its states.
  lemma {:induction false} Traced(maxConns: nat, es: seq<Event>, ss: seq<State>)
    requires |ss| == |es| + 1
    requires forall i | 0 <= i < |es| :: Apply(maxConns, ss[i], es[i]) == ss[i + 1]
    ensures Run(maxConns, ss[0], es) == ss[|es|]
    decreases |es|
  {
    if es != [] {
      hide Apply;
      Traced(maxConns, es[1..], ss[1..]);
    }
  }

  // No client makes a gated call while it holds a connection.
  predicate Unnested(s: State) {
    forall c | c in s.clients && c.conns > 0 :: c.call.Outside? || (c.call.Running? && c.conns == 1)
  }

  // A run in which every step is enabled in turn, the checkpoint does not give up, and no call is nested.
  predicate Legal(maxConns: nat, s: State, es: seq<Event>)
    decreases |es|
  {
    es == [] || (
      && Enabled(maxConns, s, es[0])
      && !es[0].Release?
      && (es[0].Arrive? ==> s.clients[es[0].c].conns == 0)
      && Legal(maxConns, Apply(maxConns, s, es[0]), es[1..]))
  }

  lemma StepUnnested(maxConns: nat, s: State, e: Event)
    requires Inv(maxConns, s) && Unnested(s) && Enabled(maxConns, s, e)
    requires e.Arrive? ==> s.clients[e.c].conns == 0
    ensures Unnested(Apply(maxConns, s, e))
  {
    if !e.Lock? && !e.Granted? && !e.Take? && !e.Release? {
      hide Out;
      MemberUpdate(s.clients, e.c, Apply(maxConns, s, e).clients[e.c]);
      assert s.clients[e.c] in s.clients;
    }
  }

  lemma UnnestedIsNotStuck(maxConns: nat, s: State)
    requires Inv(maxConns, s) && Unnested(s) && Quiescing(s) && s.worker != Holding(maxConns) && maxConns > 0
    ensures !Stuck(maxConns, s)
  {
    StuckIff(maxConns, s);
    OutZero(s.clients);
  }

  /** Guaranteed convergence: from the moment the lock is pending, any schedule of any clients runs
      for at most Measure steps, and a schedule that stops only when nothing can move ends with
      every connection in the worker's hands. */
  lemma {:induction false} Converges(maxConns: nat, s: State, es: seq<Event>)
    requires Inv(maxConns, s) && Unnested(s) && Quiescing(s) && maxConns > 0
    requires Legal(maxConns, s, es)
    ensures |es| <= Measure(maxConns, s)
    ensures Stuck(maxConns, Run(maxConns, s, es)) ==>
              var t := Run(maxConns, s, es);
              t.worker == Holding(maxConns) && t.free == 0 && forall c | c in t.clients :: c.conns == 0
    decreases |es|
  {
    if es == [] {
      MeasureNonNegative(maxConns, s);
      if s.worker != Holding(maxConns) {
        UnnestedIsNotStuck(maxConns, s);
      }
      OutZero(s.clients);
    } else {
      var t := Apply(maxConns, s, es[0]);
      StepKeeps(maxConns, s, es[0]);
      StepDecreases(maxConns, s, es[0]);
      StepUnnested(maxConns, s, es[0]);
      hide Inv, Unnested, Apply, Enabled, Stuck, Measure;
      Converges(maxConns, t, es[1..]);
    }
  }

  lemma MeasureNonNegative(maxConns: nat, s: State)
    requires Inv(maxConns, s)
    ensures Measure(maxConns, s) >= 0
  {
  }

  // ---- the worker itself ----

  // What the PRAGMA comes back with.
  datatype Pragma = ScanFailed | Busy(done: int) | Truncated(frames: int)

  predicate ByClients(es: seq<Event>) {
    forall i | 0 <= i < |es| :: !es[i].Lock? && !es[i].Granted? && !es[i].Take? && !es[i].Release?
  }

  // The first n acquisitions, each after what clients did while it waited.
  function Pulled(during: seq<seq<Event>>, n: nat): seq<Event>
    requires n <= |during|
  {
    if n == 0 then [] else Pulled(during, n - 1) + (during[n - 1] + [Take])
  }

  lemma {:induction false} RunAppend(maxConns: nat, s: State, a: seq<Event>, b: seq<Event>)
    ensures Run(maxConns, s, a + b) == Run(maxConns, Run(maxConns, s, a), b)
    decreases |a|
  {
    if a == [] {
      assert a + b == b;
    } else {
      hide Apply;
      assert (a + b)[1..] == a[1..] + b;
      RunAppend(maxConns, Apply(maxConns, s, a[0]), a[1..], b);
    }
  }

  lemma RunThen(maxConns: nat, s: State, es: seq<Event>, e: Event)
    ensures Run(maxConns, s, es + [e]) == Apply(maxConns, Run(maxConns, s, es), e)
  {
    RunAppend(maxConns, s, es, [e]);
    var t := Apply(maxConns, Run(maxConns, s, es), e);
    assert Run(maxConns, t, [e][1..]) == t;
  }

  // Clients come and go without touching the worker.
  lemma {:induction false} ClientsLeaveWorker(maxConns: nat, s: State, es: seq<Event>)
    requires ByClients(es)
    ensures Run(maxConns, s, es).worker == s.worker
    decreases |es|
  {
    if es != [] {
      assert es[0] == es[0] && !es[0].Lock?;
      ClientsLeaveWorker(maxConns, Apply(maxConns, s, es[0]), es[1..]);
    }
  }

  class Store {
    const maxConns: nat
    var state: State

    ghost predicate Valid()
      reads this
    {
      maxConns > 0 && Inv(maxConns, state)
    }

    /** CheckpointWAL among its clients: `before` is what they do until the gate is granted, `during[i]` until
        the i-th acquisition returns. `works[i]` is false when it fails whatever is free: the caller's context
        is cancelled, the time is up, or the driver errs. Success means that at the PRAGMA all connections
        were held and no client had one or was in a gated call; every exit gives back the gate and what was
        held, and nothing else. */
    method CheckpointWAL(before: seq<Event>, during: seq<seq<Event>>, works: seq<bool>, pragma: Pragma)
      returns (frames: Result<int>, ghost end: State, ghost held: nat)
      requires Valid() && state.worker.Off? && |during| == |works| == maxConns
      requires ByClients(before) && forall i | 0 <= i < |during| :: ByClients(during[i])
      requires Enabled(maxConns, Run(maxConns, state, [Lock] + before), Granted)
      modifies this
      ensures Valid() && state.worker.Off?
      ensures held <= maxConns
      ensures end == Run(maxConns, old(state), [Lock] + before + [Granted] + Pulled(during, held)
                                               + if held < maxConns then during[held] else [])
      ensures end.worker == Holding(held) && state == Apply(maxConns, end, Release)
      ensures forall i | 0 <= i < held :: works[i]
      ensures held < maxConns ==> end.free == 0 || !works[held]
      ensures held == maxConns ==> forall c | c in end.clients :: c.conns == 0 && !InGate(c)
      ensures frames.Ok? <==> held == maxConns && pragma.Truncated?
      ensures frames.Ok? ==> frames.value == pragma.frames
    {
      hide Apply, Inv, Enabled, Pulled;
      ghost var s0 := state;
      ghost var head := [Lock] + before + [Granted];
      TakeGate(before);
      end, held := state, 0;
      NothingPulled(during);
      assert head + Pulled(during, 0) == head;
      for i := 0 to maxConns
        invariant Inv(maxConns, state) && state.worker == Holding(i)
        invariant forall j | 0 <= j < i :: works[j]
        invariant state == Run(maxConns, s0, head + Pulled(during, i))
      {
        ghost var so := head + Pulled(during, i);
        var got := Acquire(during[i], works[i], i);
        RunAppend(maxConns, s0, so, during[i]);
        if !got {
          end, held := state, i;
          Free();
          return Failed, end, held;
        }
        RunAppend(maxConns, s0, so, during[i] + [Take]);
        PulledOne(during, i);
        assert so + (during[i] + [Take]) == head + Pulled(during, i + 1);
      }
      end, held := state, maxConns;
      assert head + Pulled(during, maxConns) + [] == head + Pulled(during, maxConns);
      AllHeld(maxConns, state);
      Free();
      match pragma {
        case ScanFailed => frames := Failed;
        case Busy(_) => frames := Failed;
        case Truncated(n) => frames := Ok(n);
      }
    }

    // gate.Lock(), which returns when the last reader has left.
    method TakeGate(before: seq<Event>)
      requires Valid() && state.worker.Off? && ByClients(before)
      requires Enabled(maxConns, Run(maxConns, state, [Lock] + before), Granted)
      modifies this
      ensures state == Run(maxConns, old(state), [Lock] + before + [Granted])
      ensures Inv(maxConns, state) && state.worker == Holding(0)
    {
      ghost var s0 := state;
      state := Apply(maxConns, state, Lock);
      state := Run(maxConns, state, before);
      assert ([Lock] + before)[1..] == before;
      RunThen(maxConns, s0, [Lock] + before, Granted);
      state := Apply(maxConns, state, Granted);
      RunKeeps(maxConns, s0, [Lock] + before + [Granted]);
    }

    // One acquisition: what clients do meanwhile, and then a connection if there is one and the call works.
    method Acquire(meanwhile: seq<Event>, works: bool, ghost i: nat) returns (got: bool)
      requires Inv(maxConns, state) && state.worker == Holding(i) && i < maxConns && ByClients(meanwhile)
      modifies this
      ensures Inv(maxConns, state)
      ensures got <==> works && Run(maxConns, old(state), meanwhile).free > 0
      ensures got ==> state == Run(maxConns, old(state), meanwhile + [Take]) && state.worker == Holding(i + 1)
      ensures !got ==> state == Run(maxConns, old(state), meanwhile) && state.worker == Holding(i)
    {
      ghost var s0 := state;
      state := Run(maxConns, state, meanwhile);
      RunKeeps(maxConns, s0, meanwhile);
      ClientsLeaveWorker(maxConns, s0, meanwhile);
      if !works || state.free == 0 {
        return false;
      }
      RunThen(maxConns, s0, meanwhile, Take);
      state := Apply(maxConns, state, Take);
      RunKeeps(maxConns, s0, meanwhile + [Take]);
      got := true;
    }

    // The deferred closes and the deferred unlock.
    method Free()
      requires maxConns > 0 && Inv(maxConns, state) && state.worker.Holding?
      modifies this
      ensures Valid() && state == Apply(maxConns, old(state), Release) && state.worker.Off?
    {
      StepKeeps(maxConns, state, Release);
      state := Apply(maxConns, state, Release);
    }
  }

  lemma NothingPulled(during: seq<seq<Event>>)
    ensures Pulled(during, 0) == []
  {
  }

  lemma PulledOne(during: seq<seq<Event>>, i: nat)
    requires i < |during|
    ensures Pulled(during, i + 1) == Pulled(during, i) + (during[i] + [Take])
  {
  }

  lemma AllHeld(maxConns: nat, s: State)
    requires Inv(maxConns, s) && s.worker == Holding(maxConns)
    ensures forall c | c in s.clients :: c.conns == 0 && !InGate(c)
  {
    OutZero(s.clients);
  }
}
