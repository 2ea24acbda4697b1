/** Route-change detection at one hop (internal/analysis/routing.go) and what it means over the
    hop's whole history. Observations are newest first; None is a probe that got no answer. */
module Routing {
  import opened Wrappers
  import opened Ring

  type Addr = Option<nat>

  // The observations that answered.
  function Responding(obs: seq<Addr>): seq<nat> {
    if obs == [] then []
    else if obs[0].None? then Responding(obs[1..])
    else [obs[0].value] + Responding(obs[1..])
  }

  function Bar(threshold: int): nat {
    if threshold < 1 then 1 else threshold
  }

  // How many answers, newest first, repeat the newest one.
  function RunLength(resp: seq<nat>): (n: nat)
    ensures n <= |resp|
    ensures forall i | 0 <= i < n :: resp[i] == resp[0]
    ensures n < |resp| ==> resp[n] != resp[0]
  {
    if |resp| <= 1 || resp[1] != resp[0] then |Take(resp, 1)|
    else 1 + RunLength(resp[1..])
  }

  // The rule: the last `threshold` answers agree on an address other than the current one.
  predicate Fires(obs: seq<Addr>, current: Addr, threshold: int) {
    var resp := Responding(obs);
    && |resp| >= Bar(threshold)
    && (forall i | 0 <= i < Bar(threshold) :: resp[i] == resp[0])
    && Some(resp[0]) != current
  }

  method DetectRouteChange(obs: seq<Addr>, current: Addr, threshold: int) returns (changed: bool, newIp: Addr)
    ensures changed <==> Fires(obs, current, threshold)
    ensures newIp == if changed then Some(Responding(obs)[0]) else None
  {
    var bar := if threshold < 1 then 1 else threshold;
    var candidate: Addr := None;
    var found := false;
    for i := 0 to |obs|
      invariant !found && Responding(obs) == Responding(obs[i..])
    {
      assert obs[i..][1..] == obs[i + 1..];
      if obs[i].Some? {
        candidate := obs[i];
        found := true;
        break;
      }
    }
    if !found {
      return false, None;
    }
    ghost var resp := Responding(obs);
    assert Some(resp[0]) == candidate;
    var consecutive := 0;
    for i := 0 to |obs|
      invariant consecutive <= |resp| && resp[consecutive..] == Responding(obs[i..])
      invariant forall k | 0 <= k < consecutive :: resp[k] == resp[0]
    {
      assert obs[i..][1..] == obs[i + 1..];
      if obs[i].None? {
        continue;
      } else if obs[i] == candidate {
        assert resp[consecutive] == resp[0];
        consecutive := consecutive + 1;
      } else {
        assert resp[consecutive] != resp[0];
        break;
      }
    }
    if consecutive >= bar && candidate != current {
      return true, candidate;
    }
    return false, None;
  }

  function Count(obs: seq<Addr>, a: nat): nat {
    multiset(obs)[Some(a)]
  }

  // The address a hop shows between confirmed changes: the first, newest first, with the highest count.
  predicate IsModal(obs: seq<Addr>, m: Addr) {
    if Responding(obs) == [] then m.None?
    else exists i | 0 <= i < |obs| ::
        && obs[i] == m && m.Some?
        && (forall k | 0 <= k < |obs| && obs[k].Some? :: Count(obs, obs[k].value) <= Count(obs, m.value))
        && (forall k | 0 <= k < i && obs[k].Some? :: Count(obs, obs[k].value) < Count(obs, m.value))
  }

  lemma ModalUnique(obs: seq<Addr>, a: Addr, b: Addr)
    requires IsModal(obs, a) && IsModal(obs, b)
    ensures a == b
  {
  }

  lemma {:induction false} RespondingSome(obs: seq<Addr>)
    ensures Responding(obs) == [] <==> forall i | 0 <= i < |obs| :: obs[i].None?
  {
    if obs != [] {
      RespondingSome(obs[1..]);
      assert forall i | 1 <= i < |obs| :: obs[i] == obs[1..][i - 1];
    }
  }

  // The winner among the first n observations.
  function Best(obs: seq<Addr>, n: nat): Addr
    requires n <= |obs|
  {
    if n == 0 then None
    else
      var b := Best(obs, n - 1);
      if obs[n - 1].Some? && (b.None? || Count(obs, obs[n - 1].value) > Count(obs, b.value)) then obs[n - 1] else b
  }

  function Modal(obs: seq<Addr>): Addr {
    Best(obs, |obs|)
  }

  lemma {:induction false} BestSoFar(obs: seq<Addr>, n: nat) returns (at: nat)
    requires n <= |obs|
    ensures Best(obs, n).None? ==> forall k | 0 <= k < n :: obs[k].None?
    ensures Best(obs, n).Some? ==> at < n && obs[at] == Best(obs, n)
    ensures Best(obs, n).Some? ==>
              forall k | 0 <= k < n && obs[k].Some? :: Count(obs, obs[k].value) <= Count(obs, Best(obs, n).value)
    ensures Best(obs, n).Some? ==>
              forall k | 0 <= k < at && obs[k].Some? :: Count(obs, obs[k].value) < Count(obs, Best(obs, n).value)
  {
    at := 0;
    if n > 0 {
      at := BestSoFar(obs, n - 1);
      if Best(obs, n) != Best(obs, n - 1) {
        at := n - 1;
      }
    }
  }

  /** The tentative identity is the most frequent answer, ties to the more recent; none iff nothing answered. */
  lemma ModalMeaning(obs: seq<Addr>)
    ensures IsModal(obs, Modal(obs))
  {
    var at := BestSoFar(obs, |obs|);
    RespondingSome(obs);
    if Modal(obs).Some? {
      assert obs[at] == Modal(obs);
    }
  }

  method CountSightings(obs: seq<Addr>) returns (counts: map<nat, nat>)
    ensures forall a :: a in counts <==> Some(a) in obs
    ensures forall a | a in counts :: counts[a] == Count(obs, a) > 0
  {
    counts := map[];
    for i := 0 to |obs|
      invariant forall a :: a in counts <==> Some(a) in obs[..i]
      invariant forall a | a in counts :: counts[a] == multiset(obs[..i])[Some(a)]
    {
      assert obs[..i + 1] == obs[..i] + [obs[i]];
      if obs[i].Some? {
        var a := obs[i].value;
        counts := counts[a := (if a in counts then counts[a] else 0) + 1];
      }
    }
    assert obs[..|obs|] == obs;
  }

  method ModalIP(obs: seq<Addr>) returns (modal: Addr)
    ensures modal == Modal(obs)
  {
    var counts := CountSightings(obs);
    var best := 0;
    modal := None;
    for i := 0 to |obs|
      invariant modal == Best(obs, i)
      invariant best == (if modal.Some? then Count(obs, modal.value) else 0)
    {
      if obs[i].None? {
        continue;
      }
      assert obs[i] in obs && obs[i].value in counts;
      if counts[obs[i].value] > best {
        best := counts[obs[i].value];
        modal := obs[i];
      }
    }
  }

  // ---- one hop over its whole life ----

  datatype Change = Change(oldIp: Addr, newIp: nat)

  // All observations of one hop, its displayed address, and the changes reported so far.
  datatype Track = Track(obs: seq<Addr>, current: Addr, changes: seq<Change>)

  const FRESH := Track([], None, [])

  // One observation seen through a window of `cap`: detect, else adopt a tentative address.
  function Observe(t: Track, x: Addr, threshold: int, cap: nat): Track {
    var obs := [x] + t.obs;
    var window := Take(obs, cap);
    if Fires(window, t.current, threshold) then
      var to := Responding(window)[0];
      Track(obs, Some(to), t.changes + [Change(t.current, to)])
    else
      Track(obs, if t.current.None? then Modal(window) else t.current, t.changes)
  }

  function ObserveAll(xs: seq<Addr>, threshold: int, cap: nat): Track {
    if xs == [] then FRESH else Observe(ObserveAll(xs[..|xs| - 1], threshold, cap), xs[|xs| - 1], threshold, cap)
  }

  lemma {:induction false} RespondingConcat(a: seq<Addr>, b: seq<Addr>)
    ensures Responding(a + b) == Responding(a) + Responding(b)
  {
    if a == [] {
      assert a + b == b;
    } else {
      assert (a + b)[1..] == a[1..] + b;
      RespondingConcat(a[1..], b);
    }
  }

  lemma WindowIsPrefix(obs: seq<Addr>, cap: nat)
    ensures Responding(Take(obs, cap)) <= Responding(obs)
  {
    if |obs| > cap {
      assert obs == obs[..cap] + obs[cap..];
      RespondingConcat(obs[..cap], obs[cap..]);
    }
  }

  /** The windowed detector fires exactly when the detector over the hop's entire history does and
      the answers it needs all lie within the window. */
  lemma WindowedIff(obs: seq<Addr>, current: Addr, threshold: int, cap: nat)
    ensures Fires(Take(obs, cap), current, threshold) <==>
              Fires(obs, current, threshold) && |Responding(Take(obs, cap))| >= Bar(threshold)
    ensures Fires(Take(obs, cap), current, threshold) ==> Responding(Take(obs, cap))[0] == Responding(obs)[0]
  {
    WindowIsPrefix(obs, cap);
  }

  // Nothing more to report: rerunning the detector on the same window finds no change.
  predicate Quiescent(t: Track, threshold: int, cap: nat) {
    !Fires(Take(t.obs, cap), t.current, threshold)
  }

  /** After every observation the detector is quiescent. */
  lemma ObserveQuiesces(t: Track, x: Addr, threshold: int, cap: nat)
    ensures Quiescent(Observe(t, x, threshold, cap), threshold, cap)
  {
    var window := Take([x] + t.obs, cap);
    ModalMeaning(window);
  }

  /** So only an answer can report a change: a miss never does. */
  lemma MissIsSilent(t: Track, threshold: int, cap: nat)
    requires Quiescent(t, threshold, cap)
    ensures Observe(t, None, threshold, cap).changes == t.changes
  {
    var obs := [None] + t.obs;
    if cap > 0 {
      assert Take(obs, cap) == [None] + Take(t.obs, cap - 1);
      assert Responding(Take(obs, cap)) == Responding(Take(t.obs, cap - 1));
      WindowIsPrefix(Take(t.obs, cap), cap - 1);
      assert Take(Take(t.obs, cap), cap - 1) == Take(t.obs, cap - 1);
    }
  }

  // Answers at the newest end that agree with each other but not with the displayed address.
  function Against(resp: seq<nat>, current: Addr): nat {
    if resp == [] || Some(resp[0]) == current then 0 else RunLength(resp)
  }

  lemma RunAtLeast(resp: seq<nat>, n: nat)
    requires 0 < n <= |resp| && forall i | 0 <= i < n :: resp[i] == resp[0]
    ensures RunLength(resp) >= n
  {
  }

  predicate Linked(changes: seq<Change>) {
    && (forall i | 0 <= i < |changes| :: changes[i].oldIp != Some(changes[i].newIp))
    && (forall i | 0 < i < |changes| :: changes[i].oldIp == Some(changes[i - 1].newIp))
  }

  predicate TrackInv(t: Track, threshold: int, cap: nat) {
    var resp := Responding(t.obs);
    && |t.changes| * Bar(threshold) + Against(resp, t.current) <= |resp|
    && Linked(t.changes)
    && (t.changes != [] ==> t.current == Some(t.changes[|t.changes| - 1].newIp))
    && (resp != [] ==> t.current.Some?)
    && (threshold >= 2 ==> forall i | 0 <= i < |t.changes| :: t.changes[i].oldIp.Some?)
    && Quiescent(t, threshold, cap)
  }

  lemma AgainstStep(resp: seq<nat>, x: nat, current: Addr)
    ensures Against([x] + resp, current) <= Against(resp, current) + 1
  {
    assert ([x] + resp)[1..] == resp;
  }

  lemma TentativeAgainst(resp: seq<nat>, current: Addr)
    ensures Against(resp, current) <= Against(resp, None)
  {
  }

  lemma MissKeeps(t: Track, threshold: int, cap: nat)
    requires cap >= 1 && TrackInv(t, threshold, cap)
    ensures TrackInv(Observe(t, None, threshold, cap), threshold, cap)
  {
    MissIsSilent(t, threshold, cap);
    ObserveQuiesces(t, None, threshold, cap);
    var obs := [None] + t.obs;
    assert Responding(obs) == Responding(t.obs);
    WindowIsPrefix(obs, cap);
    ModalMeaning(Take(obs, cap));
    if Responding(t.obs) == [] {
      assert Responding(Take(obs, cap)) == [];
    }
    hide Fires, Take, Modal;
  }

  // Reporting a change uses up `threshold` fresh answers.
  lemma FiringPays(t: Track, x: nat, threshold: int, cap: nat)
    requires TrackInv(t, threshold, cap) && Fires(Take([Some(x)] + t.obs, cap), t.current, threshold)
    ensures (|t.changes| + 1) * Bar(threshold) <= |Responding(t.obs)| + 1
    ensures Responding(Take([Some(x)] + t.obs, cap))[0] == x && t.current != Some(x)
  {
    var obs, resp := [Some(x)] + t.obs, Responding(t.obs);
    assert obs[1..] == t.obs;
    WindowedIff(obs, t.current, threshold, cap);
    assert Responding(obs) == [x] + resp;
    hide Responding, Take, RunLength;
    RunPays([x] + resp, t.current, Bar(threshold), |t.changes| * Bar(threshold));
    AgainstStep(resp, x, t.current);
    assert (|t.changes| + 1) * Bar(threshold) == |t.changes| * Bar(threshold) + Bar(threshold);
  }

  lemma RunPays(resp: seq<nat>, current: Addr, bar: nat, used: nat)
    requires 0 < bar <= |resp| && (forall i | 0 <= i < bar :: resp[i] == resp[0]) && Some(resp[0]) != current
    ensures used + Against(resp, current) <= |resp| ==> used + bar <= |resp|
  {
    RunAtLeast(resp, bar);
  }

  // A first answer that reports nothing is adopted as the tentative address.
  lemma Adopted(t: Track, x: nat, cap: nat)
    requires cap >= 1
    ensures Modal(Take([Some(x)] + t.obs, cap)).Some?
  {
    var window := Take([Some(x)] + t.obs, cap);
    assert window[0] == Some(x);
    ModalMeaning(window);
    RespondingSome(window);
  }

  lemma AnswerKeeps(t: Track, x: nat, threshold: int, cap: nat)
    requires cap >= 1 && TrackInv(t, threshold, cap)
    ensures TrackInv(Observe(t, Some(x), threshold, cap), threshold, cap)
  {
    hide Modal, RunLength;
    ObserveQuiesces(t, Some(x), threshold, cap);
    var obs, resp := [Some(x)] + t.obs, Responding(t.obs);
    var window := Take(obs, cap);
    assert obs[1..] == t.obs;
    assert Responding(obs) == [x] + resp;
    hide Responding, Take;
    AgainstStep(resp, x, t.current);
    TentativeAgainst([x] + resp, Modal(window));
    Adopted(t, x, cap);
    if Fires(window, t.current, threshold) {
      FiringPays(t, x, threshold, cap);
      FirstChangeOld(t, x, threshold, cap);
      assert Against([x] + resp, Some(x)) == 0;
    }
    hide Fires, Quiescent, Against;
  }

  // With a threshold of two or more the old address is known: the first answer was adopted.
  lemma FirstChangeOld(t: Track, x: nat, threshold: int, cap: nat)
    requires TrackInv(t, threshold, cap) && Fires(Take([Some(x)] + t.obs, cap), t.current, threshold)
    ensures threshold >= 2 ==> t.current.Some?
  {
    assert ([Some(x)] + t.obs)[1..] == t.obs;
    WindowedIff([Some(x)] + t.obs, t.current, threshold, cap);
  }

  lemma ObserveKeeps(t: Track, x: Addr, threshold: int, cap: nat)
    requires cap >= 1 && TrackInv(t, threshold, cap)
    ensures TrackInv(Observe(t, x, threshold, cap), threshold, cap)
  {
    if x.None? {
      MissKeeps(t, threshold, cap);
    } else {
      AnswerKeeps(t, x.value, threshold, cap);
    }
  }

  lemma {:induction false} TrackAlways(xs: seq<Addr>, threshold: int, cap: nat)
    requires cap >= 1
    ensures TrackInv(ObserveAll(xs, threshold, cap), threshold, cap)
  {
    if xs != [] {
      hide TrackInv, Observe;
      TrackAlways(xs[..|xs| - 1], threshold, cap);
      ObserveKeeps(ObserveAll(xs[..|xs| - 1], threshold, cap), xs[|xs| - 1], threshold, cap);
    }
  }

  lemma {:induction false} TrackRecordsAll(xs: seq<Addr>, threshold: int, cap: nat)
    ensures ObserveAll(xs, threshold, cap).obs == Reversed(xs)
  {
    if xs != [] {
      hide Fires, Modal, Take, Responding;
      TrackRecordsAll(xs[..|xs| - 1], threshold, cap);
      assert Observe(ObserveAll(xs[..|xs| - 1], threshold, cap), xs[|xs| - 1], threshold, cap).obs
          == [xs[|xs| - 1]] + Reversed(xs[..|xs| - 1]);
      hide Observe;
      ReversedLast(xs);
    }
  }

  lemma ReversedLast<T>(xs: seq<T>)
    requires xs != []
    ensures Reversed(xs) == [xs[|xs| - 1]] + Reversed(xs[..|xs| - 1])
  {
  }

  /** A change is reported on an observation exactly when the last `threshold` answers in the hop's
      entire history agree on an address other than the displayed one and all lie within the window. */
  lemma ReportedIff(xs: seq<Addr>, x: Addr, threshold: int, cap: nat)
    ensures var t := ObserveAll(xs, threshold, cap);
            var all := Reversed(xs + [x]);
            Observe(t, x, threshold, cap).changes ==
            if Fires(all, t.current, threshold) && |Responding(Take(all, cap))| >= Bar(threshold)
            then t.changes + [Change(t.current, Responding(all)[0])] else t.changes
  {
    var t := ObserveAll(xs, threshold, cap);
    hide Modal, Fires, Take, Responding;
    TrackRecordsAll(xs, threshold, cap);
    ReversedLast(xs + [x]);
    assert (xs + [x])[..|xs|] == xs;
    hide Reversed, ObserveAll;
    WindowedIff([x] + t.obs, t.current, threshold, cap);
  }

  /** Over any history: every reported change costs `threshold` answers, each change starts from
      where the previous one ended and ends elsewhere, and with a threshold of at least two the old
      address is always known. */
  lemma ChangesAreRare(xs: seq<Addr>, threshold: int, cap: nat)
    requires cap >= 1
    ensures var t := ObserveAll(xs, threshold, cap);
            && |t.changes| * Bar(threshold) <= |Responding(t.obs)|
            && Linked(t.changes)
            && (threshold >= 2 ==> forall i | 0 <= i < |t.changes| :: t.changes[i].oldIp.Some?)
  {
    TrackAlways(xs, threshold, cap);
  }

  lemma RespondingShort(obs: seq<Addr>)
    ensures |Responding(obs)| <= |obs|
  {
  }

  /** A threshold the window cannot hold switches detection off altogether. */
  lemma {:induction false} ThresholdBeyondWindow(xs: seq<Addr>, threshold: int, cap: nat)
    requires threshold > cap >= 1
    ensures ObserveAll(xs, threshold, cap).changes == []
  {
    if xs != [] {
      ThresholdBeyondWindow(xs[..|xs| - 1], threshold, cap);
      var t := ObserveAll(xs[..|xs| - 1], threshold, cap);
      RespondingShort(Take([xs[|xs| - 1]] + t.obs, cap));
    }
  }

  // One answer from address 0, then k from address 1.
  function Switch(k: nat): seq<Addr> {
    [Some(0)] + seq(k, _ => Some(1))
  }

  lemma {:induction false} SwitchAnswers(k: nat)
    ensures Responding(Reversed(Switch(k))) == seq(k, _ => 1) + [0]
  {
    if k == 0 {
      assert Reversed(Switch(0)) == [Some(0)];
    } else {
      SwitchAnswers(k - 1);
      assert Reversed(Switch(k)) == [Some(1)] + Reversed(Switch(k - 1));
      assert Reversed(Switch(k))[1..] == Reversed(Switch(k - 1));
      assert seq(k, _ => 1) + [0] == [1] + (seq(k - 1, _ => 1) + [0]);
    }
  }

  // Until a change is reported the hop keeps the address that answered first.
  lemma {:induction false} SwitchKeepsFirst(k: nat, threshold: int, cap: nat)
    requires cap >= 1 && threshold >= 2
    ensures var t := ObserveAll(Switch(k), threshold, cap); t.changes == [] ==> t.current == Some(0)
  {
    if k == 0 {
      FirstIsTentative(threshold, cap);
    } else {
      hide Observe, ObserveAll, Switch;
      SwitchKeepsFirst(k - 1, threshold, cap);
      SwitchStep(k, threshold, cap);
      NoChangeNoMove(ObserveAll(Switch(k - 1), threshold, cap), Some(1), threshold, cap);
    }
  }

  lemma SwitchStep(k: nat, threshold: int, cap: nat)
    requires k > 0
    ensures ObserveAll(Switch(k), threshold, cap)
            == Observe(ObserveAll(Switch(k - 1), threshold, cap), Some(1), threshold, cap)
  {
    hide Observe;
    assert Switch(k)[..k] == Switch(k - 1);
  }

  lemma NoChangeNoMove(t: Track, x: Addr, threshold: int, cap: nat)
    ensures var u := Observe(t, x, threshold, cap);
            u.changes == [] ==> t.changes == [] && (t.current.Some? ==> u.current == t.current)
  {
    hide Fires, Modal, Responding, Take;
  }

  lemma FirstIsTentative(threshold: int, cap: nat)
    requires cap >= 1 && threshold >= 2
    ensures ObserveAll(Switch(0), threshold, cap) == Track([Some(0)], Some(0), [])
  {
    var xs := Switch(0);
    assert xs == [Some(0)] && xs[..0] == [];
    assert [Some(0)] + FRESH.obs == xs;
    assert Responding(xs[1..]) == [] && Take(xs, cap) == xs;
    Adopted(FRESH, 0, cap);
    ModalMeaning(xs);
  }

  /** Exactly when detection is on: some history of a hop reports a change if and only if the window can hold
      as many observations as the threshold asks for. */
  lemma DetectsIff(threshold: int, cap: nat)
    requires cap >= 1
    ensures (exists xs :: ObserveAll(xs, threshold, cap).changes != []) <==> Bar(threshold) <= cap
  {
    if Bar(threshold) > cap {
      forall xs
        ensures ObserveAll(xs, threshold, cap).changes == []
      {
        ThresholdBeyondWindow(xs, threshold, cap);
      }
    } else if threshold < 2 {
      var xs: seq<Addr> := [Some(0)];
      assert xs[..0] == [] && [Some(0)] + FRESH.obs == xs && Take(xs, cap) == xs;
      assert Responding(xs[1..]) == [];
      assert ObserveAll(xs, threshold, cap) == Observe(FRESH, Some(0), threshold, cap);
      assert ObserveAll(xs, threshold, cap).changes != [];
    } else {
      SwitchDetected(threshold, cap);
      assert ObserveAll(Switch(threshold), threshold, cap).changes != [];
    }
  }

  lemma SwitchDetected(threshold: int, cap: nat)
    requires 2 <= threshold <= cap
    ensures ObserveAll(Switch(threshold), threshold, cap).changes != []
  {
    hide Fires, Responding, Take, Observe, Reversed;
    var past := Switch(threshold - 1);
    assert past + [Some(1)] == Switch(threshold);
    assert Switch(threshold)[..threshold] == past;
    hide Switch;
    SwitchFires(threshold);
    SwitchKeepsFirst(threshold - 1, threshold, cap);
    WindowHolds(threshold, cap);
    ReportedIff(past, Some(1), threshold, cap);
  }

  lemma SwitchFires(threshold: int)
    requires threshold >= 2
    ensures Fires(Reversed(Switch(threshold)), Some(0), threshold)
  {
    SwitchAnswers(threshold);
    hide Responding, Reversed, Switch;
    assert (seq(threshold, _ => 1) + [0])[0] == 1;
  }

  // Everything in this history answers, so the window holds as many answers as observations.
  lemma WindowHolds(threshold: int, cap: nat)
    requires 2 <= threshold <= cap
    ensures |Responding(Take(Reversed(Switch(threshold)), cap))| >= threshold
  {
    var all := Reversed(Switch(threshold));
    AllAnswer(Take(all, cap));
  }

  lemma {:induction false} AllAnswer(obs: seq<Addr>)
    requires forall i | 0 <= i < |obs| :: obs[i].Some?
    ensures |Responding(obs)| == |obs|
  {
    if obs != [] {
      AllAnswer(obs[1..]);
    }
  }
}
