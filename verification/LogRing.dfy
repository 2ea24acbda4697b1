/** The diagnostics log ring (internal/logring/logring.go): a fixed number of slots indexed by sequence
    number, and clients that poll with the last number they saw. */
module LogRing {
  datatype Entry = Entry(number: nat, ts: int, level: string, msg: string)

  function Least(a: nat, b: nat): nat {
    if a < b then a else b
  }

  // What a client that has seen up to `after` gets, of everything ever logged.
  function Fresh(log: seq<Entry>, after: int, limit: int, cap: nat): (r: seq<Entry>)
    ensures |r| <= cap && (limit >= 1 ==> |r| <= limit)
    ensures |r| <= |log| && r == log[|log| - |r|..]
  {
    var missed := if after < 0 then |log| else if after >= |log| then 0 else |log| - (after + 1);
    if limit < 1 then [] else log[|log| - Least(missed, Least(cap, Least(limit, |log|)))..]
  }

  class Ring {
    const cap: nat
    var buf: seq<Entry>
    var next: nat
    ghost var log: seq<Entry>     // everything ever appended

    ghost predicate Valid()
      reads this
    {
      && cap >= 1 && next == |log| && |buf| == Least(next, cap)
      && (forall i | 0 <= i < |log| :: log[i].number == i)
      && InSlots()
    }

    // Each entry still held is in its slot.
    ghost predicate InSlots()
      requires cap >= 1 && next == |log| && |buf| == Least(next, cap)
      reads this
    {
      forall i | next - |buf| <= i < next :: buf[i % cap] == log[i]
    }

    constructor (capacity: int)
      ensures Valid() && log == [] && cap == if capacity < 1 then 1 else capacity
    {
      cap := if capacity < 1 then 1 else capacity;
      buf, next, log := [], 0, [];
    }

    /** The newest cap entries stay readable; the slot overwritten is the oldest one's. */
    method Append(ts: int, level: string, msg: string)
      requires Valid()
      modifies this
      ensures Valid() && log == old(log) + [Entry(old(next), ts, level, msg)]
    {
      var e := Entry(next, ts, level, msg);
      if |buf| < cap {
        ModSmall(next, cap);
        buf := buf + [e];
        forall i | 0 <= i < next
          ensures i % cap == i
        {
          ModSmall(i, cap);
        }
      } else {
        forall i | next - cap < i < next
          ensures i % cap != next % cap
        {
          ModApart(i, next, cap);
        }
        buf := buf[next % cap := e];
      }
      log := log + [e];
      next := next + 1;
    }

    /** What was logged after `afterSeq` and is still held, oldest first, cut to the newest `limit`. */
    method Since(afterSeq: int, limit: int) returns (entries: seq<Entry>, latest: int)
      requires Valid()
      ensures entries == Fresh(log, afterSeq, limit, cap)
      ensures latest == |log| - 1
    {
      hide InSlots;
      latest := next - 1;
      if limit < 1 || |buf| == 0 {
        assert log[|log|..] == [];
        return [], latest;
      }
      var oldest := next - |buf|;
      var start := afterSeq + 1;
      if start < oldest {
        start := oldest;
      }
      var n := next - start;
      if n <= 0 {
        assert log[|log|..] == [];
        return [], latest;
      }
      if n > limit {
        start := next - limit;
      }
      entries := Copy(start);
    }

    method Copy(start: nat) returns (entries: seq<Entry>)
      requires Valid() && next - |buf| <= start < next
      ensures entries == log[start..]
    {
      entries := [];
      for s := start to next
        invariant entries == log[start..s]
      {
        assert buf[s % cap] == log[s];
        entries := entries + [buf[s % cap]];
      }
      assert log[start..next] == log[start..];
    }
  }

  lemma ModSmall(i: nat, cap: nat)
    requires i < cap
    ensures i % cap == i
  {
  }

  lemma ModApart(i: nat, j: nat, cap: nat)
    requires cap >= 1 && i < j < i + cap
    ensures i % cap != j % cap
  {
    if i % cap == j % cap {
      var a, b := i / cap, j / cap;
      assert j - i == b * cap - a * cap == (b - a) * cap;
      Rounds(b - a, cap);
    }
  }

  lemma Rounds(d: int, cap: nat)
    ensures d >= 1 ==> d * cap >= cap
    ensures d <= 0 ==> d * cap <= 0
  {
  }

  // ---- polling ----

  /** A poll misses nothing exactly when no more than the ring and the limit hold has been logged since
      the one before; one that does is as full as they allow. */
  lemma PollIsCompleteIff(log: seq<Entry>, after: int, limit: int, cap: nat)
    requires -1 <= after < |log|
    ensures Fresh(log, after, limit, cap) == log[after + 1..] <==>
            after + 1 == |log| || (limit >= 1 && |log| - (after + 1) <= cap && |log| - (after + 1) <= limit)
    ensures Fresh(log, after, limit, cap) != log[after + 1..] && limit >= 1 ==>
              |Fresh(log, after, limit, cap)| == Least(cap, limit)
  {
    if Fresh(log, after, limit, cap) == log[after + 1..] {
      assert |log[after + 1..]| == |log| - (after + 1);
    }
  }

  datatype Step = Log(ts: int, level: string, msg: string) | PollFor(limit: int)

  // A client: what was logged, the last number it was told, and all it was given.
  datatype Client = Client(log: seq<Entry>, seen: int, got: seq<Entry>)

  function Take(cap: nat, c: Client, s: Step): Client {
    match s
    case Log(ts, level, msg) => c.(log := c.log + [Entry(|c.log|, ts, level, msg)])
    case PollFor(limit) => Client(c.log, |c.log| - 1, c.got + Fresh(c.log, c.seen, limit, cap))
  }

  function Poll(cap: nat, ss: seq<Step>): Client {
    if ss == [] then Client([], -1, []) else Take(cap, Poll(cap, ss[..|ss| - 1]), ss[|ss| - 1])
  }

  // Each poll comes before the ring, or its own limit, is overrun.
  predicate Prompt(cap: nat, ss: seq<Step>) {
    ss == [] ||
    (Prompt(cap, ss[..|ss| - 1]) &&
     (ss[|ss| - 1].PollFor? ==>
        var c := Poll(cap, ss[..|ss| - 1]);
        c.seen + 1 == |c.log| || (ss[|ss| - 1].limit >= 1 && |c.log| - (c.seen + 1) <= Least(cap, ss[|ss| - 1].limit))))
  }

  /** Whatever the polls' timing, a client is given every entry at most once, in order, as logged. */
  lemma {:induction false} PollsNeverRepeat(cap: nat, ss: seq<Step>)
    ensures var c := Poll(cap, ss);
            && -1 <= c.seen < |c.log|
            && (forall i | 0 <= i < |c.log| :: c.log[i].number == i)
            && (forall i, j | 0 <= i < j < |c.got| :: c.got[i].number < c.got[j].number)
            && (forall i | 0 <= i < |c.got| :: c.got[i].number <= c.seen && c.log[c.got[i].number] == c.got[i])
  {
    if ss != [] {
      var prior, s := Poll(cap, ss[..|ss| - 1]), ss[|ss| - 1];
      PollsNeverRepeat(cap, ss[..|ss| - 1]);
      if s.PollFor? {
        FreshIsNew(prior.log, prior.seen, s.limit, cap);
      }
    }
  }

  lemma FreshIsNew(log: seq<Entry>, seen: int, limit: int, cap: nat)
    requires -1 <= seen < |log| && forall i | 0 <= i < |log| :: log[i].number == i
    ensures var r := Fresh(log, seen, limit, cap);
            forall i | 0 <= i < |r| :: seen < r[i].number == |log| - |r| + i && log[r[i].number] == r[i]
  {
    var r := Fresh(log, seen, limit, cap);
    assert forall i | 0 <= i < |r| :: r[i] == log[|log| - |r| + i];
  }

  lemma PollCompletes(c: Client, limit: int, cap: nat)
    requires -1 <= c.seen < |c.log| && c.got == c.log[..c.seen + 1]
    requires c.seen + 1 == |c.log| || (limit >= 1 && |c.log| - (c.seen + 1) <= Least(cap, limit))
    ensures c.got + Fresh(c.log, c.seen, limit, cap) == c.log
  {
    PollIsCompleteIff(c.log, c.seen, limit, cap);
  }

  lemma LogKeeps(log: seq<Entry>, longer: seq<Entry>, n: nat)
    requires n <= |log| <= |longer| && longer[..|log|] == log
    ensures longer[..n] == log[..n]
  {
  }

  /** And a client that polls promptly has been given, by each poll, exactly everything logged. */
  lemma {:induction false} PromptPollsMissNothing(cap: nat, ss: seq<Step>)
    requires Prompt(cap, ss)
    ensures var c := Poll(cap, ss); -1 <= c.seen < |c.log| && c.got == c.log[..c.seen + 1]
  {
    PollsNeverRepeat(cap, ss);
    if ss != [] {
      hide Fresh;
      hide Least;
      var prior, s := Poll(cap, ss[..|ss| - 1]), ss[|ss| - 1];
      PromptPollsMissNothing(cap, ss[..|ss| - 1]);
      if s.PollFor? {
        PollCompletes(prior, s.limit, cap);
      } else {
        LogKeeps(prior.log, Poll(cap, ss).log, prior.seen + 1);
      }
    }
  }
}
