/** The ICMP prober's bookkeeping (internal/probe/icmp.go): handing out 16-bit sequence numbers,
    finding the probe a reply belongs to, and reading the numbers back out of a quoted packet. */
module Prober {
  import opened Wrappers

  const SEQS := 65536

  // ---- the allocator ----

  // Ticket t is the t-th value the 16-bit counter has taken since start; its number is t mod 65536.
  function SeqOf(ticket: nat): (q: nat)
    ensures q < SEQS
  {
    ticket % SEQS
  }

  // The first ticket from c on whose number is free, within so many tries.
  function FirstFree(busy: set<nat>, c: nat, tries: nat): (r: Option<nat>)
    ensures r.Some? ==> c <= r.value < c + tries && SeqOf(r.value) !in busy
    ensures r.Some? ==> forall t | c <= t < r.value :: SeqOf(t) in busy
    ensures r.None? ==> forall t | c <= t < c + tries :: SeqOf(t) in busy
    decreases tries
  {
    if tries == 0 then None
    else if SeqOf(c) !in busy then Some(c)
    else FirstFree(busy, c + 1, tries - 1)
  }

  // Every number comes up within 65536 values of the counter.
  lemma ComesUp(c: nat, q: nat) returns (t: nat)
    requires q < SEQS
    ensures c <= t < c + SEQS && SeqOf(t) == q
  {
    var r := c % SEQS;
    if q >= r {
      t := c + (q - r);
      assert t == (c / SEQS) * SEQS + q;
    } else {
      t := c + (SEQS + q - r);
      assert t == (c / SEQS + 1) * SEQS + q;
    }
  }

  // FirstFree, one try on.
  lemma OneTry(busy: set<nat>, c: nat, tries: nat)
    requires tries > 0
    ensures FirstFree(busy, c, tries) == if SeqOf(c) !in busy then Some(c) else FirstFree(busy, c + 1, tries - 1)
  {
  }

  /** A full round fails exactly when all 65536 numbers are pending. */
  lemma FullRoundFailsIff(busy: set<nat>, c: nat)
    ensures FirstFree(busy, c, SEQS).None? <==> forall q | 0 <= q < SEQS :: q in busy
  {
    hide FirstFree;
    if FirstFree(busy, c, SEQS).None? {
      forall q | 0 <= q < SEQS
        ensures q in busy
      {
        var t := ComesUp(c, q);
      }
    } else {
      assert SeqOf(FirstFree(busy, c, SEQS).value) < SEQS;
    }
  }

  /** Two tickets with one number are at least a whole round apart. */
  lemma SameNumberApart(t: nat, u: nat)
    requires SeqOf(t) == SeqOf(u) && t < u
    ensures t + SEQS <= u
  {
    assert t == (t / SEQS) * SEQS + SeqOf(t) && u == (u / SEQS) * SEQS + SeqOf(u);
  }

  // ---- probes, replies and the read loop, interleaved ----

  datatype Mark =
    | Registered(ticket: nat)
    | Unregistered(ticket: nat)
    | LookedUp(ticket: nat, origin: nat)    // the read loop found ticket's channel for origin's reply

  datatype History = Begin | Then(past: History, mark: Mark)

  // channels: what each ticket's one-slot channel holds, as the ticket of the probe that was answered.
  datatype State = State(
    cursor: nat,
    pending: map<nat, nat>,
    channels: map<nat, Option<nat>>,
    carrying: Option<(nat, nat)>,           // the read loop's channel and reply, lock released
    closed: bool,
    log: History)

  const START := State(0, map[], map[], None, false, Begin)

  datatype Event =
    | Register
    | Unregister(ticket: nat)
    | Lookup(origin: nat)                   // a reply to origin's packet arrives
    | Send
    | Close

  predicate Live(log: History, t: nat) {
    match log
    case Begin => false
    case Then(past, Registered(u)) => u == t || Live(past, t)
    case Then(past, Unregistered(u)) => u != t && Live(past, t)
    case Then(past, _) => Live(past, t)
  }

  predicate Issued(log: History, t: nat) {
    match log
    case Begin => false
    case Then(past, Registered(u)) => u == t || Issued(past, t)
    case Then(past, _) => Issued(past, t)
  }

  // A reply to origin was looked up for t while t's probe was registered.
  predicate FoundWhileLive(log: History, t: nat, origin: nat) {
    match log
    case Begin => false
    case Then(past, LookedUp(u, o)) => (u == t && o == origin && Live(past, t)) || FoundWhileLive(past, t, origin)
    case Then(past, _) => FoundWhileLive(past, t, origin)
  }

  // A probe unregisters once, after registering; a reply answers a packet that was sent.
  predicate Possible(s: State, e: Event) {
    match e
    case Unregister(t) => Live(s.log, t)
    case Lookup(origin) => Issued(s.log, origin) && s.carrying.None?
    case _ => true
  }

  function Apply(s: State, e: Event): State {
    match e
    case Register =>
      if s.closed then s
      else
        var r := FirstFree(s.pending.Keys, s.cursor, SEQS);
        if r.None? then s.(cursor := s.cursor + SEQS)
        else
          s.(cursor := r.value + 1, pending := s.pending[SeqOf(r.value) := r.value],
             channels := s.channels[r.value := None], log := Then(s.log, Registered(r.value)))
    case Unregister(t) => s.(pending := s.pending - {SeqOf(t)}, log := Then(s.log, Unregistered(t)))
    case Lookup(origin) =>
      if SeqOf(origin) !in s.pending then s
      else
        var t := s.pending[SeqOf(origin)];
        s.(carrying := Some((t, origin)), log := Then(s.log, LookedUp(t, origin)))
    case Send =>
      if s.carrying.None? then s
      else
        var (t, origin) := s.carrying.value;
        var held := if t in s.channels then s.channels[t] else None;
        s.(carrying := None, channels := s.channels[t := if held.None? then Some(origin) else held])
    case Close => s.(closed := true)
  }

  function Run(es: seq<Event>): State {
    if es == [] then START else Apply(Run(es[..|es| - 1]), es[|es| - 1])
  }

  predicate PossibleRun(es: seq<Event>) {
    es == [] || (PossibleRun(es[..|es| - 1]) && Possible(Run(es[..|es| - 1]), es[|es| - 1]))
  }

  // Exactly the live probes are pending, each under its own number, and each is the latest to have it.
  ghost predicate PendingInv(s: State) {
    && (forall t: nat | Live(s.log, t) :: t < s.cursor && SeqOf(t) in s.pending && s.pending[SeqOf(t)] == t)
    && (forall q | q in s.pending :: SeqOf(s.pending[q]) == q && Live(s.log, s.pending[q]))
    && (forall t: nat, o: nat | Live(s.log, t) && Issued(s.log, o) && SeqOf(o) == SeqOf(t) :: o <= t)
    && (forall o: nat | Issued(s.log, o) :: o < s.cursor)
  }

  predicate Genuine(log: History, t: nat, origin: nat) {
    FoundWhileLive(log, t, origin) && SeqOf(t) == SeqOf(origin) && origin <= t
  }

  ghost predicate ReplyInv(s: State) {
    && (forall t | t in s.channels && s.channels[t].Some? :: Genuine(s.log, t, s.channels[t].value))
    && (s.carrying.Some? ==> Genuine(s.log, s.carrying.value.0, s.carrying.value.1))
  }

  lemma RegisterKeepsPending(s: State)
    requires PendingInv(s)
    ensures PendingInv(Apply(s, Register))
  {
    hide FirstFree, SeqOf;
    var r := FirstFree(s.pending.Keys, s.cursor, SEQS);
    if !s.closed && r.Some? {
      var after := Apply(s, Register);
      assert SeqOf(r.value) !in s.pending;
      assert forall t: nat :: Live(after.log, t) <==> t == r.value || Live(s.log, t);
      assert forall t: nat :: Issued(after.log, t) <==> t == r.value || Issued(s.log, t);
    }
  }

  lemma UnregisterKeepsPending(s: State, t: nat)
    requires PendingInv(s) && Live(s.log, t)
    ensures PendingInv(Apply(s, Unregister(t)))
  {
    hide SeqOf;
    var after := Apply(s, Unregister(t));
    forall u: nat | Live(after.log, u)
      ensures SeqOf(u) in after.pending && after.pending[SeqOf(u)] == u
    {
      assert Live(s.log, u) && Live(s.log, t);
    }
    forall q | q in after.pending
      ensures Live(after.log, after.pending[q])
    {
      assert s.pending[SeqOf(t)] == t;
    }
    assert forall o: nat :: Issued(after.log, o) <==> Issued(s.log, o);
  }

  lemma StepPending(s: State, e: Event)
    requires PendingInv(s) && Possible(s, e)
    ensures PendingInv(Apply(s, e))
  {
    hide FirstFree, SeqOf;
    match e
    case Register => RegisterKeepsPending(s);
    case Unregister(t) => UnregisterKeepsPending(s, t);
    case Lookup(_) =>
      var log := Apply(s, e).log;
      assert forall u: nat :: Live(log, u) <==> Live(s.log, u);
      assert forall u: nat :: Issued(log, u) <==> Issued(s.log, u);
    case _ =>
  }

  lemma StepReplies(s: State, e: Event)
    requires PendingInv(s) && ReplyInv(s) && Possible(s, e)
    ensures ReplyInv(Apply(s, e))
  {
    hide FirstFree, SeqOf;
  }

  lemma {:induction false} RepliesAlways(es: seq<Event>)
    requires PossibleRun(es)
    ensures PendingInv(Run(es)) && ReplyInv(Run(es))
  {
    if es != [] {
      hide PendingInv, ReplyInv, Apply, Possible;
      RepliesAlways(es[..|es| - 1]);
      StepPending(Run(es[..|es| - 1]), es[|es| - 1]);
      StepReplies(Run(es[..|es| - 1]), es[|es| - 1]);
    }
  }

  /** Whatever else is in flight: a reply in a probe's channel was found for it while it was
      registered, and answers its own packet or one at least 65536 numbers back; so a reply found
      before a probe unregisters never reaches a later probe that reuses its number. */
  lemma RepliesReachTheirProbe(es: seq<Event>, t: nat)
    requires PossibleRun(es) && t in Run(es).channels && Run(es).channels[t].Some?
    ensures var s := Run(es); var origin := s.channels[t].value;
            && FoundWhileLive(s.log, t, origin)
            && SeqOf(origin) == SeqOf(t)
            && (origin == t || origin + SEQS <= t)
  {
    RepliesAlways(es);
    var origin := Run(es).channels[t].value;
    if origin < t {
      SameNumberApart(origin, t);
    }
  }

  /** No two probes ever wait under one number at once, and a number given out again is a whole round
      of the counter later. */
  lemma NumbersAreExclusive(es: seq<Event>, t: nat, u: nat)
    requires PossibleRun(es)
    requires Issued(Run(es).log, t) && Issued(Run(es).log, u) && t < u && SeqOf(t) == SeqOf(u)
    ensures t + SEQS <= u
    ensures !(Live(Run(es).log, t) && Live(Run(es).log, u))
  {
    RepliesAlways(es);
    SameNumberApart(t, u);
  }

  // ---- the prober object ----

  datatype ReplyType = EchoReply | TimeExceeded | DestUnreachable

  datatype Reply = Reply(from: string, kind: ReplyType)

  // A channel of capacity one.
  class Channel {
    var slot: Option<Reply>

    constructor ()
      ensures slot == None
    {
      slot := None;
    }

    // Non-blocking: a full channel keeps what it has.
    method Offer(r: Reply)
      modifies this
      ensures slot == if old(slot).Some? then old(slot) else Some(r)
    {
      if slot.None? {
        slot := Some(r);
      }
    }
  }

  class Allocator {
    var nextSeq: nat
    var pending: map<nat, Channel>
    var closed: bool
    ghost var cursor: nat

    ghost predicate Valid()
      reads this
    {
      nextSeq == SeqOf(cursor) && forall q | q in pending :: q < SEQS
    }

    constructor ()
      ensures Valid() && !closed && pending == map[] && nextSeq == 0 && cursor == 0
    {
      nextSeq, pending, closed, cursor := 0, map[], false, 0;
    }

    /** Takes the first number free from nextSeq on, or fails: exactly when closed or when every number
        is pending. */
    method Register() returns (r: Option<(nat, Channel)>)
      requires Valid()
      modifies this`nextSeq, this`pending, this`cursor
      ensures Valid()
      ensures r.None? <==> closed || forall q | 0 <= q < SEQS :: q in old(pending)
      ensures r.None? ==> pending == old(pending) && nextSeq == old(nextSeq)
      ensures r.Some? ==> FirstFree(old(pending.Keys), old(cursor), SEQS) == Some(cursor - 1)
      ensures r.Some? ==> r.value.0 == SeqOf(cursor - 1) && r.value.0 !in old(pending)
      ensures r.Some? ==> fresh(r.value.1) && r.value.1.slot == None && pending == old(pending)[r.value.0 := r.value.1]
    {
      hide SeqOf, Wrap, FirstFree;
      if closed {
        return None;
      }
      FullRoundFailsIff(pending.Keys, cursor);
      ghost var start := cursor;
      for i := 0 to SEQS
        invariant Valid() && pending == old(pending) && cursor == start + i
        invariant FirstFree(pending.Keys, start, SEQS) == FirstFree(pending.Keys, cursor, SEQS - i)
      {
        var number := nextSeq;
        OneTry(pending.Keys, cursor, SEQS - i);
        nextSeq := Wrap(nextSeq + 1);
        cursor := cursor + 1;
        NextWraps(cursor - 1);
        if number !in pending {
          var ch := new Channel();
          pending := pending[number := ch];
          return Some((number, ch));
        }
      }
      WholeRound(start);
      r := None;
    }

    method Unregister(number: nat)
      requires Valid()
      modifies this`pending
      ensures Valid() && pending == old(pending) - {number}
    {
      pending := pending - {number};
    }

    // The locked half of deliver.
    method Find(number: nat) returns (ch: Option<Channel>)
      ensures ch == if number in pending then Some(pending[number]) else None
    {
      ch := if number in pending then Some(pending[number]) else None;
    }

    /** With nothing in between, a reply fills the waiting probe's empty channel and no other. */
    method Deliver(number: nat, reply: Reply)
      modifies if number in pending then {pending[number]} else {}
      ensures number in pending ==>
                var was := old(pending[number].slot);
                pending[number].slot == if was.Some? then was else Some(reply)
    {
      var ch := Find(number);
      if ch.Some? {
        ch.value.Offer(reply);
      }
    }
  }

  function Wrap(n: nat): nat {
    n % SEQS
  }

  lemma NextWraps(c: nat)
    ensures Wrap(SeqOf(c) + 1) == SeqOf(c + 1)
  {
    var q, r := c / SEQS, c % SEQS;
    assert c + 1 == q * SEQS + (r + 1);
    if r + 1 == SEQS {
      assert c + 1 == (q + 1) * SEQS;
    }
  }

  lemma WholeRound(c: nat)
    ensures SeqOf(c + SEQS) == SeqOf(c)
  {
    assert c + SEQS == (c / SEQS + 1) * SEQS + c % SEQS;
  }

  // ---- reading the numbers back ----

  type Byte = b: nat | b < 256

  function U16(hi: Byte, lo: Byte): nat {
    hi * 256 + lo
  }

  // The first eight bytes of an Echo request: type 8, then code, checksum, id and number (RFC 792).
  function EchoHead(code: Byte, sum: (Byte, Byte), id: nat, number: nat): seq<Byte>
    requires id < SEQS && number < SEQS
  {
    [8, code, sum.0, sum.1, id / 256, id % 256, number / 256, number % 256]
  }

  // What an ICMP error quotes: an IPv4 header of ihl 32-bit words (RFC 791, section 3.1) and at least
  // the first eight bytes of what it carried.
  function ParseInnerEcho(data: seq<Byte>): Option<(nat, nat)> {
    if |data| < 20 then None
    else
      var ihl := data[0] % 16 * 4;
      if ihl < 20 || |data| < ihl + 8 then None
      else if data[ihl] != 8 then None
      else Some((U16(data[ihl + 4], data[ihl + 5]), U16(data[ihl + 6], data[ihl + 7])))
  }

  /** A quoted packet parses to (id, number) exactly when it is a header of the length its first byte
      says, 20 to 60 bytes, followed by an Echo request with that id and number. */
  lemma ParsesIff(data: seq<Byte>, id: nat, number: nat)
    ensures ParseInnerEcho(data) == Some((id, number)) <==>
            exists header: seq<Byte>, code: Byte, sum: (Byte, Byte), rest: seq<Byte> ::
              QuotesEcho(data, header, code, sum, id, number, rest)
  {
    if ParseInnerEcho(data) == Some((id, number)) {
      var n := data[0] % 16 * 4;
      var header, rest := data[..n], data[n + 8..];
      var code, sum := data[n + 1], (data[n + 2], data[n + 3]);
      assert data == header + EchoHead(code, sum, id, number) + rest;
      assert QuotesEcho(data, header, code, sum, id, number, rest);
    }
    forall header: seq<Byte>, code: Byte, sum: (Byte, Byte), rest: seq<Byte>
      | QuotesEcho(data, header, code, sum, id, number, rest)
      ensures ParseInnerEcho(data) == Some((id, number))
    {
      QuotedEchoParses(data, header, code, sum, id, number, rest);
    }
  }

  predicate QuotesEcho(data: seq<Byte>, header: seq<Byte>, code: Byte, sum: (Byte, Byte), id: nat, number: nat,
                       rest: seq<Byte>)
  {
    && id < SEQS && number < SEQS
    && |header| >= 20 && |header| == header[0] % 16 * 4
    && data == header + EchoHead(code, sum, id, number) + rest
  }

  lemma QuotedEchoParses(data: seq<Byte>, header: seq<Byte>, code: Byte, sum: (Byte, Byte), id: nat, number: nat,
                         rest: seq<Byte>)
    requires QuotesEcho(data, header, code, sum, id, number, rest)
    ensures ParseInnerEcho(data) == Some((id, number))
  {
    var n := |header|;
    var head := EchoHead(code, sum, id, number);
    assert data[0] == header[0];
    assert data[n..n + 8] == head;
    assert data[n] == head[0] && data[n + 4] == head[4] && data[n + 5] == head[5];
    assert data[n + 6] == head[6] && data[n + 7] == head[7];
  }

  datatype Message =
    | Echo(isReply: bool, id: nat, number: nat)
    | TimeExceededFor(data: seq<Byte>)
    | UnreachableFor(data: seq<Byte>)
    | OtherMessage

  function ClassifyReply(m: Message, ourId: nat): Option<(nat, ReplyType)> {
    match m
    case Echo(isReply, id, number) => if isReply && id == ourId then Some((Wrap(number), EchoReply)) else None
    case TimeExceededFor(data) => Quoted(data, ourId, TimeExceeded)
    case UnreachableFor(data) => Quoted(data, ourId, DestUnreachable)
    case OtherMessage => None
  }

  function Quoted(data: seq<Byte>, ourId: nat, kind: ReplyType): Option<(nat, ReplyType)> {
    match ParseInnerEcho(data)
    case None => None
    case Some((id, number)) => if id == ourId then Some((number, kind)) else None
  }

  /** Every way a router or the target can answer probe t leads back to t's number, whatever IP options
      the quoted header has grown and whatever follows the first eight bytes. */
  lemma AnswersLeadBack(t: nat, ourId: nat, header: seq<Byte>, code: Byte, sum: (Byte, Byte), rest: seq<Byte>)
    requires ourId < SEQS && |header| >= 20 && |header| == header[0] % 16 * 4
    ensures var data := header + EchoHead(code, sum, ourId, SeqOf(t)) + rest;
            && ClassifyReply(Echo(true, ourId, SeqOf(t)), ourId) == Some((SeqOf(t), EchoReply))
            && ClassifyReply(TimeExceededFor(data), ourId) == Some((SeqOf(t), TimeExceeded))
            && ClassifyReply(UnreachableFor(data), ourId) == Some((SeqOf(t), DestUnreachable))
  {
    hide ParseInnerEcho, EchoHead;
    var data := header + EchoHead(code, sum, ourId, SeqOf(t)) + rest;
    assert QuotesEcho(data, header, code, sum, ourId, SeqOf(t), rest);
    QuotedEchoParses(data, header, code, sum, ourId, SeqOf(t), rest);
  }
}
