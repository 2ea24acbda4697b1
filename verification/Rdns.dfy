/** The reverse-DNS worker (internal/rdns/resolver.go over internal/storage/rdns.go): an incremental
    scan by row id that must miss no address a full scan would find, while rows come and go. */
module Rdns {
  import opened Wrappers

  // A row of the samples table, as far as this worker reads it.
  datatype Row = Row(id: nat, target: string, ip: Option<string>)

  // The rdns table: an address with no name is one that was tried.
  type Names = map<string, Option<string>>

  function MaxRow(rows: seq<Row>): nat {
    if rows == [] then 0
    else
      var rest := MaxRow(rows[..|rows| - 1]);
      var last := rows[|rows| - 1].id;
      if last > rest then last else rest
  }

  lemma {:induction false} MaxRowIsMax(rows: seq<Row>)
    ensures forall r | r in rows :: r.id <= MaxRow(rows)
    ensures rows != [] ==> exists r :: r in rows && r.id == MaxRow(rows)
  {
    if rows != [] {
      var rest, last := rows[..|rows| - 1], rows[|rows| - 1];
      MaxRowIsMax(rest);
      assert rows == rest + [last];
      assert last in rows;
    }
  }

  predicate Settled(ip: Option<string>, names: Names) {
    ip.None? || ip.value in names
  }

  // What the anti-join selects: rows past the watermark whose address has no rdns row.
  predicate Wanted(r: Row, names: Names, watermark: nat) {
    r.id > watermark && !Settled(r.ip, names)
  }

  // SELECT DISTINCT ... LIMIT: distinct wanted addresses, and all of them unless the limit is reached.
  ghost predicate IsBatch(batch: seq<string>, rows: seq<Row>, names: Names, watermark: nat, limit: nat) {
    && |batch| <= limit
    && (forall i, j | 0 <= i < j < |batch| :: batch[i] != batch[j])
    && (forall ip | ip in batch :: exists r :: r in rows && Wanted(r, names, watermark) && r.ip == Some(ip))
    && (|batch| < limit ==> forall r | r in rows && Wanted(r, names, watermark) :: r.ip.value in batch)
  }

  // Everything at or under the watermark is settled: a full scan would find nothing more there.
  ghost predicate Agrees(rows: seq<Row>, names: Names, watermark: nat) {
    forall r | r in rows && r.id <= watermark :: Settled(r.ip, names)
  }

  /** Under agreement, the scan from the watermark selects exactly what a full scan would. */
  lemma IncrementalIsFull(rows: seq<Row>, names: Names, watermark: nat)
    requires forall r | r in rows :: r.id > 0
    ensures Agrees(rows, names, watermark) <==>
            forall r | r in rows :: Wanted(r, names, watermark) <==> Wanted(r, names, 0)
  {
  }

  // ---- the worker and the rest of the daemon, interleaved ----

  datatype Scan =
    | Idle
    | Looked(top: nat)                                                   // MAX(rowid) read
    | Resolving(top: nat, batch: seq<string>, i: nat, failed: bool)

  datatype State = State(rows: seq<Row>, names: Names, watermark: nat, scan: Scan)

  datatype Event =
    | Insert(target: string, ip: Option<string>)   // a sample stored: the row id is one past the largest
    | Delete(gone: set<nat>)                       // retention, or a target's history wiped
    | ReadMax
    | ReadBatch(batch: seq<string>)
    | Resolve(name: Option<string>, works: bool)   // one lookup and its upsert
    | Finish
    | Abandon                                      // cancelled, or a query failed

  function Kept(rows: seq<Row>, gone: set<nat>): (k: seq<Row>)
    ensures forall r :: r in k <==> r in rows && r.id !in gone
  {
    if rows == [] then []
    else
      var last := rows[|rows| - 1];
      assert rows == rows[..|rows| - 1] + [last];
      Kept(rows[..|rows| - 1], gone) + if last.id in gone then [] else [last]
  }

  function Apply(limit: nat, s: State, e: Event): State {
    match e
    case Insert(target, ip) => s.(rows := s.rows + [Row(MaxRow(s.rows) + 1, target, ip)])
    case Delete(gone) => s.(rows := Kept(s.rows, gone))
    case ReadMax => if s.scan.Idle? then s.(scan := Looked(MaxRow(s.rows))) else s
    case ReadBatch(batch) => if s.scan.Looked? then s.(scan := Resolving(s.scan.top, batch, 0, false)) else s
    case Resolve(name, works) =>
      if !s.scan.Resolving? || s.scan.i >= |s.scan.batch| then s
      else
        var ip := s.scan.batch[s.scan.i];
        s.(names := if works then s.names[ip := name] else s.names,
           scan := s.scan.(i := s.scan.i + 1, failed := s.scan.failed || !works))
    case Finish =>
      if !s.scan.Resolving? || s.scan.i < |s.scan.batch| then s
      else
        var covered := s.scan.batch == [] || (|s.scan.batch| < limit && !s.scan.failed);
        s.(watermark := if covered then s.scan.top else s.watermark, scan := Idle)
    case Abandon => s.(scan := Idle)
  }

  const FRESH := State([], map[], 0, Idle)

  function RunFrom(limit: nat, s: State, es: seq<Event>): State {
    if es == [] then s else Apply(limit, RunFrom(limit, s, es[..|es| - 1]), es[|es| - 1])
  }

  function Run(limit: nat, es: seq<Event>): State {
    RunFrom(limit, FRESH, es)
  }

  // A new row is no trouble when its address is settled, or when its row id is past the watermark and
  // past whatever the scan in progress is about to pass without having it in hand.
  predicate SafeInsert(limit: nat, s: State, ip: Option<string>) {
    || Settled(ip, s.names)
    || (MaxRow(s.rows) >= s.watermark && (WillPass(limit, s, ip.value) ==> MaxRow(s.rows) >= s.scan.top))
  }

  // The scan is unclipped, has not failed, and has no lookup of this address to come.
  predicate WillPass(limit: nat, s: State, ip: string) {
    && s.scan.Resolving? && s.scan.i <= |s.scan.batch| < limit && !s.scan.failed
    && ip !in s.scan.batch[s.scan.i..]
  }

  // The batch is what the query may return, and inserts are no trouble.
  ghost predicate Orderly(limit: nat, s: State, e: Event) {
    Real(limit, s, e) && (e.Insert? ==> SafeInsert(limit, s, e.ip))
  }

  ghost predicate Real(limit: nat, s: State, e: Event) {
    e.ReadBatch? ==> IsBatch(e.batch, s.rows, s.names, s.watermark, limit)
  }

  ghost predicate RealRun(limit: nat, es: seq<Event>) {
    es == [] || (RealRun(limit, es[..|es| - 1]) && Real(limit, Run(limit, es[..|es| - 1]), es[|es| - 1]))
  }

  ghost predicate OrderlyRun(limit: nat, es: seq<Event>) {
    es == [] || (OrderlyRun(limit, es[..|es| - 1]) && Orderly(limit, Run(limit, es[..|es| - 1]), es[|es| - 1]))
  }

  // What an unclipped, so far unfailing scan has yet to settle is in the rest of its batch.
  ghost predicate ScanCovers(limit: nat, s: State) {
    s.scan.Resolving? ==>
      && s.scan.i <= |s.scan.batch| && (s.scan.failed ==> s.scan.i > 0)
      && (|s.scan.batch| < limit && !s.scan.failed ==>
            forall r | r in s.rows && r.id <= s.scan.top && !Settled(r.ip, s.names) ::
              r.ip.value in s.scan.batch[s.scan.i..])
  }

  ghost predicate Inv(limit: nat, s: State) {
    Agrees(s.rows, s.names, s.watermark) && ScanCovers(limit, s)
  }

  lemma ResolveKeeps(limit: nat, s: State, name: Option<string>, works: bool)
    requires Inv(limit, s)
    ensures Inv(limit, Apply(limit, s, Resolve(name, works)))
  {
    if s.scan.Resolving? && s.scan.i < |s.scan.batch| {
      var rest := s.scan.batch[s.scan.i..];
      assert rest == [rest[0]] + s.scan.batch[s.scan.i + 1..];
    }
  }

  lemma InsertKeepsIff(limit: nat, s: State, target: string, ip: Option<string>)
    requires Inv(limit, s)
    ensures Inv(limit, Apply(limit, s, Insert(target, ip))) <==> SafeInsert(limit, s, ip)
  {
    MaxRowIsMax(s.rows);
    var t := Apply(limit, s, Insert(target, ip));
    var added := Row(MaxRow(s.rows) + 1, target, ip);
    assert added in t.rows;
    assert forall r | r in t.rows :: r in s.rows || r == added;
  }

  lemma FinishKeeps(limit: nat, s: State)
    requires limit > 0 && Inv(limit, s)
    ensures Inv(limit, Apply(limit, s, Finish))
  {
    if s.scan.Resolving? && s.scan.i == |s.scan.batch| {
      assert s.scan.batch[s.scan.i..] == [];
    }
  }

  lemma StepKeeps(limit: nat, s: State, e: Event)
    requires limit > 0 && Inv(limit, s) && Orderly(limit, s, e)
    ensures Inv(limit, Apply(limit, s, e))
  {
    match e
    case Insert(target, ip) => InsertKeepsIff(limit, s, target, ip);
    case Resolve(name, works) => ResolveKeeps(limit, s, name, works);
    case ReadBatch(batch) => assert batch[0..] == batch;
    case Finish => FinishKeeps(limit, s);
    case _ =>
  }

  /** Through clipped batches, failed upserts, cancelled cycles, and rows inserted or deleted at any
      point of a cycle, the watermark never passes an address a full scan would still find. */
  lemma {:induction false} AgreesAlways(limit: nat, es: seq<Event>)
    requires limit > 0 && OrderlyRun(limit, es)
    ensures Inv(limit, Run(limit, es))
    ensures var s := Run(limit, es); Agrees(s.rows, s.names, s.watermark)
  {
    if es != [] {
      hide Apply, Agrees, ScanCovers;
      AgreesAlways(limit, es[..|es| - 1]);
      StepKeeps(limit, Run(limit, es[..|es| - 1]), es[|es| - 1]);
    }
  }

  // The books are right at the start and after every step.
  ghost predicate AlwaysRight(limit: nat, es: seq<Event>) {
    Inv(limit, Run(limit, es)) && (es == [] || AlwaysRight(limit, es[..|es| - 1]))
  }

  /** The hypothesis on inserts is exact: in a run whose batches are real, every insert is safe if and only
      if the worker's books are right after every step. */
  lemma {:induction false} BooksRightIff(limit: nat, es: seq<Event>)
    requires limit > 0 && RealRun(limit, es)
    ensures OrderlyRun(limit, es) <==> AlwaysRight(limit, es)
  {
    hide Apply, Inv, SafeInsert;
    if es != [] {
      var past, last := es[..|es| - 1], es[|es| - 1];
      BooksRightIff(limit, past);
      if AlwaysRight(limit, past) {
        StepRightIff(limit, Run(limit, past), last);
      }
    } else {
      AgreesAlways(limit, es);
    }
  }

  lemma StepRightIff(limit: nat, s: State, e: Event)
    requires limit > 0 && Inv(limit, s) && Real(limit, s, e)
    ensures Orderly(limit, s, e) <==> Inv(limit, Apply(limit, s, e))
  {
    hide Inv, SafeInsert, Apply;
    if e.Insert? {
      InsertKeepsIff(limit, s, e.target, e.ip);
    } else {
      StepKeeps(limit, s, e);
    }
  }

  // The rest of a cycle in which every lookup comes back nameless and every upsert works.
  function CleanRest(n: nat): seq<Event> {
    if n == 0 then [] else CleanRest(n - 1) + [Resolve(None, true)]
  }

  function Rest(s: State): seq<Event> {
    if s.scan.Resolving? && s.scan.i <= |s.scan.batch| then CleanRest(|s.scan.batch| - s.scan.i) + [Finish] else []
  }

  // An address is missed: already, or once the cycle in progress has run its course without a failure.
  ghost predicate Misses(limit: nat, s: State) {
    || !Agrees(s.rows, s.names, s.watermark)
    || var t := RunFrom(limit, s, Rest(s)); !Agrees(t.rows, t.names, t.watermark)
  }

  lemma {:induction false} CleanRestSteps(limit: nat, s: State, n: nat)
    requires s.scan.Resolving? && s.scan.i + n <= |s.scan.batch|
    ensures var t := RunFrom(limit, s, CleanRest(n));
            && t.rows == s.rows && t.watermark == s.watermark && t.scan == s.scan.(i := s.scan.i + n)
            && forall x :: x in t.names <==> x in s.names || x in s.scan.batch[s.scan.i..s.scan.i + n]
  {
    hide RunFrom, Apply, CleanRest;
    if n == 0 {
      NoRest(limit, s);
    } else {
      CleanRestSteps(limit, s, n - 1);
      OneMoreRest(limit, s, n);
      var t1 := RunFrom(limit, s, CleanRest(n - 1));
      CleanTurn(limit, t1, None);
      NamesGrow(s.names, t1.names, RunFrom(limit, s, CleanRest(n)).names, s.scan.batch, s.scan.i, s.scan.i + n - 1);
    }
  }

  lemma NoRest(limit: nat, s: State)
    ensures RunFrom(limit, s, CleanRest(0)) == s
  {
  }

  lemma OneMoreRest(limit: nat, s: State, n: nat)
    requires n > 0
    ensures RunFrom(limit, s, CleanRest(n)) == Apply(limit, RunFrom(limit, s, CleanRest(n - 1)), Resolve(None, true))
  {
    hide RunFrom, Apply;
    RunFromNext(limit, s, CleanRest(n - 1), Resolve(None, true));
  }

  lemma NamesGrow(before: Names, mid: Names, after: Names, batch: seq<string>, lo: nat, hi: nat)
    requires lo <= hi < |batch| && after.Keys == mid.Keys + {batch[hi]}
    requires forall x :: x in mid <==> x in before || x in batch[lo..hi]
    ensures forall x :: x in after <==> x in before || x in batch[lo..hi + 1]
  {
    PartGrows(batch, lo, hi);
    assert forall x :: x in after <==> x in after.Keys;
  }

  lemma PartGrows(batch: seq<string>, lo: nat, hi: nat)
    requires lo <= hi < |batch|
    ensures forall x :: x in batch[lo..hi + 1] <==> x in batch[lo..hi] || x == batch[hi]
  {
    assert batch[lo..hi + 1] == batch[lo..hi] + [batch[hi]];
  }

  lemma RestEnds(limit: nat, s: State)
    requires s.scan.Resolving? && s.scan.i <= |s.scan.batch|
    ensures var t := RunFrom(limit, s, Rest(s));
            && t.rows == s.rows
            && (forall x :: x in t.names <==> x in s.names || x in s.scan.batch[s.scan.i..])
            && t.watermark == if s.scan.batch == [] || (|s.scan.batch| < limit && !s.scan.failed) then s.scan.top
                              else s.watermark
  {
    hide RunFrom;
    var n := |s.scan.batch| - s.scan.i;
    CleanRestSteps(limit, s, n);
    RunFromNext(limit, s, CleanRest(n), Finish);
    assert s.scan.batch[s.scan.i..s.scan.i + n] == s.scan.batch[s.scan.i..];
  }

  // The invariant is not too strong: where it fails, an address is missed.
  lemma BooksWrongMisses(limit: nat, s: State)
    requires limit > 0 && (s.scan.Resolving? ==> s.scan.i <= |s.scan.batch| && (s.scan.failed ==> s.scan.i > 0))
    ensures !Inv(limit, s) <==> Misses(limit, s)
  {
    hide RunFrom, Rest;
    if s.scan.Resolving? {
      RestEnds(limit, s);
    } else {
      RestOfNone(limit, s);
    }
  }

  lemma RestOfNone(limit: nat, s: State)
    requires !s.scan.Resolving?
    ensures RunFrom(limit, s, Rest(s)) == s
  {
  }

  /** From right books, an insert makes the worker miss an address, at once or when the cycle in progress
      finishes, if and only if the address is unsettled and the new row id is one the watermark has
      passed, or one an unclipped and unfailing scan is about to pass without a lookup of it to come. */
  lemma InsertBreaksIff(limit: nat, s: State, target: string, ip: Option<string>)
    requires limit > 0 && Inv(limit, s)
    ensures Misses(limit, Apply(limit, s, Insert(target, ip))) <==>
            && !Settled(ip, s.names)
            && (MaxRow(s.rows) < s.watermark || (WillPass(limit, s, ip.value) && MaxRow(s.rows) < s.scan.top))
  {
    InsertKeepsIff(limit, s, target, ip);
    BooksWrongMisses(limit, Apply(limit, s, Insert(target, ip)));
    hide Misses, MaxRow;
  }

  /** It does happen: wipe the history of the newest target and the next new address goes unseen. */
  lemma WipedRowsAreReused(a: string, b: string)
    requires a != b
    ensures var es := [Insert(a, None), ReadMax, ReadBatch([]), Finish, Delete({1}), Insert(b, Some(b))];
            var s := Run(50, es);
            s == State([Row(1, b, Some(b))], map[], 1, Idle) && !Agrees(s.rows, s.names, s.watermark)
  {
    var es := [Insert(a, None), ReadMax, ReadBatch([]), Finish, Delete({1}), Insert(b, Some(b))];
    var first, last := Row(1, a, None), Row(1, b, Some(b));
    hide RunFrom, Apply, Agrees;
    WipeSteps(a, b);
    Traced(50, es, [FRESH, State([first], map[], 0, Idle), State([first], map[], 0, Looked(1)),
                    State([first], map[], 0, Resolving(1, [], 0, false)), State([first], map[], 1, Idle),
                    State([], map[], 1, Idle), State([last], map[], 1, Idle)]);
    Disagrees(last);
  }

  // A run, given all its states.
  lemma {:induction false} Traced(limit: nat, es: seq<Event>, ss: seq<State>)
    requires |ss| == |es| + 1 && ss[0] == FRESH
    requires forall i | 0 <= i < |es| :: Apply(limit, ss[i], es[i]) == ss[i + 1]
    ensures Run(limit, es) == ss[|es|]
  {
    if es != [] {
      hide Apply;
      Traced(limit, es[..|es| - 1], ss[..|es|]);
    }
  }

  // The six states: a row with no address is stored, one cycle passes it, it is wiped, its id is reused.
  lemma WipeSteps(a: string, b: string)
    ensures var first, last := Row(1, a, None), Row(1, b, Some(b));
            && Apply(50, FRESH, Insert(a, None)) == State([first], map[], 0, Idle)
            && Apply(50, State([first], map[], 0, Idle), ReadMax) == State([first], map[], 0, Looked(1))
            && Apply(50, State([first], map[], 0, Looked(1)), ReadBatch([]))
               == State([first], map[], 0, Resolving(1, [], 0, false))
            && Apply(50, State([first], map[], 0, Resolving(1, [], 0, false)), Finish) == State([first], map[], 1, Idle)
            && Apply(50, State([first], map[], 1, Idle), Delete({1})) == State([], map[], 1, Idle)
            && Apply(50, State([], map[], 1, Idle), Insert(b, Some(b))) == State([last], map[], 1, Idle)
  {
    hide Kept, MaxRow;
    SmallTables(Row(1, a, None), Row(2, b, None));
  }

  lemma Disagrees(r: Row)
    requires r.id == 1 && r.ip.Some?
    ensures !Agrees([r], map[], 1)
  {
    assert r in [r];
  }

  /** And in the middle of a cycle: the newest target is wiped while the batch resolves, a new address takes
      its row id, and the finishing cycle passes it. */
  lemma WipedMidCycle(a: string, b: string, c: string, x: string, y: string)
    requires x != y
    ensures var es := [Insert(a, Some(x)), Insert(b, None), ReadMax, ReadBatch([x]), Delete({2}), Insert(c, Some(y)),
                       Resolve(None, true), Finish];
            var s := Run(50, es);
            && s == State([Row(1, a, Some(x)), Row(2, c, Some(y))], map[x := None], 2, Idle)
            && !Agrees(s.rows, s.names, s.watermark)
  {
    var es := [Insert(a, Some(x)), Insert(b, None), ReadMax, ReadBatch([x]), Delete({2}), Insert(c, Some(y)),
               Resolve(None, true), Finish];
    var one, two, new2 := Row(1, a, Some(x)), Row(2, b, None), Row(2, c, Some(y));
    hide RunFrom, Apply, Agrees;
    MidCycleScan(a, b, x);
    MidCycleWipe(a, b, c, x, y);
    Traced(50, es, [FRESH, State([one], map[], 0, Idle), State([one, two], map[], 0, Idle),
                    State([one, two], map[], 0, Looked(2)), State([one, two], map[], 0, Resolving(2, [x], 0, false)),
                    State([one], map[], 0, Resolving(2, [x], 0, false)),
                    State([one, new2], map[], 0, Resolving(2, [x], 0, false)),
                    State([one, new2], map[x := None], 0, Resolving(2, [x], 1, false)),
                    State([one, new2], map[x := None], 2, Idle)]);
    DisagreesOn(Row(1, a, Some(x)), Row(2, c, Some(y)));
  }

  lemma MidCycleScan(a: string, b: string, x: string)
    ensures var one, two := Row(1, a, Some(x)), Row(2, b, None);
            && Apply(50, FRESH, Insert(a, Some(x))) == State([one], map[], 0, Idle)
            && Apply(50, State([one], map[], 0, Idle), Insert(b, None)) == State([one, two], map[], 0, Idle)
            && Apply(50, State([one, two], map[], 0, Idle), ReadMax) == State([one, two], map[], 0, Looked(2))
            && Apply(50, State([one, two], map[], 0, Looked(2)), ReadBatch([x]))
               == State([one, two], map[], 0, Resolving(2, [x], 0, false))
  {
    hide Kept, MaxRow;
    SmallTables(Row(1, a, Some(x)), Row(2, b, None));
  }

  lemma MidCycleWipe(a: string, b: string, c: string, x: string, y: string)
    ensures var one, two, new2 := Row(1, a, Some(x)), Row(2, b, None), Row(2, c, Some(y));
            && Apply(50, State([one, two], map[], 0, Resolving(2, [x], 0, false)), Delete({2}))
               == State([one], map[], 0, Resolving(2, [x], 0, false))
            && Apply(50, State([one], map[], 0, Resolving(2, [x], 0, false)), Insert(c, Some(y)))
               == State([one, new2], map[], 0, Resolving(2, [x], 0, false))
            && Apply(50, State([one, new2], map[], 0, Resolving(2, [x], 0, false)), Resolve(None, true))
               == State([one, new2], map[x := None], 0, Resolving(2, [x], 1, false))
            && Apply(50, State([one, new2], map[x := None], 0, Resolving(2, [x], 1, false)), Finish)
               == State([one, new2], map[x := None], 2, Idle)
  {
    hide Kept, MaxRow;
    SmallTables(Row(1, a, Some(x)), Row(2, b, None));
  }

  lemma SmallTables(one: Row, two: Row)
    requires one.id == 1 && two.id == 2
    ensures MaxRow([]) == 0 && MaxRow([one]) == 1 && MaxRow([one, two]) == 2
    ensures Kept([one], {1}) == [] && Kept([one, two], {2}) == [one]
  {
    assert [one, two][..1] == [one] && [one][..0] == [];
    assert Kept([one], {2}) == [one];
  }

  lemma DisagreesOn(one: Row, two: Row)
    requires one.ip.Some? && two.ip.Some? && one.ip != two.ip && two.id == 2
    ensures !Agrees([one, two], map[one.ip.value := None], 2)
  {
    assert two in [one, two];
  }

  // ---- the objects ----

  function OtherTargets(rows: seq<Row>, target: string): (k: seq<Row>)
    ensures forall r :: r in k <==> r in rows && r.target != target
  {
    if rows == [] then []
    else
      var last := rows[|rows| - 1];
      assert rows == rows[..|rows| - 1] + [last];
      OtherTargets(rows[..|rows| - 1], target) + if last.target == target then [] else [last]
  }

  class SampleStore {
    var rows: seq<Row>
    var routeChanges: seq<Row>
    var names: Names

    constructor ()
      ensures rows == [] && routeChanges == [] && names == map[]
    {
      rows, routeChanges, names := [], [], map[];
    }

    method MaxRowId() returns (top: nat)
      ensures top == MaxRow(rows)
    {
      top := 0;
      for i := 0 to |rows|
        invariant top == MaxRow(rows[..i])
      {
        assert rows[..i + 1][..i] == rows[..i];
        if rows[i].id > top {
          top := rows[i].id;
        }
      }
      assert rows[..|rows|] == rows;
    }

    /** Collects distinct wanted addresses until the limit is reached. */
    method UnresolvedIPs(since: nat, limit: nat) returns (ips: seq<string>, top: nat)
      ensures top == MaxRow(rows)
      ensures IsBatch(ips, rows, names, since, limit)
    {
      top := MaxRowId();
      ips := [];
      for i := 0 to |rows|
        invariant IsBatch(ips, rows[..i], names, since, limit)
      {
        assert forall r | r in rows[..i] :: r in rows[..i + 1];
        assert rows[..i + 1] == rows[..i] + [rows[i]];
        assert rows[i] in rows[..i + 1];
        if |ips| < limit && Wanted(rows[i], names, since) && rows[i].ip.value !in ips {
          ips := ips + [rows[i].ip.value];
        }
      }
      assert rows[..|rows|] == rows;
    }

    /** An empty name is recorded as tried. */
    method UpsertRDNS(ip: string, name: string, works: bool) returns (ok: bool)
      modifies this`names
      ensures ok == works
      ensures names == if works then old(names)[ip := if name == "" then None else Some(name)] else old(names)
    {
      if works {
        names := names[ip := if name == "" then None else Some(name)];
      }
      ok := works;
    }

    /** Samples and route changes of the target go in one transaction, of which the first `working` of four
        statements work; every other target's stay, in order, and row ids at the top are free again. */
    method DeleteTargetHistory(target: string, working: nat) returns (deleted: Result<(nat, nat)>)
      modifies this`rows, this`routeChanges
      ensures deleted.Ok? <==> working >= 4
      ensures deleted.Failed? ==> rows == old(rows) && routeChanges == old(routeChanges)
      ensures deleted.Ok? ==>
                && rows == OtherTargets(old(rows), target) && routeChanges == OtherTargets(old(routeChanges), target)
                && deleted.value == (|old(rows)| - |rows|, |old(routeChanges)| - |routeChanges|)
    {
      if working < 2 {
        return Failed;
      }
      var keptRows := WithoutTarget(rows, target);
      if working < 3 {
        return Failed;
      }
      var keptChanges := WithoutTarget(routeChanges, target);
      if working < 4 {
        return Failed;
      }
      deleted := Ok((|rows| - |keptRows|, |routeChanges| - |keptChanges|));
      rows, routeChanges := keptRows, keptChanges;
    }
  }

  // DELETE ... WHERE target = ?
  method WithoutTarget(rows: seq<Row>, target: string) returns (kept: seq<Row>)
    ensures kept == OtherTargets(rows, target) && |kept| <= |rows|
  {
    kept := [];
    for i := 0 to |rows|
      invariant |kept| <= i && kept == OtherTargets(rows[..i], target)
    {
      assert rows[..i + 1][..i] == rows[..i];
      if rows[i].target != target {
        kept := kept + [rows[i]];
      }
    }
    assert rows[..|rows|] == rows;
  }

  // What the resolver and the store do for one address.
  datatype Turn = Turn(cancelled: bool, name: string, works: bool)

  function Recorded(name: string): Option<string> {
    if name == "" then None else Some(name)
  }

  // The first n addresses of a batch, one turn each.
  function Resolves(turns: seq<Turn>, n: nat): seq<Event>
    requires n <= |turns|
  {
    if n == 0 then [] else Resolves(turns, n - 1) + [Resolve(Recorded(turns[n - 1].name), turns[n - 1].works)]
  }

  // How many of the first n turns come before a cancellation.
  function Uncancelled(turns: seq<Turn>, n: nat): (k: nat)
    requires n <= |turns|
    ensures k <= n && (forall j | 0 <= j < k :: !turns[j].cancelled) && (k < n ==> turns[k].cancelled)
  {
    if n == 0 then 0
    else
      var k := Uncancelled(turns, n - 1);
      if k == n - 1 && !turns[n - 1].cancelled then n else k
  }

  // A whole poll cycle as events.
  function Cycle(batch: seq<string>, turns: seq<Turn>): seq<Event>
    requires |batch| <= |turns|
  {
    var k := Uncancelled(turns, |batch|);
    [ReadMax, ReadBatch(batch)] + Resolves(turns, k) + [if k < |batch| then Abandon else Finish]
  }

  lemma RunFromNext(limit: nat, s: State, es: seq<Event>, e: Event)
    ensures RunFrom(limit, s, es + [e]) == Apply(limit, RunFrom(limit, s, es), e)
  {
    assert (es + [e])[..|es|] == es;
  }

  lemma RunFromBegin(limit: nat, s: State, batch: seq<string>)
    requires s.scan.Idle?
    ensures RunFrom(limit, s, [ReadMax, ReadBatch(batch)]) == s.(scan := Resolving(MaxRow(s.rows), batch, 0, false))
  {
    var none: seq<Event> := [];
    RunFromNext(limit, s, none, ReadMax);
    assert none + [ReadMax] == [ReadMax];
    RunFromNext(limit, s, [ReadMax], ReadBatch(batch));
    assert [ReadMax] + [ReadBatch(batch)] == [ReadMax, ReadBatch(batch)];
  }

  lemma ResolvesOneMore(limit: nat, s: State, batch: seq<string>, turns: seq<Turn>, i: nat)
    requires i < |turns|
    ensures RunFrom(limit, s, [ReadMax, ReadBatch(batch)] + Resolves(turns, i + 1))
            == Apply(limit, RunFrom(limit, s, [ReadMax, ReadBatch(batch)] + Resolves(turns, i)),
                     Resolve(Recorded(turns[i].name), turns[i].works))
  {
    hide Apply;
    var head, e := [ReadMax, ReadBatch(batch)] + Resolves(turns, i), Resolve(Recorded(turns[i].name), turns[i].works);
    RunFromNext(limit, s, head, e);
    assert [ReadMax, ReadBatch(batch)] + Resolves(turns, i + 1) == head + [e];
  }

  lemma NoResolves(batch: seq<string>, turns: seq<Turn>)
    ensures [ReadMax, ReadBatch(batch)] + Resolves(turns, 0) == [ReadMax, ReadBatch(batch)]
  {
  }

  lemma NoTurns(limit: nat, s: State, turns: seq<Turn>)
    requires s.scan.Idle?
    ensures RunFrom(limit, s, Cycle([], turns)) == s.(watermark := MaxRow(s.rows))
  {
    RunFromBegin(limit, s, []);
    RunFromNext(limit, s, [ReadMax, ReadBatch([])], Finish);
    assert Cycle([], turns) == [ReadMax, ReadBatch([])] + [Finish];
  }

  class Resolver {
    const store: SampleStore
    const batchSize: nat
    var watermark: nat

    constructor (store: SampleStore, batchSize: nat)
      ensures this.store == store && this.batchSize == batchSize && watermark == 0
    {
      this.store, this.batchSize, watermark := store, batchSize, 0;
    }

    ghost function View(): State
      reads this, store
    {
      State(store.rows, store.names, watermark, Idle)
    }

    /** One poll cycle with nothing in between is exactly one cycle of the events above, over a batch
        that the query may return. */
    method RunOnce(queryWorks: bool, turns: seq<Turn>) returns (ghost batch: seq<string>)
      requires |turns| >= batchSize
      modifies this`watermark, store`names
      ensures !queryWorks ==> View() == old(View())
      ensures queryWorks ==>
                && IsBatch(batch, store.rows, old(store.names), old(watermark), batchSize)
                && |batch| <= |turns|
                && View() == RunFrom(batchSize, old(View()), Cycle(batch, turns))
    {
      hide IsBatch, RunFrom, Resolves;
      batch := [];
      if !queryWorks {
        return;
      }
      ghost var s0 := View();
      var ips, top := Scan();
      batch := ips;
      RunFromBegin(batchSize, s0, ips);
      if |ips| == 0 {
        watermark := top;
        NoTurns(batchSize, s0, turns);
        return;
      }
      var failed := 0;
      NoResolves(ips, turns);
      for i := 0 to |ips|
        invariant watermark == old(watermark) && i <= Uncancelled(turns, |ips|)
        invariant RunFrom(batchSize, s0, [ReadMax, ReadBatch(ips)] + Resolves(turns, i))
                  == State(store.rows, store.names, watermark, Resolving(top, ips, i, failed > 0))
      {
        if turns[i].cancelled {
          RunFromNext(batchSize, s0, [ReadMax, ReadBatch(ips)] + Resolves(turns, i), Abandon);
          return;
        }
        var ok := store.UpsertRDNS(ips[i], turns[i].name, turns[i].works);
        if !ok {
          failed := failed + 1;
        }
        ResolvesOneMore(batchSize, s0, ips, turns, i);
      }
      RunFromNext(batchSize, s0, [ReadMax, ReadBatch(ips)] + Resolves(turns, |ips|), Finish);
      if |ips| < batchSize && failed == 0 {
        watermark := top;
      }
    }

    method Scan() returns (ips: seq<string>, top: nat)
      ensures top == MaxRow(store.rows)
      ensures IsBatch(ips, store.rows, store.names, watermark, batchSize) && |ips| <= batchSize
    {
      ips, top := store.UnresolvedIPs(watermark, batchSize);
    }

  }

  // ---- catching up ----

  function Backlog(rows: seq<Row>, names: Names, watermark: nat): nat {
    if rows == [] then 0
    else Backlog(rows[..|rows| - 1], names, watermark) + if Wanted(rows[|rows| - 1], names, watermark) then 1 else 0
  }

  lemma {:induction false} BacklogShrinks(rows: seq<Row>, before: Names, after: Names, watermark: nat, r: Row)
    requires before.Keys <= after.Keys
    ensures Backlog(rows, after, watermark) <= Backlog(rows, before, watermark)
    ensures r in rows && Wanted(r, before, watermark) && Settled(r.ip, after) ==>
              Backlog(rows, after, watermark) < Backlog(rows, before, watermark)
  {
    if rows != [] {
      BacklogShrinks(rows[..|rows| - 1], before, after, watermark, r);
      assert rows == rows[..|rows| - 1] + [rows[|rows| - 1]];
    }
  }

  // Where a cycle stands after i clean turns.
  lemma {:induction false} CleanTurns(limit: nat, s: State, batch: seq<string>, turns: seq<Turn>, i: nat)
    requires s.scan.Idle? && i <= |batch| <= |turns|
    requires forall j | 0 <= j < |batch| :: turns[j].works && !turns[j].cancelled
    ensures var t := RunFrom(limit, s, [ReadMax, ReadBatch(batch)] + Resolves(turns, i));
            && t.rows == s.rows && t.watermark == s.watermark && t.scan == Resolving(MaxRow(s.rows), batch, i, false)
            && t.names.Keys >= s.names.Keys && forall j | 0 <= j < i :: batch[j] in t.names
  {
    hide RunFrom, Resolves, Recorded, Apply, MaxRow;
    if i == 0 {
      RunFromBegin(limit, s, batch);
      NoResolves(batch, turns);
    } else {
      CleanTurns(limit, s, batch, turns, i - 1);
      ResolvesOneMore(limit, s, batch, turns, i - 1);
      var before := RunFrom(limit, s, [ReadMax, ReadBatch(batch)] + Resolves(turns, i - 1));
      CleanTurn(limit, before, Recorded(turns[i - 1].name));
    }
  }

  lemma CleanTurn(limit: nat, s: State, name: Option<string>)
    requires s.scan.Resolving? && s.scan.i < |s.scan.batch|
    ensures var t := Apply(limit, s, Resolve(name, true));
            && t.rows == s.rows && t.watermark == s.watermark && t.scan == s.scan.(i := s.scan.i + 1)
            && t.names.Keys == s.names.Keys + {s.scan.batch[s.scan.i]}
  {
  }

  /** A cycle in which nothing fails settles a wanted row, or brings the watermark to the newest row. */
  lemma CleanCycle(limit: nat, s: State, batch: seq<string>, turns: seq<Turn>)
    requires limit > 0 && s.scan.Idle? && IsBatch(batch, s.rows, s.names, s.watermark, limit)
    requires |batch| <= |turns| && forall j | 0 <= j < |batch| :: turns[j].works && !turns[j].cancelled
    ensures var t := RunFrom(limit, s, Cycle(batch, turns));
            && t.rows == s.rows && t.scan.Idle? && t.names.Keys >= s.names.Keys
            && (t.watermark == MaxRow(s.rows) ||
                (t.watermark == s.watermark &&
                 exists r :: r in s.rows && Wanted(r, s.names, s.watermark) && Settled(r.ip, t.names)))
  {
    hide RunFrom, Resolves;
    CleanTurns(limit, s, batch, turns, |batch|);
    RunFromNext(limit, s, [ReadMax, ReadBatch(batch)] + Resolves(turns, |batch|), Finish);
    if |batch| == limit {
      assert batch[0] in batch;
    }
  }

  lemma {:induction false} TurnsKeep(limit: nat, s: State, batch: seq<string>, turns: seq<Turn>, i: nat)
    requires limit > 0 && Inv(limit, s) && s.scan.Idle? && i <= |turns|
    requires IsBatch(batch, s.rows, s.names, s.watermark, limit)
    ensures Inv(limit, RunFrom(limit, s, [ReadMax, ReadBatch(batch)] + Resolves(turns, i)))
  {
    hide RunFrom, Resolves, Inv, IsBatch;
    if i == 0 {
      RunFromBegin(limit, s, batch);
      NoResolves(batch, turns);
      StepKeeps(limit, s, ReadMax);
      StepKeeps(limit, Apply(limit, s, ReadMax), ReadBatch(batch));
    } else {
      hide Apply;
      TurnsKeep(limit, s, batch, turns, i - 1);
      ResolvesOneMore(limit, s, batch, turns, i - 1);
      StepKeeps(limit, RunFrom(limit, s, [ReadMax, ReadBatch(batch)] + Resolves(turns, i - 1)),
                Resolve(Recorded(turns[i - 1].name), turns[i - 1].works));
    }
  }

  /** Whatever fails in it, a cycle keeps the agreement. */
  lemma CycleKeeps(limit: nat, s: State, batch: seq<string>, turns: seq<Turn>)
    requires limit > 0 && s.scan.Idle? && Agrees(s.rows, s.names, s.watermark)
    requires IsBatch(batch, s.rows, s.names, s.watermark, limit) && |batch| <= |turns|
    ensures var t := RunFrom(limit, s, Cycle(batch, turns)); Agrees(t.rows, t.names, t.watermark)
  {
    hide RunFrom, Resolves, IsBatch, Agrees, Apply;
    var k := Uncancelled(turns, |batch|);
    var head := [ReadMax, ReadBatch(batch)] + Resolves(turns, k);
    TurnsKeep(limit, s, batch, turns, k);
    RunFromNext(limit, s, head, Finish);
    RunFromNext(limit, s, head, Abandon);
    StepKeeps(limit, RunFrom(limit, s, head), Finish);
    StepKeeps(limit, RunFrom(limit, s, head), Abandon);
  }

  /** With no new rows and nothing failing, the watermark reaches the newest row after at most one
      cycle more than there are unsettled rows past it. */
  method CatchUp(resolver: Resolver, ghost backlog: nat) returns (cycles: nat)
    requires resolver.batchSize > 0 && Agrees(resolver.store.rows, resolver.store.names, resolver.watermark)
    requires backlog == Backlog(resolver.store.rows, resolver.store.names, resolver.watermark)
    modifies resolver`watermark, resolver.store`names
    ensures resolver.watermark == MaxRow(resolver.store.rows)
    ensures Agrees(resolver.store.rows, resolver.store.names, resolver.watermark)
    ensures cycles <= backlog + 1
  {
    hide RunFrom, Cycle, IsBatch, Agrees;
    var good := seq(resolver.batchSize, i => Turn(false, "", true));
    cycles := 0;
    ghost var left := backlog;
    var top := resolver.store.MaxRowId();
    while resolver.watermark != top
      invariant top == MaxRow(resolver.store.rows)
      invariant Agrees(resolver.store.rows, resolver.store.names, resolver.watermark)
      invariant left == Backlog(resolver.store.rows, resolver.store.names, resolver.watermark)
      invariant resolver.watermark != top ==> cycles + left <= backlog
      invariant cycles <= backlog + 1
      decreases if resolver.watermark != top then 1 else 0, left
    {
      ghost var s := resolver.View();
      ghost var batch := resolver.RunOnce(true, good);
      CycleKeeps(resolver.batchSize, s, batch, good);
      CleanCycle(resolver.batchSize, s, batch, good);
      cycles := cycles + 1;
      if resolver.watermark != top {
        ghost var r :| r in s.rows && Wanted(r, s.names, s.watermark) && Settled(r.ip, resolver.store.names);
        BacklogShrinks(s.rows, s.names, resolver.store.names, s.watermark, r);
      }
      left := Backlog(resolver.store.rows, resolver.store.names, resolver.watermark);
    }
  }

  // ---- what a cycle records ----

  lemma RecordStep(limit: nat, s: State, name: string, works: bool)
    requires s.scan.Resolving? && s.scan.i < |s.scan.batch|
    ensures var t := Apply(limit, s, Resolve(Recorded(name), works)); var ip := s.scan.batch[s.scan.i];
            && t.scan == s.scan.(i := s.scan.i + 1, failed := s.scan.failed || !works)
            && (works ==> ip in t.names && t.names[ip] == (if |name| > 0 then Some(name) else None))
            && (forall x | x != ip || !works ::
                  (x in t.names <==> x in s.names) && (x in t.names ==> t.names[x] == s.names[x]))
  {
  }

  // Address x after n turns: what its own turn said, if it had one that was stored, else what it was.
  predicate RecordedAs(before: Names, after: Names, batch: seq<string>, turns: seq<Turn>, n: nat, x: string)
    requires n <= |batch| <= |turns|
  {
    && (forall j | 0 <= j < n && batch[j] == x && turns[j].works ::
          x in after && after[x] == if |turns[j].name| > 0 then Some(turns[j].name) else None)
    && ((forall j | 0 <= j < n && batch[j] == x :: !turns[j].works) ==>
          (x in after <==> x in before) && (x in after ==> after[x] == before[x]))
  }

  lemma {:induction false} TurnsRecord(limit: nat, s: State, batch: seq<string>, turns: seq<Turn>, n: nat, x: string)
    requires s.scan.Idle? && n <= |batch| <= |turns|
    requires forall i, j | 0 <= i < j < |batch| :: batch[i] != batch[j]
    ensures var t := RunFrom(limit, s, [ReadMax, ReadBatch(batch)] + Resolves(turns, n));
            && RecordedAs(s.names, t.names, batch, turns, n, x)
            && t.scan.Resolving? && t.scan.batch == batch && t.scan.i == n
  {
    hide RunFrom, Resolves, Apply, MaxRow, Recorded;
    if n == 0 {
      RunFromBegin(limit, s, batch);
      NoResolves(batch, turns);
    } else {
      TurnsRecord(limit, s, batch, turns, n - 1, x);
      ResolvesOneMore(limit, s, batch, turns, n - 1);
      var before := RunFrom(limit, s, [ReadMax, ReadBatch(batch)] + Resolves(turns, n - 1));
      RecordStep(limit, before, turns[n - 1].name, turns[n - 1].works);
    }
  }

  /** A cycle records of each address it gets to, as long as the store takes it, the name the lookup gave or,
      when it gave none, that there is none; and touches no other address. */
  lemma CycleRecords(limit: nat, s: State, batch: seq<string>, turns: seq<Turn>, x: string)
    requires s.scan.Idle? && |batch| <= |turns| && forall i, j | 0 <= i < j < |batch| :: batch[i] != batch[j]
    ensures var t := RunFrom(limit, s, Cycle(batch, turns));
            RecordedAs(s.names, t.names, batch, turns, Uncancelled(turns, |batch|), x)
  {
    hide RunFrom, Resolves, RecordedAs, Uncancelled;
    var k := Uncancelled(turns, |batch|);
    var head := [ReadMax, ReadBatch(batch)] + Resolves(turns, k);
    TurnsRecord(limit, s, batch, turns, k, x);
    RunFromNext(limit, s, head, Finish);
    RunFromNext(limit, s, head, Abandon);
  }
}
