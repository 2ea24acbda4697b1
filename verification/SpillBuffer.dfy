/** The probe's size-bounded spill buffer (internal/agent/buffer.go). */
module SpillBuffer {
  import opened Wrappers
  import opened Wire

  // One row of pending_batches; the payload is the batch, its length is batch.size.
  datatype Pending = Pending(createdAt: int, batch: Batch)

  // ORDER BY created_at ASC, batch_id ASC
  predicate Before(a: Pending, b: Pending) {
    a.createdAt < b.createdAt || (a.createdAt == b.createdAt && a.batch.id < b.batch.id)
  }

  // batch_id is the primary key.
  predicate Keyed(t: seq<Pending>) {
    forall i, j | 0 <= i < j < |t| :: t[i].batch.id != t[j].batch.id
  }

  function Total(t: seq<Pending>): nat {
    if t == [] then 0 else t[0].batch.size + Total(t[1..])
  }

  function Without(t: seq<Pending>, i: nat): seq<Pending>
    requires i < |t|
  {
    t[..i] + t[i + 1..]
  }

  function Removed(t: seq<Pending>, id: nat): seq<Pending> {
    if t == [] then [] else if t[0].batch.id == id then Removed(t[1..], id) else [t[0]] + Removed(t[1..], id)
  }

  lemma RemovedMembers(t: seq<Pending>, id: nat)
    ensures forall p :: p in Removed(t, id) <==> p in t && p.batch.id != id
  {
    if t != [] {
      RemovedMembers(t[1..], id);
      assert forall p :: p in t <==> p == t[0] || p in t[1..];
    }
  }

  // INSERT OR REPLACE
  function Inserted(t: seq<Pending>, p: Pending): seq<Pending> {
    Removed(t, p.batch.id) + [p]
  }

  function OldestIndex(t: seq<Pending>): (i: nat)
    requires t != []
    ensures i < |t|
    ensures forall j | 0 <= j < |t| :: !Before(t[j], t[i])
  {
    if |t| == 1 then 0
    else
      var k := OldestIndex(t[1..]) + 1;
      if Before(t[k], t[0]) then k else 0
  }

  // The order in which repeated Oldest and Delete empty the table.
  function DrainOrder(t: seq<Pending>): (d: seq<Pending>)
    ensures |d| == |t|
    decreases |t|
  {
    if t == [] then [] else [t[OldestIndex(t)]] + DrainOrder(Without(t, OldestIndex(t)))
  }

  // How many rows must go, oldest first, before what remains fits.
  function Evictions(ordered: seq<Pending>, maxBytes: nat): (k: nat)
    ensures k <= |ordered|
    ensures Total(ordered[k..]) <= maxBytes
    ensures forall j | 0 <= j < k :: Total(ordered[j..]) > maxBytes
  {
    if Total(ordered) <= maxBytes then
      assert ordered[0..] == ordered; 0
    else
      var rest := ordered[1..];
      var k := Evictions(rest, maxBytes);
      assert forall j | 0 <= j <= k :: rest[j..] == ordered[j + 1..];
      assert forall j | 0 < j < k + 1 :: ordered[j..] == rest[j - 1..];
      assert ordered[0..] == ordered;
      k + 1
  }

  function EvictDown(t: seq<Pending>, maxBytes: nat): seq<Pending>
    decreases |t|
  {
    if Total(t) <= maxBytes then t else EvictDown(Without(t, OldestIndex(t)), maxBytes)
  }

  lemma TotalAppend(a: seq<Pending>, b: seq<Pending>)
    ensures Total(a + b) == Total(a) + Total(b)
  {
    if a == [] {
      assert a + b == b;
    } else {
      assert (a + b)[1..] == a[1..] + b;
      TotalAppend(a[1..], b);
    }
  }

  lemma {:induction false} TotalWithout(t: seq<Pending>, i: nat)
    requires i < |t|
    ensures Total(t) == t[i].batch.size + Total(Without(t, i))
  {
    assert t == t[..i] + ([t[i]] + t[i + 1..]);
    TotalAppend(t[..i], [t[i]] + t[i + 1..]);
    TotalAppend(t[..i], t[i + 1..]);
    assert ([t[i]] + t[i + 1..])[1..] == t[i + 1..];
  }

  lemma KeyedWithout(t: seq<Pending>, i: nat)
    requires i < |t| && Keyed(t)
    ensures Keyed(Without(t, i))
    ensures forall p :: p in Without(t, i) <==> p in t && p != t[i]
  {
    var w := Without(t, i);
    assert forall j | 0 <= j < |w| :: w[j] == t[if j < i then j else j + 1];
    forall p | p in t && p != t[i]
      ensures p in w
    {
      var j :| 0 <= j < |t| && t[j] == p;
      assert w[if j < i then j else j - 1] == p;
    }
  }

  lemma KeyedInserted(t: seq<Pending>, p: Pending)
    requires Keyed(t)
    ensures Keyed(Inserted(t, p))
  {
    KeyedRemoved(t, p.batch.id);
    RemovedMembers(t, p.batch.id);
  }

  lemma KeyedRemoved(t: seq<Pending>, id: nat)
    requires Keyed(t)
    ensures Keyed(Removed(t, id))
  {
    if t != [] {
      KeyedRemoved(t[1..], id);
      RemovedMembers(t[1..], id);
      assert forall p | p in t[1..] :: p.batch.id != t[0].batch.id;
    }
  }

  lemma DrainOrderTotal(t: seq<Pending>)
    ensures Total(DrainOrder(t)) == Total(t)
    decreases |t|
  {
    if t != [] {
      var i := OldestIndex(t);
      TotalWithout(t, i);
      DrainOrderTotal(Without(t, i));
      assert DrainOrder(t)[1..] == DrainOrder(Without(t, i));
    }
  }

  /** Draining visits every pending batch exactly once, strictly oldest first. */
  lemma DrainOrderSorted(t: seq<Pending>)
    requires Keyed(t)
    ensures forall p :: p in DrainOrder(t) <==> p in t
    ensures forall i, j | 0 <= i < j < |t| :: Before(DrainOrder(t)[i], DrainOrder(t)[j])
    decreases |t|
  {
    if t != [] {
      var i := OldestIndex(t);
      KeyedWithout(t, i);
      DrainOrderSorted(Without(t, i));
      var d := DrainOrder(t);
      var rest := DrainOrder(Without(t, i));
      assert d == [t[i]] + rest;
      forall k | 0 <= k < |rest|
        ensures Before(t[i], rest[k])
      {
        assert rest[k] in Without(t, i);
        OldestIsStrict(t, rest[k]);
      }
    }
  }

  lemma OldestIsStrict(t: seq<Pending>, p: Pending)
    requires t != [] && Keyed(t) && p in t && p != t[OldestIndex(t)]
    ensures Before(t[OldestIndex(t)], p)
  {
    var j :| 0 <= j < |t| && t[j] == p;
    var i := OldestIndex(t);
    assert t[if i < j then i else j].batch.id != t[if i < j then j else i].batch.id;
  }

  /** Evicting one oldest row at a time removes exactly the shortest prefix that restores the bound. */
  lemma EvictDownIsSuffix(t: seq<Pending>, maxBytes: nat)
    ensures DrainOrder(EvictDown(t, maxBytes)) == DrainOrder(t)[Evictions(DrainOrder(t), maxBytes)..]
    ensures Total(EvictDown(t, maxBytes)) <= maxBytes
    decreases |t|
  {
    DrainOrderTotal(t);
    if Total(t) > maxBytes {
      var w := Without(t, OldestIndex(t));
      EvictDownIsSuffix(w, maxBytes);
      var d := DrainOrder(t);
      assert d[1..] == DrainOrder(w);
      var k := Evictions(DrainOrder(w), maxBytes);
      assert d[k + 1..] == DrainOrder(w)[k..];
    }
  }

  lemma EvictionsStep(t: seq<Pending>, maxBytes: nat)
    requires Total(t) > maxBytes
    ensures Evictions(DrainOrder(t), maxBytes)
            == 1 + Evictions(DrainOrder(Without(t, OldestIndex(t))), maxBytes)
  {
    DrainOrderTotal(t);
    assert DrainOrder(t)[1..] == DrainOrder(Without(t, OldestIndex(t)));
  }

  lemma EvictDownKeyed(t: seq<Pending>, maxBytes: nat)
    requires Keyed(t)
    ensures Keyed(EvictDown(t, maxBytes))
    ensures forall p | p in EvictDown(t, maxBytes) :: p in t
    decreases |t|
  {
    if Total(t) > maxBytes {
      KeyedWithout(t, OldestIndex(t));
      EvictDownKeyed(Without(t, OldestIndex(t)), maxBytes);
    }
  }

  // Bytes of the rows that a batch spilled as p goes before. A row under p's id is the one p replaces.
  function SizeAfter(t: seq<Pending>, p: Pending): nat {
    if t == [] then 0
    else (if t[0].batch.id != p.batch.id && Before(p, t[0]) then t[0].batch.size else 0) + SizeAfter(t[1..], p)
  }

  lemma {:induction false} SizeAfterAppend(a: seq<Pending>, b: seq<Pending>, p: Pending)
    ensures SizeAfter(a + b, p) == SizeAfter(a, p) + SizeAfter(b, p)
  {
    if a == [] {
      assert a + b == b;
    } else {
      assert (a + b)[1..] == a[1..] + b;
      SizeAfterAppend(a[1..], b, p);
    }
  }

  lemma {:induction false} SizeAfterRemoved(t: seq<Pending>, p: Pending)
    ensures SizeAfter(Removed(t, p.batch.id), p) == SizeAfter(t, p)
  {
    if t != [] {
      SizeAfterRemoved(t[1..], p);
      if t[0].batch.id != p.batch.id {
        assert Removed(t, p.batch.id)[1..] == Removed(t[1..], p.batch.id);
      }
    }
  }

  lemma {:induction false} SizeAfterDrained(t: seq<Pending>, p: Pending)
    ensures SizeAfter(DrainOrder(t), p) == SizeAfter(t, p)
    decreases |t|
  {
    if t != [] {
      hide SizeAfter;
      var i := OldestIndex(t);
      SizeAfterDrained(Without(t, i), p);
      SizeAfterWithout(t, i, p);
      SizeAfterAppend([t[i]], DrainOrder(Without(t, i)), p);
    }
  }

  lemma SizeAfterWithout(t: seq<Pending>, i: nat, p: Pending)
    requires i < |t|
    ensures SizeAfter(t, p) == SizeAfter([t[i]], p) + SizeAfter(Without(t, i), p)
  {
    hide SizeAfter;
    assert t == t[..i] + ([t[i]] + t[i + 1..]);
    SizeAfterAppend(t[..i], [t[i]] + t[i + 1..], p);
    SizeAfterAppend([t[i]], t[i + 1..], p);
    SizeAfterAppend(t[..i], t[i + 1..], p);
  }

  // In a sorted table, the rows after p are those past its position.
  lemma {:induction false} SizeAfterSorted(d: seq<Pending>, p: Pending, i: nat)
    requires i < |d| && d[i] == p && Keyed(d)
    requires forall j, k | 0 <= j < k < |d| :: Before(d[j], d[k])
    ensures SizeAfter(d, p) + p.batch.size == Total(d[i..])
  {
    if i == 0 {
      TailAfter(d[1..], p);
      assert d[0..] == d;
    } else {
      assert d[1..][i - 1..] == d[i..];
      SizeAfterSorted(d[1..], p, i - 1);
    }
  }

  lemma {:induction false} TailAfter(d: seq<Pending>, p: Pending)
    requires forall k | 0 <= k < |d| :: Before(p, d[k]) && d[k].batch.id != p.batch.id
    ensures SizeAfter(d, p) == Total(d)
  {
    if d != [] {
      TailAfter(d[1..], p);
    }
  }

  lemma SortedIsKeyed(t: seq<Pending>)
    requires Keyed(t)
    ensures Keyed(DrainOrder(t))
    decreases |t|
  {
    if t != [] {
      var i := OldestIndex(t);
      KeyedWithout(t, i);
      SortedIsKeyed(Without(t, i));
      DrainOrderSorted(Without(t, i));
      var rest := DrainOrder(Without(t, i));
      forall k | 0 <= k < |rest|
        ensures rest[k].batch.id != t[i].batch.id
      {
        assert rest[k] in Without(t, i);
        OtherId(t, i, rest[k]);
      }
    }
  }

  lemma OtherId(t: seq<Pending>, i: nat, q: Pending)
    requires Keyed(t) && i < |t| && q in t && q != t[i]
    ensures q.batch.id != t[i].batch.id
  {
    var j :| 0 <= j < |t| && t[j] == q;
    assert t[if i < j then i else j].batch.id != t[if i < j then j else i].batch.id;
  }

  /** Exactly when a spilled batch outlives its own Add: its bytes and those of the rows it sorts before
      fit the buffer together. */
  lemma SurvivesIff(t: seq<Pending>, p: Pending, maxBytes: nat)
    requires Keyed(t)
    ensures p in EvictDown(Inserted(t, p), maxBytes) <==> p.batch.size + SizeAfter(t, p) <= maxBytes
  {
    hide DrainOrder, EvictDown, Inserted, Evictions, SizeAfter, Total, Keyed;
    var ins := Inserted(t, p);
    var d, rest := DrainOrder(ins), EvictDown(ins, maxBytes);
    KeyedInserted(t, p);
    EvictDownKeyed(ins, maxBytes);
    DrainOrderSorted(rest);
    SortedIsKeyed(ins);
    EvictDownIsSuffix(ins, maxBytes);
    var i := WhereInserted(t, p);
    SizeAfterOf(t, p, i);
    InSuffixIff(d, p, i, maxBytes);
  }

  lemma WhereInserted(t: seq<Pending>, p: Pending) returns (i: nat)
    requires Keyed(t)
    ensures i < |DrainOrder(Inserted(t, p))| == |Inserted(t, p)| && DrainOrder(Inserted(t, p))[i] == p
  {
    KeyedInserted(t, p);
    DrainOrderSorted(Inserted(t, p));
    assert p in Inserted(t, p);
    i :| 0 <= i < |DrainOrder(Inserted(t, p))| && DrainOrder(Inserted(t, p))[i] == p;
  }

  lemma SizeAfterOf(t: seq<Pending>, p: Pending, i: nat)
    requires Keyed(t) && i < |Inserted(t, p)| && DrainOrder(Inserted(t, p))[i] == p
    ensures p.batch.size + SizeAfter(t, p) == Total(DrainOrder(Inserted(t, p))[i..])
  {
    var ins := Inserted(t, p);
    KeyedInserted(t, p);
    DrainOrderSorted(ins);
    SortedIsKeyed(ins);
    SizeAfterSorted(DrainOrder(ins), p, i);
    SizeAfterDrained(ins, p);
    SizeAfterAppend(Removed(t, p.batch.id), [p], p);
    SizeAfterRemoved(t, p);
  }

  lemma InSuffixIff(d: seq<Pending>, p: Pending, i: nat, maxBytes: nat)
    requires i < |d| && d[i] == p && Keyed(d)
    ensures p in d[Evictions(d, maxBytes)..] <==> Total(d[i..]) <= maxBytes
  {
    hide Total;
    var k := Evictions(d, maxBytes);
    if k <= i {
      assert d[k..][i - k] == p;
      assert d[k..] == d[k..i] + d[i..];
      TotalAppend(d[k..i], d[i..]);
    } else {
      assert forall j | k <= j < |d| :: d[j].batch.id != d[i].batch.id;
    }
  }

  /** So a batch that fits the buffer and sorts last is never the one evicted to make room for itself. */
  lemma NewestSurvives(t: seq<Pending>, p: Pending, maxBytes: nat)
    requires Keyed(t) && p.batch.size <= maxBytes
    requires forall q | q in t && q.batch.id != p.batch.id :: Before(q, p)
    ensures p in EvictDown(Inserted(t, p), maxBytes)
  {
    NoneAfter(t, p);
    SurvivesIff(t, p, maxBytes);
  }

  lemma {:induction false} NoneAfter(t: seq<Pending>, p: Pending)
    requires forall q | q in t && q.batch.id != p.batch.id :: Before(q, p)
    ensures SizeAfter(t, p) == 0
  {
    if t != [] {
      NoneAfter(t[1..], p);
      assert t[0] in t;
    }
  }

  // SQL statements a successful Add issues: begin, insert, one size check per round, one delete
  // per eviction, commit.
  function AddStatements(t: seq<Pending>, p: Pending, maxBytes: nat): nat {
    4 + 2 * Evictions(DrainOrder(Inserted(t, p)), maxBytes)
  }

  // The table after an Add during which the first `working` statements succeed.
  function AfterAdd(t: seq<Pending>, p: Pending, maxBytes: nat, working: nat): Result<seq<Pending>> {
    if p.batch.size <= maxBytes && working >= AddStatements(t, p, maxBytes)
    then Ok(EvictDown(Inserted(t, p), maxBytes))
    else Failed
  }

  /** The eviction loop of one Add: a size check per round and a delete per eviction, any of
      which may be the statement that fails. */
  method EvictOldest(t: seq<Pending>, maxBytes: nat, working: nat) returns (r: Result<(seq<Pending>, nat)>)
    ensures r.Ok? <==> working >= 1 + 2 * Evictions(DrainOrder(t), maxBytes)
    ensures r.Ok? ==> r.value == (EvictDown(t, maxBytes), Evictions(DrainOrder(t), maxBytes))
  {
    var work, n := t, 0;
    while true
      invariant 2 * n <= working
      invariant EvictDown(work, maxBytes) == EvictDown(t, maxBytes)
      invariant n + Evictions(DrainOrder(work), maxBytes) == Evictions(DrainOrder(t), maxBytes)
      decreases |work|
    {
      if working == 2 * n {
        return Failed;
      }
      DrainOrderTotal(work);
      if Total(work) <= maxBytes {
        return Ok((work, n));
      }
      if working == 1 + 2 * n {
        EvictionsStep(work, maxBytes);
        return Failed;
      }
      EvictionsStep(work, maxBytes);
      work, n := Without(work, OldestIndex(work)), n + 1;
    }
  }

  class Buffer {
    const maxBytes: nat
    var rows: seq<Pending>

    ghost predicate Valid()
      reads this
    {
      Keyed(rows) && Total(rows) <= maxBytes
    }

    constructor (maxSizeMB: nat)
      requires maxSizeMB >= 1
      ensures Valid() && rows == [] && maxBytes == maxSizeMB * 1_048_576
    {
      maxBytes := maxSizeMB * 1_048_576;
      rows := [];
    }

    /** Inserts a batch and evicts oldest-first until the bound holds, in one transaction.
        `working` is how many SQL statements succeed before one fails. */
    method Add(batch: Batch, createdAt: int, working: nat) returns (evicted: Result<nat>)
      requires Valid()
      modifies this
      ensures Valid()
      ensures evicted.Ok? <==> AfterAdd(old(rows), Pending(createdAt, batch), maxBytes, working).Ok?
      ensures evicted.Failed? ==> rows == old(rows)
      ensures evicted.Ok? ==> rows == AfterAdd(old(rows), Pending(createdAt, batch), maxBytes, working).value
      ensures evicted.Ok? ==>
                evicted.value == Evictions(DrainOrder(Inserted(old(rows), Pending(createdAt, batch))), maxBytes)
    {
      if batch.size > maxBytes || working < 2 {
        return Failed;
      }
      KeyedInserted(rows, Pending(createdAt, batch));
      var work := Inserted(rows, Pending(createdAt, batch));
      EvictDownKeyed(work, maxBytes);
      EvictDownIsSuffix(work, maxBytes);
      var done := EvictOldest(work, maxBytes, working - 2);
      if done.Failed? || working < 4 + 2 * done.value.1 {
        return Failed;
      }
      rows := done.value.0;
      evicted := Ok(done.value.1);
    }

    /** The oldest pending batch, if any; Failed when the read fails. */
    method Oldest(working: bool) returns (r: Result<Option<Batch>>)
      requires Valid()
      ensures r.Failed? <==> !working
      ensures r == Ok(None) ==> rows == []
      ensures r.Ok? && r.value.Some? ==> rows != [] && r.value.value == DrainOrder(rows)[0].batch
    {
      if !working {
        return Failed;
      }
      if rows == [] {
        return Ok(None);
      }
      r := Ok(Some(rows[OldestIndex(rows)].batch));
    }

    /** Removes a delivered or poison batch; a missing id is not an error. */
    method Delete(id: nat, working: bool) returns (ok: bool)
      requires Valid()
      modifies this
      ensures Valid() && ok == working
      ensures rows == if ok then Removed(old(rows), id) else old(rows)
    {
      if working {
        KeyedRemoved(rows, id);
        RemovedTotal(rows, id);
        rows := Removed(rows, id);
      }
      ok := working;
    }
  }

  lemma RemovedTotal(t: seq<Pending>, id: nat)
    ensures Total(Removed(t, id)) <= Total(t)
  {
    if t != [] {
      RemovedTotal(t[1..], id);
      if t[0].batch.id != id {
        assert Removed(t, id)[1..] == Removed(t[1..], id);
      }
    }
  }

  /** Deleting the oldest batch leaves the rest of the drain order untouched. */
  lemma DeleteOldestDrains(t: seq<Pending>)
    requires Keyed(t) && t != []
    ensures DrainOrder(Removed(t, DrainOrder(t)[0].batch.id)) == DrainOrder(t)[1..]
  {
    var i := OldestIndex(t);
    RemovedIsWithout(t[..i], t[i], t[i + 1..]);
    assert t == t[..i] + [t[i]] + t[i + 1..];
    assert DrainOrder(t)[1..] == DrainOrder(Without(t, i));
  }

  lemma RemovedIsWithout(before: seq<Pending>, p: Pending, after: seq<Pending>)
    requires forall q | q in before || q in after :: q.batch.id != p.batch.id
    ensures Removed(before + [p] + after, p.batch.id) == before + after
  {
    if before == [] {
      assert before + [p] + after == [p] + after;
      RemovedAbsent(after, p.batch.id);
    } else {
      assert (before + [p] + after)[1..] == before[1..] + [p] + after;
      RemovedIsWithout(before[1..], p, after);
      assert before + after == [before[0]] + (before[1..] + after);
    }
  }

  lemma RemovedAbsent(t: seq<Pending>, id: nat)
    requires forall p | p in t :: p.batch.id != id
    ensures Removed(t, id) == t
  {
    if t != [] {
      RemovedAbsent(t[1..], id);
    }
  }
}
