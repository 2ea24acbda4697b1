/** The fixed-capacity history buffer (internal/analysis/ringbuf.go). */
module Ring {
  import opened Wrappers

  // At most n values, from the front. Histories are kept newest first.
  function Take<T>(s: seq<T>, n: nat): seq<T> {
    if |s| <= n then s else s[..n]
  }

  function Reversed<T>(s: seq<T>): (r: seq<T>)
    ensures |r| == |s|
    ensures forall i | 0 <= i < |s| :: r[i] == s[|s| - 1 - i]
  {
    seq(|s|, i requires 0 <= i < |s| => s[|s| - 1 - i])
  }

  lemma ModWrap(x: nat, n: nat)
    requires 0 < n && x < 2 * n
    ensures x % n == if x < n then x else x - n
  {
  }

  class RingBuffer<T(0)> {
    const buf: array<T>
    var head: nat   // where the next Push writes
    var size: nat   // values currently stored
    ghost var history: seq<T>   // everything ever pushed, newest first

    // The slot that holds the value pushed k pushes ago.
    function Slot(k: nat): int
      reads this
    {
      if head - 1 - k >= 0 then head - 1 - k else head - 1 - k + buf.Length
    }

    ghost predicate Valid()
      reads this, buf
    {
      && buf.Length >= 1 && head < buf.Length && size <= buf.Length && size <= |history|
      && (size < buf.Length ==> head == size && size == |history|)
      && forall k | 0 <= k < size :: buf[Slot(k)] == history[k]
    }

    // What the buffer retains, newest first.
    ghost function Window(): (w: seq<T>)
      requires Valid()
      reads this, buf
      ensures |w| == size
    {
      Take(history, buf.Length)
    }

    constructor (capacity: int)
      ensures Valid() && fresh(buf) && history == []
      ensures buf.Length == if capacity < 1 then 1 else capacity
    {
      buf := new T[if capacity < 1 then 1 else capacity];
      head, size, history := 0, 0, [];
    }

    method Push(v: T)
      requires Valid()
      modifies this, buf
      ensures Valid() && history == [v] + old(history)
    {
      ghost var slots := seq(size, k requires 0 <= k < size reads this => Slot(k));
      assert forall k | 0 <= k < size :: buf[slots[k]] == history[k];
      buf[head] := v;
      ModWrap(head + 1, buf.Length);
      head := (head + 1) % buf.Length;
      history := [v] + history;
      if size < buf.Length {
        size := size + 1;
      }
      assert Slot(0) == old(head);
      assert forall k | 1 <= k < size :: Slot(k) == slots[k - 1] != old(head);
    }

    method Newest() returns (value: Option<T>)
      requires Valid()
      ensures value == if history == [] then None else Some(history[0])
    {
      if size == 0 {
        return None;
      }
      ModWrap(head - 1 + buf.Length, buf.Length);
      var idx := (head - 1 + buf.Length) % buf.Length;
      assert idx == Slot(0);
      value := Some(buf[idx]);
    }

    method Oldest() returns (value: Option<T>)
      requires Valid()
      ensures value == if history == [] then None else Some(Window()[|Window()| - 1])
    {
      if size == 0 {
        return None;
      }
      var idx := 0;
      if size == buf.Length {
        idx := head;
      }
      assert idx == Slot(size - 1);
      value := Some(buf[idx]);
    }

    method NewestFirst() returns (out: seq<T>)
      requires Valid()
      ensures out == Window()
    {
      if size == 0 {
        return [];
      }
      out := [];
      ModWrap(head - 1 + buf.Length, buf.Length);
      var idx := (head - 1 + buf.Length) % buf.Length;
      for i := 0 to size
        invariant i < size ==> idx == Slot(i)
        invariant i == size ==> 0 <= idx < buf.Length
        invariant out == history[..i]
      {
        out := out + [buf[idx]];
        ModWrap(idx - 1 + buf.Length, buf.Length);
        idx := (idx - 1 + buf.Length) % buf.Length;
      }
    }

    /** The same values in chronological order, by reversing a copy in place. */
    method OldestFirst() returns (out: seq<T>)
      requires Valid()
      ensures out == Reversed(Window())
    {
      var values := NewestFirst();
      var nf := new T[|values|](i requires 0 <= i < |values| => values[i]);
      ReverseInPlace(nf);
      out := nf[..];
    }
  }

  method ReverseInPlace<T>(a: array<T>)
    modifies a
    ensures a[..] == Reversed(old(a[..]))
  {
    var i, j := 0, a.Length - 1;
    while i < j
      invariant 0 <= i && i + j == a.Length - 1
      invariant forall k | 0 <= k < a.Length :: a[k] == if i <= k <= j then old(a[k]) else old(a[a.Length - 1 - k])
    {
      a[i], a[j] := a[j], a[i];
      i, j := i + 1, j - 1;
    }
  }
}
