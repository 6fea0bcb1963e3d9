/** runtime/devtools/ring.go and mail.go: buffers that keep the newest entries and number them. */
module Rings {
  import opened Text

  datatype Entry<T> = Entry(id: int, item: T)

  function Min(x: int, y: int): int {
    if x <= y then x else y
  }

  /** The newest entries of a history, newest first. */
  function Newest<T>(history: seq<T>, capacity: nat): seq<Entry<T>> {
    seq(Min(|history|, capacity), i requires 0 <= i < Min(|history|, capacity) =>
      Entry(|history| - i, history[|history| - 1 - i]))
  }

  /** Two numbers less than `n` apart have different remainders. */
  lemma SlotsDiffer(x: nat, y: nat, n: nat)
    requires n > 0 && x < y < x + n
    ensures x % n != y % n
  {
    if x % n == y % n {
      var d := y / n - x / n;
      assert y - x == n * d;
      if d <= 0 {
        NoneBelow(n, d);
      } else {
        OneOrMore(n, d);
      }
    }
  }

  lemma NoneBelow(n: nat, d: int)
    requires d <= 0
    ensures n * d <= 0
  {}

  lemma OneOrMore(n: nat, d: int)
    requires d >= 1
    ensures n * d >= n
  {}

  class Ring<T(0)> {
    const entries: array<Entry<T>>
    var next: int
    ghost var history: seq<T>

    /** The slot of each retained entry holds it; ids start at 1. */
    ghost predicate Valid()
      reads this, entries
    {
      && entries.Length > 0 && next == |history|
      && forall k :: 0 <= k < |history| && k >= next - entries.Length ==>
        entries[k % entries.Length] == Entry(k + 1, history[k])
    }

    /** devtools.New settles the capacity: a value below 1 becomes the default. */
    constructor (capacity: int, standard: nat)
      requires standard >= 1
      ensures Valid() && history == [] && fresh(entries)
      ensures entries.Length == if capacity < 1 then standard else capacity
    {
      entries := new Entry<T>[if capacity < 1 then standard else capacity];
      next, history := 0, [];
    }

    method Add(item: T)
      requires Valid()
      modifies this, entries
      ensures Valid() && history == old(history) + [item]
    {
      next := next + 1;
      entries[(next - 1) % entries.Length] := Entry(next, item);
      history := history + [item];
      forall k | 0 <= k < |history| && k >= next - entries.Length
        ensures entries[k % entries.Length] == Entry(k + 1, history[k])
      {
        if k < next - 1 {
          SlotsDiffer(k, next - 1, entries.Length);
        }
      }
    }

    /** After any number of adds: exactly the newest entries, newest first, with consecutive ids. */
    method Snapshot() returns (snapshot: seq<Entry<T>>)
      requires Valid()
      ensures snapshot == Newest(history, entries.Length)
    {
      var count := if next <= entries.Length then next else entries.Length;
      snapshot := [];
      for i := 0 to count
        invariant |snapshot| == i
        invariant forall k :: 0 <= k < i ==> snapshot[k] == Entry(next - k, history[next - 1 - k])
      {
        ghost var item := history[next - 1 - i];
        snapshot := snapshot + [entries[(next - 1 - i) % entries.Length]];
      }
    }

    /** mailRing.Find: exactly the ids that the snapshot shows. */
    method Find(id: int) returns (entry: Option<Entry<T>>)
      requires Valid()
      ensures entry.Some? ==> entry.value.id == id && entry.value in Newest(history, entries.Length)
      ensures entry.None? ==> forall e :: e in Newest(history, entries.Length) ==> e.id != id
    {
      if id < 1 || id > next || id <= next - entries.Length {
        return None;
      }
      entry := Some(entries[(id - 1) % entries.Length]);
      assert entry.value == Entry(id, history[id - 1]);
      assert Newest(history, entries.Length)[next - id] == entry.value;
    }
  }

  /** An id is retained exactly if it is one of the newest; a retained entry is the one that was added. */
  lemma RetainedExactly<T>(history: seq<T>, capacity: nat, id: int)
    requires capacity > 0
    ensures (exists e :: e in Newest(history, capacity) && e.id == id) <==>
      1 <= id <= |history| && id > |history| - capacity
    ensures forall e :: e in Newest(history, capacity) ==> 1 <= e.id <= |history| && e.item == history[e.id - 1]
  {
    if 1 <= id <= |history| && id > |history| - capacity {
      var e := Newest(history, capacity)[|history| - id];
      assert e in Newest(history, capacity) && e.id == id;
    }
  }

  /** One more item pushes out the oldest entry of a full buffer and nothing else. */
  lemma NewestAfterAdd<T>(history: seq<T>, item: T, capacity: nat)
    requires capacity > 0
    ensures var before := Newest(history, capacity);
      Newest(history + [item], capacity) ==
      [Entry(|history| + 1, item)] + if |before| == capacity then before[..capacity - 1] else before
  {}
}
