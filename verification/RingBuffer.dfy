/** metrics/ring.go: the fixed-capacity buffer, refining the newest samples of
    everything ever pushed. */
module Ring {
  import opened Common
  import opened Samples

  class RingBuffer {
    const cap: nat
    var items: seq<Sample>
    var start: nat
    var size: nat
    /** Everything ever pushed. */
    ghost var log: seq<Sample>

    ghost predicate Valid()
      reads this
    {
      && 1 <= cap && size == |items| <= cap && start < cap
      && (size < cap ==> start == 0)
      && start <= |items|
      && items[start..] + items[..start] == Newest(log, cap)
    }

    constructor (capacity: int)
      ensures Valid() && log == [] && cap == if capacity <= 0 then 1 else capacity
    {
      cap := if capacity <= 0 then 1 else capacity;
      items, start, size, log := [], 0, 0, [];
    }

    method Push(s: Sample)
      requires Valid()
      modifies this
      ensures Valid() && log == old(log) + [s]
    {
      log := log + [s];
      if size < cap {
        items := items + [s];
        size := size + 1;
        return;
      }
      ghost var before := items[start..] + items[..start];
      items := items[start := s];
      Overwrite(items, start, before, s, cap);
      start := (start + 1) % cap;
    }

    /** Chronological copy. */
    method Snapshot() returns (out: seq<Sample>)
      requires Valid()
      ensures SortedCopy(Newest(log, cap), out)
      ensures Ascending(Newest(log, cap)) ==> out == Newest(log, cap)
    {
      if size == 0 {
        return [];
      }
      var copy: seq<Sample> := [];
      for i := 0 to size
        invariant copy == Newest(log, cap)[..i]
      {
        WrapIndex(items, start, cap, i);
        copy := copy + [items[(start + i) % cap]];
      }
      assert copy == Newest(log, cap);
      out := SortByTime(copy);
      if Ascending(copy) {
        AscendingCopyIsSame(copy, out);
      }
    }

    /** The newest push. */
    method Last() returns (r: Option<Sample>)
      requires Valid()
      ensures r == if log == [] then None else Some(log[|log| - 1])
    {
      if size == 0 {
        return None;
      }
      WrapIndex(items, start, cap, size - 1);
      r := Some(items[(start + size - 1) % cap]);
    }
  }

  /** Reading position i of the window at its wrapped index. */
  lemma WrapIndex(items: seq<Sample>, start: nat, cap: nat, i: nat)
    requires start < cap && start <= |items| <= cap && i < |items| && (|items| < cap ==> start == 0)
    ensures (start + i) % cap < |items|
    ensures (items[start..] + items[..start])[i] == items[(start + i) % cap]
  {
    if start + i < cap {
      assert (start + i) % cap == start + i;
    } else {
      assert (start + i) % cap == start + i - cap;
    }
  }

  /** Overwriting the oldest entry drops it and appends the new one. */
  lemma Overwrite(items: seq<Sample>, start: nat, before: seq<Sample>, s: Sample, cap: nat)
    requires |items| == cap && start < cap && items[start] == s
    requires |before| == cap && before[1..] == items[start + 1..] + items[..start]
    ensures var next := (start + 1) % cap;
      next < cap && items[next..] + items[..next] == before[1..] + [s]
  {
    if start + 1 == cap {
      assert (start + 1) % cap == 0;
      assert items == items[..start] + [s];
    } else {
      assert (start + 1) % cap == start + 1;
      assert items[..start + 1] == items[..start] + [s];
    }
  }
}
