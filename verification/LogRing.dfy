/** The ring of log lines: a list that grows up to a limit and is then overwritten from
    the oldest entry on. */
module LogRing {

  type Entry = string

  // The last lines of a log, at most as many as given.
  function Last(log: seq<Entry>, maxLines: int): seq<Entry> {
    if maxLines <= 0 then [] else if |log| <= maxLines then log else log[|log| - maxLines..]
  }

  // Oldest first.
  function Rotated(entries: seq<Entry>, start: nat): seq<Entry>
    requires start <= |entries|
  {
    entries[start..] + entries[..start]
  }

  // Overwriting the oldest entry drops it and appends the new one.
  lemma OverwriteOldest(entries: seq<Entry>, start: nat, entry: Entry)
    requires start < |entries|
    ensures var next := if start + 1 == |entries| then 0 else start + 1;
            Rotated(entries[start := entry], next) == Rotated(entries, start)[1..] + [entry]
  {
    var entries' := entries[start := entry];
    assert entries'[start + 1..] == entries[start + 1..] && entries'[..start + 1] == entries[..start] + [entry];
  }

  class Ring {
    const maxLines: int
    var entries: seq<Entry>
    var start: nat
    ghost var log: seq<Entry>  // pushed since the last reset

    ghost predicate Valid()
      reads this
    {
      && (|log| < maxLines ==> start == 0)
      && (start < |entries| || start == 0 == |entries|)
      && Rotated(entries, start) == Last(log, maxLines)
    }

    constructor (maxLines: int)
      ensures Valid() && this.maxLines == maxLines && log == []
    {
      this.maxLines, entries, start, log := maxLines, [], 0, [];
    }

    method Push(entry: Entry)
      requires Valid()
      modifies this
      ensures Valid() && log == old(log) + [entry]
    {
      log := log + [entry];
      if maxLines <= 0 {
        return;
      }
      if |entries| < maxLines {
        entries := entries + [entry];
        return;
      }
      OverwriteOldest(entries, start, entry);
      entries := entries[start := entry];
      start := start + 1;
      if start == |entries| {
        start := 0;
      }
    }

    // An entry is shown as long as fewer than maxLines came after it.
    method Array() returns (result: seq<Entry>)
      requires Valid()
      ensures result == Last(log, maxLines)
      ensures |result| == if maxLines <= 0 then 0 else if |log| < maxLines then |log| else maxLines
      ensures forall k | 0 <= k < |log| && |log| - k <= maxLines :: result[|result| - (|log| - k)] == log[k]
    {
      result := entries[start..];
      result := result + entries[..start];
    }

    method Reset()
      requires Valid()
      modifies this
      ensures Valid() && log == []
    {
      entries, start, log := [], 0, [];
    }
  }
}
