/** The server's guide history and the client's graph as objects that change in place.

    Each method is proved equal to its function in GuideLog.dfy, so that what is proved there
    of every run of the two holds of these objects. */
module GuideGraphs {
  import opened Common
  import opened GuideLog

  class GuideHistory {
    const limit: nat
    var entries: seq<Entry>
    var number: nat
    ghost var issued: seq<Entry>

    ghost function Model(): History
      reads this
      requires |entries| <= |issued|
    {
      History(issued, |issued| - |entries|, limit)
    }

    ghost predicate Valid()
      reads this
    {
      |entries| <= |issued| == number && HistoryOk(Model()) && entries == Kept(Model())
    }

    constructor (limit: nat)
      ensures Valid() && Model() == History([], 0, limit)
    {
      this.limit := limit;
      entries, number, issued := [], 0, [];
    }

    method ResetRun()
      requires Valid()
      modifies this`entries
      ensures Valid() && Model() == Reset(old(Model())) && entries == []
    {
      entries := [];
    }

    // None for events that say nothing of guiding.
    method AddEvent(reading: Option<Reading>) returns (added: Option<Entry>)
      requires Valid()
      modifies this
      ensures Valid()
      ensures reading.None? ==> added.None? && Model() == old(Model())
      ensures reading.Some? ==> added == Some(Entry(old(number) + 1, reading.value)) && Model() == Add(old(Model()), reading.value)
    {
      if reading.None? {
        return None;
      }
      var entry := Entry(number + 1, reading.value);
      number := entry.number;
      entries := entries + [entry];
      if |entries| > limit {
        entries := entries[1..];
      }
      issued := issued + [entry];
      assert entries == issued[|issued| - |entries|..];
      return Some(entry);
    }

    method AfterNumber(after: nat, most: nat) returns (r: seq<Entry>)
      requires Valid()
      ensures r == After(Kept(Model()), after, most)
      ensures var low := Min(|issued|, Max(|issued| - |entries|, after)); r == issued[low..Min(|issued|, low + most)]
    {
      r := [];
      for i := 0 to |entries|
        invariant r == Above(entries[..i], after)
      {
        assert entries[..i + 1][..i] == entries[..i];
        if entries[i].number > after {
          r := r + [entries[i]];
        }
      }
      assert entries[..|entries|] == entries;
      if |r| > most {
        r := r[..most];
      }
      AfterExact(Model(), after, most);
    }

    // The newest steps that were not settling, newest first, at most `window` of them.
    method RecentSteps(window: nat) returns (steps: seq<Entry>)
      requires window >= 1
      ensures steps == Reversed(LastEntries(Counted(entries), window))
    {
      steps := [];
      var i := |entries|;
      while i > 0
        invariant 0 <= i <= |entries| && |steps| < window
        invariant steps == Reversed(Counted(entries[i..]))
      {
        i := i - 1;
        CountedSplit(entries, i);
        if Counts(entries[i]) {
          steps := steps + [entries[i]];
          if |steps| == window {
            CountedConcat(entries[..i], entries[i..]);
            assert entries[..i] + entries[i..] == entries;
            LastOfConcat(Counted(entries[..i]), Counted(entries[i..]));
            return;
          }
        }
      }
      assert entries[0..] == entries;
    }
  }

  predicate Counts(e: Entry) {
    e.reading.kind == Step && !e.reading.settling
  }

  function Counted(entries: seq<Entry>): seq<Entry> {
    if entries == [] then [] else (if Counts(entries[0]) then [entries[0]] else []) + Counted(entries[1..])
  }

  function Reversed(s: seq<Entry>): (r: seq<Entry>)
    ensures |r| == |s|
  {
    if s == [] then [] else Reversed(s[1..]) + [s[0]]
  }

  lemma CountedSplit(entries: seq<Entry>, i: nat)
    requires i < |entries|
    ensures Counted(entries[i..]) == (if Counts(entries[i]) then [entries[i]] else []) + Counted(entries[i + 1..])
    ensures Reversed(Counted(entries[i..])) == Reversed(Counted(entries[i + 1..])) + (if Counts(entries[i]) then [entries[i]] else [])
  {
    assert entries[i..][1..] == entries[i + 1..];
    var rest := Counted(entries[i + 1..]);
    if Counts(entries[i]) {
      assert ([entries[i]] + rest)[1..] == rest;
    } else {
      assert [] + rest == rest;
    }
  }

  lemma {:induction false} CountedConcat(a: seq<Entry>, b: seq<Entry>)
    ensures Counted(a + b) == Counted(a) + Counted(b)
  {
    if a == [] {
      assert a + b == b;
    } else {
      assert (a + b)[1..] == a[1..] + b;
      CountedConcat(a[1..], b);
    }
  }

  lemma LastOfConcat(a: seq<Entry>, b: seq<Entry>)
    ensures LastEntries(a + b, |b|) == b
  {
  }

  class GuideGraph {
    var entries: seq<Entry>
    var number: nat
    var fetching: bool
    var started: bool
    // What was asked for and, once the server made it, the answer on its way.
    ghost var flight: Flight

    ghost function Model(): Graph
      reads this
    {
      Graph(entries, number, started, flight)
    }

    ghost predicate Valid()
      reads this
    {
      fetching <==> !flight.Idle?
    }

    constructor ()
      ensures Valid() && Model() == Graph([], 0, false, Idle)
    {
      entries, number, fetching, started, flight := [], 0, false, false, Idle;
    }

    // Whether a request is sent.
    method Fetch(after: nat, replace: bool) returns (sent: bool)
      requires Valid()
      modifies this`fetching, this`flight
      ensures Valid() && Model() == Ask(old(Model()), after, replace) && sent == !old(fetching)
    {
      if fetching {
        return false;
      }
      fetching, flight := true, Asked(after, replace);
      return true;
    }

    method StartGraph() returns (sent: bool)
      requires Valid()
      modifies this
      ensures Valid() && Model() == Start(old(Model()))
    {
      if started {
        return false;
      }
      started := true;
      sent := Fetch(0, true);
    }

    method FollowStats(stats: Stats) returns (sent: bool)
      requires Valid()
      modifies this
      ensures Valid() && Model() == Follow(old(Model()), stats)
    {
      if !started {
        return false;
      }
      if stats.empty && stats.last.None? {
        entries, number := [], stats.number;
        return false;
      }
      if stats.last.None? || stats.last.value.number <= number {
        return false;
      }
      var last := stats.last.value;
      if last.number == number + 1 {
        entries := LastEntries(entries, KEEP - 1) + [last];
        number := last.number;
        sent := false;
      } else {
        sent := Fetch(number, false);
      }
    }

    method TakeAnswer(steps: seq<Entry>, replace: bool)
      requires Valid() && flight == Answered(steps, replace)
      modifies this
      ensures Valid() && Model() == Take(old(Model()), steps, replace)
    {
      var newer: seq<Entry> := [];
      for i := 0 to |steps|
        invariant newer == Above(steps[..i], number)
        invariant unchanged(this)
      {
        assert steps[..i + 1][..i] == steps[..i];
        if steps[i].number > number {
          newer := newer + [steps[i]];
        }
      }
      assert steps[..|steps|] == steps;
      var merged := if replace then steps else entries + newer;
      entries := LastEntries(merged, KEEP);
      if entries != [] {
        number := entries[|entries| - 1].number;
      }
      fetching, flight := false, Idle;
    }

    method FetchFailed(replace: bool)
      requires Valid() && fetching
      modifies this
      ensures Valid() && Model() == Fail(old(Model()), replace)
    {
      if replace {
        started := false;
      }
      fetching, flight := false, Idle;
    }
  }
}
