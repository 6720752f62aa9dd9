/** The guiding run's entries on the server (server/src/nocs/guiding/stats.py) and the client's
    copy of them (web/src/lib/guiding.svelte.ts), over any run of both. */
module GuideLog {
  import opened Common

  datatype Kind = Step | Lost | Dither

  // What an event says: its fields are read from the event's data.
  datatype Reading = Reading(kind: Kind, time: real, ra: Option<real>, dec: Option<real>, raPulse: int, decPulse: int, settling: bool)

  datatype Entry = Entry(number: nat, reading: Reading)

  // -- the server's history ------------------------------------------------------------------------

  // `issued` is every entry there ever was; what is kept are those from `start` on.
  datatype History = History(issued: seq<Entry>, start: nat, limit: nat)

  ghost predicate HistoryOk(h: History) {
    && h.start <= |h.issued| <= h.start + h.limit
    && forall i :: 0 <= i < |h.issued| ==> h.issued[i].number == i + 1
  }

  function Kept(h: History): seq<Entry>
    requires h.start <= |h.issued|
  {
    h.issued[h.start..]
  }

  function Reset(h: History): History {
    h.(start := |h.issued|)
  }

  // Behind the others; beyond the limit the oldest makes room.
  function Add(h: History, reading: Reading): History {
    var issued := h.issued + [Entry(|h.issued| + 1, reading)];
    History(issued, Max(h.start, |issued| - h.limit), h.limit)
  }

  // Those numbered above `after`, oldest first, at most `most`.
  function After(entries: seq<Entry>, after: nat, most: nat): (r: seq<Entry>) {
    var above := Above(entries, after);
    if |above| <= most then above else above[..most]
  }

  function Above(entries: seq<Entry>, after: nat): seq<Entry> {
    if entries == [] then []
    else Above(entries[..|entries| - 1], after) + (if entries[|entries| - 1].number > after then [entries[|entries| - 1]] else [])
  }

  ghost predicate Ascending(s: seq<Entry>) {
    forall i, j :: 0 <= i < j < |s| ==> s[i].number < s[j].number
  }

  // Every entry before `k` is numbered at most `after`, and every one from `k` on above it.
  ghost predicate Parts(s: seq<Entry>, after: nat, k: nat) {
    && k <= |s|
    && (forall i :: 0 <= i < k ==> s[i].number <= after)
    && forall i :: k <= i < |s| ==> s[i].number > after
  }

  lemma PartsAll(s: seq<Entry>, after: nat)
    requires Ascending(s) && s != [] && s[|s| - 1].number <= after
    ensures Parts(s, after, |s|)
  {
    forall i | 0 <= i < |s| ensures s[i].number <= after {
      assert i < |s| - 1 ==> s[i].number < s[|s| - 1].number;
    }
  }

  lemma PartsMore(s: seq<Entry>, after: nat, k: nat)
    requires s != [] && Parts(s[..|s| - 1], after, k) && s[|s| - 1].number > after
    ensures Parts(s, after, k)
  {
    var n := |s| - 1;
    forall i | 0 <= i < n ensures s[i] == s[..n][i] {
    }
  }

  lemma PartsAt(s: seq<Entry>, after: nat, k: nat, i: nat)
    requires Parts(s, after, k) && i < |s|
    ensures i < k <==> s[i].number <= after
  {
  }

  lemma PartsUnique(s: seq<Entry>, after: nat, a: nat, b: nat)
    requires Parts(s, after, a) && Parts(s, after, b)
    ensures a == b
  {
    if a < |s| {
      PartsAt(s, after, a, a);
      PartsAt(s, after, b, a);
    }
    if b < |s| {
      PartsAt(s, after, a, b);
      PartsAt(s, after, b, b);
    }
  }

  // Of entries in order, those above a number are the last ones, from `k` on.
  lemma {:induction false} AboveIsSuffix(s: seq<Entry>, after: nat) returns (k: nat)
    requires Ascending(s)
    ensures Parts(s, after, k) && Above(s, after) == s[k..]
  {
    if s == [] {
      k := 0;
    } else {
      var n := |s| - 1;
      k := AboveIsSuffix(s[..n], after);
      if s[n].number <= after {
        PartsAll(s, after);
        PartsOfInit(s, after);
        PartsUnique(s[..n], after, k, n);
        k := n + 1;
      } else {
        PartsMore(s, after, k);
        DropInit(s, k);
      }
    }
  }

  lemma PartsOfInit(s: seq<Entry>, after: nat)
    requires s != [] && Parts(s, after, |s|)
    ensures Parts(s[..|s| - 1], after, |s| - 1)
  {
  }

  lemma KeptNumbers(h: History, i: nat)
    requires HistoryOk(h) && i < |Kept(h)|
    ensures Kept(h)[i].number == h.start + i + 1
  {
    assert Kept(h)[i] == h.issued[h.start + i];
  }

  lemma AboveKept(h: History, after: nat)
    requires HistoryOk(h)
    ensures Above(Kept(h), after) == h.issued[Min(|h.issued|, Max(h.start, after))..]
  {
    var kept := Kept(h);
    forall i | 0 <= i < |kept| ensures kept[i].number == h.start + i + 1 {
      KeptNumbers(h, i);
    }
    var k := AboveIsSuffix(kept, after);
    DropDrop(h.issued, h.start, k);
    if k < |kept| { assert kept[k].number > after; }
    if k > 0 { assert kept[k - 1].number <= after; }
  }

  // What a client is sent is a run without gaps, up to the newest entry unless it was cut.
  lemma AfterExact(h: History, after: nat, most: nat)
    requires HistoryOk(h)
    ensures var low := Min(|h.issued|, Max(h.start, after));
            After(Kept(h), after, most) == h.issued[low..Min(|h.issued|, low + most)]
  {
    AboveKept(h, after);
    var low := Min(|h.issued|, Max(h.start, after));
    if |h.issued| - low > most {
      DropTake(h.issued, low, most);
    } else {
      ToTheEnd(h.issued, low);
    }
  }

  // -- messages -----------------------------------------------------------------------------------------

  // guiding.stats as published: after each entry, and when a run starts (no steps, no last one).
  datatype Stats = Stats(number: nat, empty: bool, last: Option<Entry>)

  // -- the client -------------------------------------------------------------------------------------------

  const KEEP := 400

  datatype Flight = Idle | Asked(after: nat, replace: bool) | Answered(steps: seq<Entry>, replace: bool)

  datatype Graph = Graph(entries: seq<Entry>, number: nat, started: bool, flight: Flight)

  function LastEntries(entries: seq<Entry>, count: nat): seq<Entry> {
    if |entries| <= count then entries else entries[|entries| - count..]
  }

  function Ask(g: Graph, after: nat, replace: bool): Graph {
    if g.flight.Idle? then g.(flight := Asked(after, replace)) else g
  }

  function Start(g: Graph): Graph {
    if g.started then g else Ask(g.(started := true), 0, true)
  }

  function Follow(g: Graph, stats: Stats): Graph {
    if !g.started then g
    else if stats.empty && stats.last.None? then g.(entries := [], number := stats.number)
    else if stats.last.None? || stats.last.value.number <= g.number then g
    else if stats.last.value.number == g.number + 1 then
      g.(entries := LastEntries(g.entries, KEEP - 1) + [stats.last.value], number := stats.last.value.number)
    else Ask(g, g.number, false)
  }

  function Take(g: Graph, steps: seq<Entry>, replace: bool): Graph {
    var merged := if replace then steps else g.entries + Above(steps, g.number);
    var entries := LastEntries(merged, KEEP);
    g.(entries := entries, number := if entries == [] then g.number else entries[|entries| - 1].number, flight := Idle)
  }

  function Fail(g: Graph, replace: bool): Graph {
    g.(started := g.started && !replace, flight := Idle)
  }

  // -- runs of both ----------------------------------------------------------------------------------------------

  datatype World = World(history: History, stats: seq<Stats>, graph: Graph)

  // A client may follow any of the messages published, in any order and more than once; an
  // answer is made at some time after it was asked for and arrives at some time after that.
  datatype Event =
    | NewRun
    | Added(reading: Reading)
    | Starts
    | Follows(which: nat)
    | Serves
    | Arrives
    | Fails

  function Next(w: World, e: Event): World {
    var h, g := w.history, w.graph;
    match e
    case NewRun => World(Reset(h), w.stats + [Stats(|h.issued|, true, None)], g)
    case Added(reading) =>
      World(Add(h, reading), w.stats + [Stats(|h.issued| + 1, false, Some(Entry(|h.issued| + 1, reading)))], g)
    case Starts => w.(graph := Start(g))
    case Follows(which) => if which < |w.stats| then w.(graph := Follow(g, w.stats[which])) else w
    case Serves =>
      if g.flight.Asked? && h.start <= |h.issued| then w.(graph := g.(flight := Answered(After(Kept(h), g.flight.after, 5000), g.flight.replace))) else w
    case Arrives => if g.flight.Answered? then w.(graph := Take(g, g.flight.steps, g.flight.replace)) else w
    case Fails => if g.flight.Idle? then w else w.(graph := Fail(g, g.flight.replace))
  }

  // Entries the server issued, each later than the one before.
  ghost predicate Selection(s: seq<Entry>, issued: seq<Entry>) {
    && (forall i :: 0 <= i < |s| ==> 1 <= s[i].number <= |issued| && issued[s[i].number - 1] == s[i])
    && forall i, j :: 0 <= i < j < |s| ==> s[i].number < s[j].number
  }

  ghost predicate StatsOk(s: Stats, issued: seq<Entry>) {
    s.number <= |issued| && (s.last.Some? ==> Selection([s.last.value], issued) && s.last.value.number == s.number)
  }

  ghost predicate GraphOk(g: Graph, issued: seq<Entry>) {
    && Selection(g.entries, issued) && |g.entries| <= KEEP && g.number <= |issued|
    && (g.entries != [] ==> g.entries[|g.entries| - 1].number == g.number)
    && (g.flight.Answered? ==> Selection(g.flight.steps, issued))
  }

  ghost predicate Inv(w: World) {
    && HistoryOk(w.history)
    && (forall s :: s in w.stats ==> StatsOk(s, w.history.issued))
    && GraphOk(w.graph, w.history.issued)
  }

  function Initial(limit: nat): World {
    World(History([], 0, limit), [], Graph([], 0, false, Idle))
  }

  lemma Joined(a: seq<Entry>, b: seq<Entry>, issued: seq<Entry>, last: nat)
    requires Selection(a, issued) && Selection(b, issued)
    requires a != [] ==> a[|a| - 1].number <= last
    requires forall j :: 0 <= j < |b| ==> b[j].number > last
    ensures Selection(a + b, issued)
  {
    var s := a + b;
    forall i, j | 0 <= i < j < |s| ensures s[i].number < s[j].number {
      if i < |a| <= j {
        assert a[i].number <= a[|a| - 1].number;
      }
    }
  }

  lemma Part(s: seq<Entry>, issued: seq<Entry>, low: nat, r: seq<Entry>)
    requires Selection(s, issued) && low <= |s| && r == s[low..]
    ensures Selection(r, issued)
  {
    forall i | 0 <= i < |r| ensures r[i] == s[low + i] {
    }
  }

  lemma LastSelects(s: seq<Entry>, issued: seq<Entry>, count: nat)
    requires Selection(s, issued)
    ensures Selection(LastEntries(s, count), issued)
  {
    if |s| > count {
      Part(s, issued, |s| - count, LastEntries(s, count));
    }
  }

  lemma LastEnds(s: seq<Entry>, count: nat)
    ensures var r := LastEntries(s, count); |r| <= count && (r != [] ==> s != [] && r[|r| - 1] == s[|s| - 1])
  {
    if |s| > count > 0 { LastOfPart(s, |s| - count); }
  }

  lemma LastKeeps(s: seq<Entry>, issued: seq<Entry>, count: nat)
    requires Selection(s, issued)
    ensures var r := LastEntries(s, count);
            && Selection(r, issued) && |r| <= count && (r != [] ==> s != [] && r[|r| - 1] == s[|s| - 1])
  {
    LastSelects(s, issued, count);
    LastEnds(s, count);
  }

  lemma MergedSelects(g: Graph, issued: seq<Entry>, steps: seq<Entry>)
    requires GraphOk(g, issued) && Selection(steps, issued)
    ensures Selection(g.entries + Above(steps, g.number), issued)
  {
    var k := AboveIsSuffix(steps, g.number);
    Part(steps, issued, k, steps[k..]);
    Joined(g.entries, steps[k..], issued, g.number);
  }

  lemma TakeKeeps(g: Graph, issued: seq<Entry>, steps: seq<Entry>, replace: bool)
    requires GraphOk(g, issued) && Selection(steps, issued)
    ensures GraphOk(Take(g, steps, replace), issued)
  {
    MergedSelects(g, issued, steps);
    var merged := if replace then steps else g.entries + Above(steps, g.number);
    LastKeeps(merged, issued, KEEP);
  }

  lemma Appended(g: Graph, issued: seq<Entry>, last: Entry)
    requires GraphOk(g, issued) && Selection([last], issued) && last.number == g.number + 1
    ensures Selection(LastEntries(g.entries, KEEP - 1) + [last], issued)
  {
    LastKeeps(g.entries, issued, KEEP - 1);
    Joined(LastEntries(g.entries, KEEP - 1), [last], issued, g.number);
  }

  lemma FollowKeeps(g: Graph, issued: seq<Entry>, stats: Stats)
    requires GraphOk(g, issued) && StatsOk(stats, issued)
    ensures GraphOk(Follow(g, stats), issued)
  {
    if stats.last.Some? && stats.last.value.number == g.number + 1 {
      Appended(g, issued, stats.last.value);
      LastKeeps(g.entries, issued, KEEP - 1);
    }
  }

  lemma ServesSelection(h: History, after: nat)
    requires HistoryOk(h)
    ensures Selection(After(Kept(h), after, 5000), h.issued)
  {
    AfterExact(h, after, 5000);
    var low := Min(|h.issued|, Max(h.start, after));
    RunSelects(h, low, Min(|h.issued|, low + 5000));
  }

  lemma RunSelects(h: History, low: nat, high: nat)
    requires HistoryOk(h) && low <= high <= |h.issued|
    ensures Selection(h.issued[low..high], h.issued)
  {
    var s := h.issued[low..high];
    assert forall i :: 0 <= i < |s| ==> s[i] == h.issued[low + i];
  }

  lemma IssuedGrows(s: seq<Entry>, issued: seq<Entry>, e: Entry)
    requires Selection(s, issued)
    ensures Selection(s, issued + [e])
  {
  }

  lemma AddedKeeps(w: World, reading: Reading)
    requires Inv(w)
    ensures Inv(Next(w, Added(reading)))
  {
    var h := w.history;
    var e := Entry(|h.issued| + 1, reading);
    var w' := Next(w, Added(reading));
    var issued := h.issued + [e];
    forall s | s in w'.stats ensures StatsOk(s, issued) {
      if s in w.stats {
        if s.last.Some? { IssuedGrows([s.last.value], h.issued, e); }
      } else {
        assert s.last == Some(e) && issued[|h.issued|] == e;
      }
    }
    IssuedGrows(w.graph.entries, h.issued, e);
    if w.graph.flight.Answered? { IssuedGrows(w.graph.flight.steps, h.issued, e); }
  }

  lemma StepKeeps(w: World, e: Event)
    requires Inv(w)
    ensures Inv(Next(w, e))
  {
    match e
    case Added(reading) => AddedKeeps(w, reading);
    case Follows(which) =>
      if which < |w.stats| {
        assert w.stats[which] in w.stats;
        FollowKeeps(w.graph, w.history.issued, w.stats[which]);
      }
    case Serves =>
      if w.graph.flight.Asked? { ServesSelection(w.history, w.graph.flight.after); }
    case Arrives =>
      if w.graph.flight.Answered? { TakeKeeps(w.graph, w.history.issued, w.graph.flight.steps, w.graph.flight.replace); }
    case _ =>
  }

  function RunOf(w: World, events: seq<Event>): World
    decreases events
  {
    if events == [] then w else RunOf(Next(w, events[0]), events[1..])
  }

  lemma {:induction false} RunSplit(w: World, first: seq<Event>, rest: seq<Event>)
    ensures RunOf(w, first + rest) == RunOf(RunOf(w, first), rest)
    decreases first
  {
    if first == [] {
      assert first + rest == rest;
    } else {
      ConcatTail(first, rest);
      RunSplit(Next(w, first[0]), first[1..], rest);
    }
  }

  // Over every run, the server keeps the newest entries without a gap, and the client has a
  // selection of those issued, in order, at most 400, ending at its own number.
  lemma {:induction false} RunKeeps(w: World, events: seq<Event>)
    requires Inv(w)
    ensures Inv(RunOf(w, events))
    decreases events
  {
    if events != [] {
      StepKeeps(w, events[0]);
      RunKeeps(Next(w, events[0]), events[1..]);
    }
  }

  lemma EveryRun(limit: nat, events: seq<Event>)
    ensures Inv(RunOf(Initial(limit), events))
  {
    RunKeeps(Initial(limit), events);
  }

  // An answer that is not late brings the client up to the newest entry: what it had, then all
  // the server keeps above that, the last 400 of them.
  lemma AnswerCatchesUp(h: History, g: Graph)
    requires HistoryOk(h) && GraphOk(g, h.issued) && h.limit <= 5000
    ensures var g' := Take(g, After(Kept(h), g.number, 5000), false);
            && g'.entries == LastEntries(g.entries + h.issued[Min(|h.issued|, Max(h.start, g.number))..], KEEP)
            && (h.start < |h.issued| && g.number < |h.issued| ==> g'.number == |h.issued|)
  {
    var low := Min(|h.issued|, Max(h.start, g.number));
    AfterExact(h, g.number, 5000);
    assert Min(|h.issued|, low + 5000) == |h.issued|;
    assert h.issued[low..|h.issued|] == h.issued[low..];
    AllAbove(h, low, g.number);
    Merged(h, g, low);
  }

  lemma Merged(h: History, g: Graph, low: nat)
    requires HistoryOk(h) && low <= |h.issued| && Above(h.issued[low..], g.number) == h.issued[low..]
    ensures var g' := Take(g, h.issued[low..], false);
            g'.entries == LastEntries(g.entries + h.issued[low..], KEEP) && (low < |h.issued| ==> g'.number == |h.issued|)
  {
    NewestOf(g.entries, h.issued[low..]);
    if low < |h.issued| {
      assert h.issued[low..][|h.issued| - low - 1] == h.issued[|h.issued| - 1];
    }
  }

  lemma AllAbove(h: History, low: nat, after: nat)
    requires HistoryOk(h) && after <= |h.issued| && Min(|h.issued|, after) <= low <= |h.issued|
    ensures Above(h.issued[low..], after) == h.issued[low..]
  {
    var steps := h.issued[low..];
    RunSelects(h, low, |h.issued|);
    var k := AboveIsSuffix(steps, after);
    if steps != [] { assert steps[0] == h.issued[low]; }
  }

  lemma NewestOf(a: seq<Entry>, b: seq<Entry>)
    ensures var r := LastEntries(a + b, KEEP); b != [] ==> r != [] && r[|r| - 1] == b[|b| - 1]
  {
  }

  // -- following ------------------------------------------------------------------------------------

  // A client that shows the last 400 entries since the first one of its run, up to the newest,
  // with no question under way.
  ghost predicate InStep(w: World, first: nat) {
    var issued := w.history.issued;
    && w.graph.started && w.graph.flight.Idle? && first <= |issued|
    && w.graph.number == |issued| && w.graph.entries == LastEntries(issued[first..], KEEP)
  }

  // An event of the server, whose message the client follows at once.
  function Announced(w: World, e: Event): World {
    Next(Next(w, e), Follows(|w.stats|))
  }

  lemma LastSnoc(issued: seq<Entry>, first: nat, e: Entry)
    requires first <= |issued|
    ensures LastEntries(LastEntries(issued[first..], KEEP), KEEP - 1) + [e] == LastEntries((issued + [e])[first..], KEEP)
  {
    assert (issued + [e])[first..] == issued[first..] + [e];
  }

  lemma AddedInStep(w: World, first: nat, reading: Reading)
    requires InStep(w, first)
    ensures InStep(Announced(w, Added(reading)), first)
    ensures Announced(w, Added(reading)).history.issued == w.history.issued + [Entry(|w.history.issued| + 1, reading)]
  {
    var issued := w.history.issued;
    var e := Entry(|issued| + 1, reading);
    var w1 := Next(w, Added(reading));
    assert w1.stats[|w.stats|] == Stats(|issued| + 1, false, Some(e));
    LastSnoc(issued, first, e);
  }

  lemma NewRunInStep(w: World, first: nat)
    requires InStep(w, first)
    ensures InStep(Announced(w, NewRun), |w.history.issued|)
    ensures Announced(w, NewRun).history.issued == w.history.issued
  {
    var w1 := Next(w, NewRun);
    assert w1.stats[|w.stats|] == Stats(|w.history.issued|, true, None);
    assert w.history.issued[|w.history.issued|..] == [];
  }

  function AnnouncedAll(w: World, events: seq<Event>): World
    decreases events
  {
    if events == [] then w else AnnouncedAll(Announced(w, events[0]), events[1..])
  }

  // Where the run the client is in starts, after more events.
  function FirstAfter(first: nat, count: nat, events: seq<Event>): nat
    decreases events
  {
    if events == [] then first
    else if events[0].NewRun? then FirstAfter(count, count, events[1..])
    else FirstAfter(first, count + 1, events[1..])
  }

  // A client in step that follows every message stays in step without asking again: it shows the
  // last 400 entries of the run, and those alone, since the last run started.
  lemma {:induction false} StaysInStep(w: World, first: nat, events: seq<Event>)
    requires InStep(w, first) && forall e :: e in events ==> e.NewRun? || e.Added?
    ensures InStep(AnnouncedAll(w, events), FirstAfter(first, |w.history.issued|, events))
    decreases events
  {
    if events != [] {
      var e := events[0];
      assert e in events;
      if e.NewRun? {
        NewRunInStep(w, first);
      } else {
        AddedInStep(w, first, e.reading);
      }
      StaysInStep(Announced(w, e), if e.NewRun? then |w.history.issued| else first, events[1..]);
    }
  }

  // Hearing of an entry again changes nothing.
  lemma RepeatLeaves(w: World, first: nat, which: nat)
    requires Inv(w) && InStep(w, first) && which < |w.stats| && w.stats[which].last.Some?
    ensures Next(w, Follows(which)) == w
  {
    assert w.stats[which] in w.stats && StatsOk(w.stats[which], w.history.issued);
  }

  // After a failed question a client can ask again: for everything if it was the first one, when
  // its screen starts the graph again; else at the next gap.
  lemma FailedAsksAgain(g: Graph, stats: Stats)
    requires g.started && !g.flight.Idle?
    ensures Start(Fail(g, true)).flight == Asked(0, true) && Fail(g, true).entries == Fail(g, false).entries == g.entries
    ensures stats.last.Some? && stats.last.value.number > g.number + 1 ==> Follow(Fail(g, false), stats).flight == Asked(g.number, false)
  {
  }

  // A client that missed messages has all the server keeps of what it missed once it follows the
  // newest one, and the answer to its question, if it had to ask, arrives.
  lemma GapCloses(w: World)
    requires Inv(w) && w.history.limit <= 5000 && w.history.start < |w.history.issued|
    requires w.graph.started && w.graph.flight.Idle? && w.graph.number + 1 < |w.history.issued|
    requires w.stats != [] && w.stats[|w.stats| - 1].last == Some(w.history.issued[|w.history.issued| - 1])
    ensures var issued, g := w.history.issued, RunOf(w, [Follows(|w.stats| - 1), Serves, Arrives]).graph;
            && g.number == |issued| && g.flight.Idle?
            && g.entries == LastEntries(w.graph.entries + issued[Max(w.history.start, w.graph.number)..], KEEP)
  {
    var which := |w.stats| - 1;
    assert w.stats[which] in w.stats && StatsOk(w.stats[which], w.history.issued);
    var w1 := Next(w, Follows(which));
    assert w1.graph == w.graph.(flight := Asked(w.graph.number, false));
    var w2 := Next(w1, Serves);
    var w3 := Next(w2, Arrives);
    RunThrough([w, w1, w2, w3], [Follows(which), Serves, Arrives]);
    AnswerCatchesUp(w.history, w.graph);
  }

  // -- one run's entries ---------------------------------------------------------------------------------------------

  // None of an earlier run: after the number the run started at.
  ghost predicate Since(entries: seq<Entry>, first: nat) {
    forall e :: e in entries ==> e.number > first
  }

  // Once a client follows a new run, an answer brings back entries of an earlier one exactly if
  // it replaces the list and has some among the last it keeps.
  lemma StaysInRun(g: Graph, issued: seq<Entry>, steps: seq<Entry>, replace: bool, first: nat)
    requires GraphOk(g, issued) && Selection(steps, issued)
    requires Since(g.entries, first) && first <= g.number
    ensures Since(Take(g, steps, replace).entries, first) <==> !replace || Since(LastEntries(steps, KEEP), first)
  {
    if !replace {
      var k := AboveIsSuffix(steps, g.number);
      var merged := g.entries + steps[k..];
      assert forall e :: e in LastEntries(merged, KEEP) ==> e in merged;
    }
  }

  lemma {:induction false} RunThrough(worlds: seq<World>, events: seq<Event>)
    requires |worlds| == |events| + 1 && forall i :: 0 <= i < |events| ==> worlds[i + 1] == Next(worlds[i], events[i])
    ensures RunOf(worlds[0], events) == worlds[|events|]
    decreases events
  {
    if events != [] {
      RunThrough(worlds[1..], events[1..]);
    }
  }

  // Nothing the server has or had is taken back from its history.
  lemma {:induction false} OnlyGrows(w: World, events: seq<Event>)
    requires HistoryOk(w.history)
    ensures var h := RunOf(w, events).history;
            HistoryOk(h) && h.start >= w.history.start && |h.issued| >= |w.history.issued|
    decreases events
  {
    if events != [] {
      OnlyGrows(Next(w, events[0]), events[1..]);
    }
  }

  lemma OldEntries(was: History, first: nat)
    requires HistoryOk(was) && |was.issued| <= first
    ensures Since(LastEntries(After(Kept(was), 0, 5000), KEEP), first) <==> was.start == |was.issued|
  {
    AfterExact(was, 0, 5000);
    var steps := After(Kept(was), 0, 5000);
    RunSelects(was, was.start, Min(|was.issued|, was.start + 5000));
    var last := LastEntries(steps, KEEP);
    LastKeeps(steps, was.issued, KEEP);
    if was.start < |was.issued| {
      assert last[0] in last && last[0].number <= first;
    }
  }

  lemma NewEntries(was: History, first: nat)
    requires HistoryOk(was) && was.start >= first
    ensures Since(LastEntries(After(Kept(was), 0, 5000), KEEP), first)
  {
    AfterExact(was, 0, 5000);
    var steps := After(Kept(was), 0, 5000);
    assert forall i :: 0 <= i < |steps| ==> steps[i] == was.issued[was.start + i];
    assert forall e :: e in LastEntries(steps, KEEP) ==> e in steps;
  }

  lemma RunFurther(w: World, events: seq<Event>, a: nat, b: nat)
    requires a <= b <= |events|
    ensures RunOf(w, events[..b]) == RunOf(RunOf(w, events[..a]), events[a..b])
  {
    assert events[..b] == events[..a] + events[a..b];
    RunSplit(w, events[..a], events[a..b]);
  }

  // Of the answer to a first question, made after `s` events of a run in which event `m` starts a
  // new one: taken at any later time, it brings back earlier entries exactly if it was made
  // before that and something was kept then.
  lemma EarlierComeBackIff(limit: nat, events: seq<Event>, m: nat, s: nat, g: Graph)
    requires m < |events| && events[m] == NewRun && s <= |events|
    ensures var was := RunOf(Initial(limit), events[..s]).history;
            var first := |RunOf(Initial(limit), events[..m]).history.issued|;
            && was.start <= |was.issued|
            && (Since(Take(g, After(Kept(was), 0, 5000), true).entries, first) <==> s > m || Kept(was) == [])
  {
    var w := Initial(limit);
    var before, made := RunOf(w, events[..m]), RunOf(w, events[..s]);
    OnlyGrows(w, events[..m]);
    OnlyGrows(w, events[..s]);
    if s <= m {
      RunFurther(w, events, s, m);
      OnlyGrows(made, events[s..m]);
      OldEntries(made.history, |before.history.issued|);
    } else {
      RunFurther(w, events, m, m + 1);
      assert events[m..m + 1][1..] == [];
      assert RunOf(before, events[m..m + 1]) == Next(before, NewRun);
      RunFurther(w, events, m + 1, s);
      OnlyGrows(Next(before, NewRun), events[m + 1..s]);
      NewEntries(made.history, |before.history.issued|);
    }
  }

  // It happens: made before a new run and taken after it, it puts the old run back.
  lemma LateFirstAnswer(limit: nat, reading: Reading)
    requires limit >= 1
    ensures var w := RunOf(Initial(limit), [Starts, Added(reading), Serves, NewRun, Follows(1), Arrives]);
            && w.graph.entries == [Entry(1, reading)] && !Since(w.graph.entries, w.history.start)
  {
    var w3 := AskedFirst(limit, reading);
    var w6 := TakenLate(w3, limit, reading);
    RunSplit(Initial(limit), [Starts, Added(reading), Serves], [NewRun, Follows(1), Arrives]);
    assert [Starts, Added(reading), Serves] + [NewRun, Follows(1), Arrives] == [Starts, Added(reading), Serves, NewRun, Follows(1), Arrives];
  }

  // The first question is asked and answered, with one entry there.
  lemma AskedFirst(limit: nat, reading: Reading) returns (w3: World)
    requires limit >= 1
    ensures RunOf(Initial(limit), [Starts, Added(reading), Serves]) == w3
    ensures var e := Entry(1, reading);
            w3 == World(History([e], 0, limit), [Stats(1, false, Some(e))], Graph([], 0, true, Answered([e], true)))
  {
    var e := Entry(1, reading);
    var w1 := Next(Initial(limit), Starts);
    var w2 := Next(w1, Added(reading));
    assert w2 == World(History([e], 0, limit), [Stats(1, false, Some(e))], Graph([], 0, true, Asked(0, true)));
    assert Kept(w2.history) == [e] && After([e], 0, 5000) == [e] by { assert Above([e], 0) == [e] + Above([e][1..], 0); }
    w3 := Next(w2, Serves);
    RunThrough([Initial(limit), w1, w2, w3], [Starts, Added(reading), Serves]);
  }

  // A new run starts and is followed before the answer arrives.
  lemma TakenLate(w3: World, limit: nat, reading: Reading) returns (w6: World)
    requires var e := Entry(1, reading);
             w3 == World(History([e], 0, limit), [Stats(1, false, Some(e))], Graph([], 0, true, Answered([e], true)))
    ensures RunOf(w3, [NewRun, Follows(1), Arrives]) == w6
    ensures w6.graph.entries == [Entry(1, reading)] && !Since(w6.graph.entries, w6.history.start)
  {
    var e := Entry(1, reading);
    var w4 := Next(w3, NewRun);
    assert w4.stats[1] == Stats(1, true, None) && |w4.stats| == 2;
    var w5 := Next(w4, Follows(1));
    assert w5.graph == Graph([], 1, true, Answered([e], true));
    w6 := Next(w5, Arrives);
    assert e in w6.graph.entries;
    RunThrough([w3, w4, w5, w6], [NewRun, Follows(1), Arrives]);
  }

  // -- the RMS -----------------------------------------------------------------------------------------------------------

  function Sum(values: seq<real>): real {
    if values == [] then 0.0 else Sum(values[..|values| - 1]) + values[|values| - 1]
  }

  function SquaresAbout(values: seq<real>, mean: real): real {
    if values == [] then 0.0
    else SquaresAbout(values[..|values| - 1], mean) + (values[|values| - 1] - mean) * (values[|values| - 1] - mean)
  }

  function Mean(values: seq<real>): real
    requires values != []
  {
    Sum(values) / |values| as real
  }

  // The square of the deviation.
  function Variance(values: seq<real>): real
    requires values != []
  {
    SquaresAbout(values, Mean(values)) / |values| as real
  }

  function Shifted(values: seq<real>, offset: real): (r: seq<real>)
    ensures |r| == |values|
  {
    if values == [] then [] else Shifted(values[..|values| - 1], offset) + [values[|values| - 1] + offset]
  }

  lemma ShiftedInit(values: seq<real>, offset: real)
    requires values != []
    ensures var n, all := |values| - 1, Shifted(values, offset);
            all[..n] == Shifted(values[..n], offset) && all[n] == values[n] + offset
  {
  }

  // `total` is the offset as often as there are values.
  lemma {:induction false} ShiftedSum(values: seq<real>, offset: real, total: real)
    requires total == |values| as real * offset
    ensures Sum(Shifted(values, offset)) == Sum(values) + total
  {
    if values != [] {
      var n := |values| - 1;
      OneMoreTimes(n, offset);
      ShiftedSum(values[..n], offset, total - offset);
      ShiftedInit(values, offset);
    }
  }

  lemma {:induction false} ShiftedSquares(values: seq<real>, offset: real, mean: real, shifted: real)
    requires shifted == mean + offset
    ensures SquaresAbout(Shifted(values, offset), shifted) == SquaresAbout(values, mean)
  {
    if values != [] {
      var n := |values| - 1;
      ShiftedSquares(values[..n], offset, mean, shifted);
      ShiftedInit(values, offset);
      assert Shifted(values, offset)[n] - shifted == values[n] - mean;
    }
  }

  lemma OneMoreTimes(n: nat, x: real)
    ensures (n + 1) as real * x == n as real * x + x
  {
  }

  lemma {:induction false} SquaresPositive(values: seq<real>, mean: real)
    ensures SquaresAbout(values, mean) >= 0.0
  {
    if values != [] {
      SquaresPositive(values[..|values| - 1], mean);
      var d := values[|values| - 1] - mean;
      assert d * d >= 0.0;
    }
  }

  lemma MeanShifts(sum: real, n: real, offset: real)
    requires n > 0.0
    ensures (sum + n * offset) / n == sum / n + offset
  {
  }

  lemma Quotient(x: real, n: real)
    requires x >= 0.0 && n > 0.0
    ensures x / n >= 0.0
  {
  }

  // Of two values it is half their distance.
  lemma DeviationOfTwo(a: real, b: real)
    ensures Mean([a, b]) == (a + b) / 2.0
    ensures Variance([a, b]) == ((a - b) / 2.0) * ((a - b) / 2.0)
  {
    assert [a, b][..1] == [a] && [a][..0] == [];
    var mean, half := Mean([a, b]), (a - b) / 2.0;
    assert Sum([a]) == Sum([]) + a && Sum([a, b]) == Sum([a]) + b;
    assert a - mean == half && b - mean == -half;
    assert SquaresAbout([a], mean) == SquaresAbout([], mean) + half * half;
    assert SquaresAbout([a, b], mean) == SquaresAbout([a], mean) + half * half;
  }

  // The deviation leaves out a constant offset, and there is always one.
  lemma OffsetLeftOut(values: seq<real>, offset: real)
    requires values != []
    ensures Variance(Shifted(values, offset)) == Variance(values)
    ensures Variance(values) >= 0.0
  {
    MeanOfShifted(values, offset);
    ShiftedSquares(values, offset, Mean(values), Mean(Shifted(values, offset)));
    SquaresPositive(values, Mean(values));
    Quotient(SquaresAbout(values, Mean(values)), |values| as real);
  }

  lemma MeanOfShifted(values: seq<real>, offset: real)
    requires values != []
    ensures Mean(Shifted(values, offset)) == Mean(values) + offset
  {
    ShiftedSum(values, offset, |values| as real * offset);
    MeanShifts(Sum(values), |values| as real, offset);
  }
}
