/**
 When a copied secret goes: the delay that a copy asks for, followed from its beginning
 through its watcher, in terms of the events of a run and the time at which they happen.
 */
module ClipboardTiming {
  import opened Options
  import opened ClipboardLease

  /** A copy asked for by `c` after `before`; it hands its lease to a watcher after `during` more events. */
  datatype Copy = Copy(before: seq<Event>, c: nat, text: string, delay: nat, during: seq<Event>) {
    function Asked(w: World): World { Run(w, before) }

    /** The lease of this copy: copies are numbered from one on. */
    function Lease(w: World): nat { Asked(w).copies + 1 }

    /** The moment at which the watcher starts. */
    function Handover(w: World): World { Run(Next(Asked(w), BeginCopy(c, text, delay)), during) }

    function Watcher(w: World): nat { |Handover(w).watchers| }

    function Watched(w: World): World { Next(Handover(w), SpawnWatcher(c)) }

    /** The copier was free, and is to start the watcher of the same copy. */
    predicate Completes(w: World) {
      && c < |Asked(w).copiers| && Asked(w).copiers[c].Idle?
      && c < |Handover(w).copiers| && Handover(w).copiers[c].Written? && Handover(w).copiers[c].id == Lease(w)
    }
  }

  // ---------------------------------------------------------------- what is handed over

  /** As long as the copier is at this lease, it has the text and the delay it was given. */
  ghost predicate Carries(w: World, c: nat, id: nat, text: string, delay: nat) {
    && c < |w.copiers| && id <= w.copies
    && (!w.copiers[c].Idle? && w.copiers[c].id == id ==> w.copiers[c].text == text && w.copiers[c].delay == delay)
  }

  lemma CarriesOn(w: World, e: Event, c: nat, id: nat, text: string, delay: nat)
    requires Holds(w) && Next(w, e).copies < WORD && Carries(w, c, id, text, delay)
    ensures Carries(Next(w, e), c, id, text, delay)
  {
    assert w.board.generation == w.copies;
    hide Holds;
  }

  lemma {:induction false} CarriesAlong(w: World, events: seq<Event>, c: nat, id: nat, text: string, delay: nat)
    requires Holds(w) && Run(w, events).copies < WORD && Carries(w, c, id, text, delay)
    ensures Holds(Run(w, events)) && Carries(Run(w, events), c, id, text, delay)
    decreases |events|
  {
    if events != [] {
      var n := Next(w, events[0]);
      CopiesOnlyGrow(n, events[1..]);
      NextHolds(w, events[0]);
      CarriesOn(w, events[0], c, id, text, delay);
      hide Next, Holds, Carries;
      CarriesAlong(n, events[1..], c, id, text, delay);
    }
  }

  /** A lease and its text stay together once it is registered. */
  lemma TextStays(w: World, e: Event, id: nat)
    requires Holds(w) && id in w.texts
    ensures id in Next(w, e).texts && Next(w, e).texts[id] == w.texts[id]
  {
    hide WatchersHold, DroppedHold, PendingHold, LeasesHold;
  }

  // ---------------------------------------------------------------- the watcher

  /** Whatever the watcher is at, it is to clear the clipboard at `due`. */
  predicate KeepsTime(k: Watcher, id: nat, due: nat) {
    k.id == id && (k.Watching? || k.Looking? || k.Comparing? ==> k.deadline == due)
  }

  ghost predicate Watches(w: World, i: nat, id: nat, text: string, due: nat) {
    && Holds(w) && Timely(w) && i < |w.watchers| && KeepsTime(w.watchers[i], id, due) && id in w.texts && w.texts[id] == text
  }

  lemma KeepsTimeOn(w: World, e: Event, i: nat, id: nat, due: nat)
    requires i < |w.watchers| && KeepsTime(w.watchers[i], id, due)
    ensures i < |Next(w, e).watchers| && KeepsTime(Next(w, e).watchers[i], id, due)
  {
  }

  lemma WatchesOn(w: World, e: Event, i: nat, id: nat, text: string, due: nat)
    requires Watches(w, i, id, text, due) && Next(w, e).copies < WORD
    ensures Watches(Next(w, e), i, id, text, due)
  {
    NextHolds(w, e);
    TextStays(w, e, id);
    TickUsesOneUp(w, e, i);
    KeepsTimeOn(w, e, i, id, due);
    hide Holds, Next, Timely;
  }

  lemma {:induction false} WatchesAlong(w: World, events: seq<Event>, i: nat, id: nat, text: string, due: nat)
    requires Watches(w, i, id, text, due) && Run(w, events).copies < WORD
    ensures Watches(Run(w, events), i, id, text, due)
    decreases |events|
  {
    if events != [] {
      var n := Next(w, events[0]);
      CopiesOnlyGrow(n, events[1..]);
      WatchesOn(w, events[0], i, id, text, due);
      hide Next, Watches;
      WatchesAlong(n, events[1..], i, id, text, due);
    }
  }

  /** The watcher is in the pass that began at `at`, or has come to the end of it. */
  predicate InPass(k: Watcher, at: nat, due: nat) {
    && (k.Looking? || k.Comparing? ==> k.at == at && k.deadline == due)
    && (k.Erasing? ==> at >= due)
    && (k.Watching? ==> k.deadline == due)
  }

  lemma {:induction false} PassGoesOn(w: World, events: seq<Event>, i: nat, at: nat, due: nat)
    requires i < |w.watchers| && InPass(w.watchers[i], at, due) && TickWatcher(i) !in events
    ensures i < |Run(w, events).watchers| && InPass(Run(w, events).watchers[i], at, due)
    decreases |events|
  {
    if events != [] {
      assert events[0] != TickWatcher(i);
      PassGoesOn(Next(w, events[0]), events[1..], i, at, due);
    }
  }

  lemma FreshIsTimely(w: World)
    requires Fresh(w)
    ensures Holds(w) && Timely(w)
  {
  }

  lemma {:induction false} TimelyAlong(w: World, events: seq<Event>)
    requires Timely(w)
    ensures Timely(Run(w, events))
    decreases |events|
  {
    if events != [] {
      TimelyOn(w, events[0]);
      hide Next, Timely;
      TimelyAlong(Next(w, events[0]), events[1..]);
    }
  }

  lemma TimelyOn(w: World, e: Event)
    requires Timely(w)
    ensures Timely(Next(w, e))
  {
  }

  /** The watcher that a copy starts keeps the time that the copy asked for. */
  lemma WatcherIsTimed(w: World, copy: Copy, since: seq<Event>)
    requires Fresh(w) && copy.Completes(w) && Run(copy.Watched(w), since).copies < WORD
    ensures var t := copy.Handover(w).now;
      && Watches(copy.Watched(w), copy.Watcher(w), copy.Lease(w), copy.text, t + copy.delay)
      && Watches(Run(copy.Watched(w), since), copy.Watcher(w), copy.Lease(w), copy.text, t + copy.delay)
  {
    var asked, handover, watched := copy.Asked(w), copy.Handover(w), copy.Watched(w);
    var begun := Next(asked, BeginCopy(copy.c, copy.text, copy.delay));
    CopiesOnlyGrow(watched, since);
    CopiesOnlyGrow(begun, copy.during);
    FreshIsTimely(w);
    RunHolds(w, copy.before);
    NextHolds(asked, BeginCopy(copy.c, copy.text, copy.delay));
    BegunCarries(asked, copy.c, copy.text, copy.delay);
    TimelyAlong(w, copy.before);
    TimelyOn(asked, BeginCopy(copy.c, copy.text, copy.delay));
    TimelyAlong(begun, copy.during);
    CarriesAlong(begun, copy.during, copy.c, copy.Lease(w), copy.text, copy.delay);
    SpawnedWatches(handover, copy.c, copy.Lease(w), copy.text, copy.delay);
    hide Run, Next, Holds, Watches, Carries, Timely;
    WatchesAlong(watched, since, copy.Watcher(w), copy.Lease(w), copy.text, handover.now + copy.delay);
  }

  lemma BegunCarries(w: World, c: nat, text: string, delay: nat)
    requires Holds(w) && c < |w.copiers| && w.copiers[c].Idle? && w.copies + 1 < WORD
    ensures Carries(Next(w, BeginCopy(c, text, delay)), c, w.copies + 1, text, delay)
  {
    assert w.board.generation == w.copies;
  }

  lemma SpawnedWatches(w: World, c: nat, id: nat, text: string, delay: nat)
    requires Holds(w) && Timely(w) && Carries(w, c, id, text, delay) && w.copiers[c].Written? && w.copiers[c].id == id && w.copies < WORD
    ensures Watches(Next(w, SpawnWatcher(c)), |w.watchers|, id, text, w.now + delay)
  {
    NextHolds(w, SpawnWatcher(c));
    TimelyOn(w, SpawnWatcher(c));
    assert id in w.texts && w.texts[id] == text;
    hide Holds;
  }

  // ---------------------------------------------------------------- the results

  /**
   In every run: a watcher sets out to erase only in a pass that began no sooner than the
   delay its copy asked for, counted from the start of the watcher. And it does so whenever
   it finds the copied text in such a pass; in an earlier one it leaves it there.
   */
  lemma ErasesOnTime(w: World, copy: Copy, since: seq<Event>, rest: seq<Event>, access: Access)
    requires Fresh(w) && copy.Completes(w) && Ticks(Run(copy.Watched(w), since), TickWatcher(copy.Watcher(w)), copy.Watcher(w))
    requires TickWatcher(copy.Watcher(w)) !in rest
    requires Run(Next(Run(copy.Watched(w), since), TickWatcher(copy.Watcher(w))), rest).copies < WORD
    ensures var i, pass := copy.Watcher(w), Run(copy.Watched(w), since);
      var end := Run(Next(pass, TickWatcher(i)), rest); var due := pass.now >= copy.Handover(w).now + copy.delay;
      && i < |end.watchers| && end.watchers[i].id == copy.Lease(w)
      && (end.watchers[i].Erasing? ==> due)
      && (end.watchers[i].Comparing? && Seen(end.board, copy.text, access) == Mine ==>
            var k := Next(end, ReadClipboard(i, access)).watchers[i]; if due then k.Erasing? else k.Watching?)
  {
    var i, id, at := copy.Watcher(w), copy.Lease(w), copy.Handover(w).now + copy.delay;
    var pass := Run(copy.Watched(w), since);
    CopiesOnlyGrow(Next(pass, TickWatcher(i)), rest);
    assert Next(pass, TickWatcher(i)).copies == pass.copies;
    hide Run, Next, Holds, Watches, Timely, Seen, InPass;
    WatcherIsTimed(w, copy, since);
    PassErases(pass, i, id, copy.text, at, rest, access);
  }

  lemma PassErases(w: World, i: nat, id: nat, text: string, due: nat, rest: seq<Event>, access: Access)
    requires Watches(w, i, id, text, due) && Ticks(w, TickWatcher(i), i) && TickWatcher(i) !in rest
    requires Run(Next(w, TickWatcher(i)), rest).copies < WORD
    ensures var end := Run(Next(w, TickWatcher(i)), rest);
      && i < |end.watchers| && end.watchers[i].id == id
      && (end.watchers[i].Erasing? ==> w.now >= due)
      && (end.watchers[i].Comparing? && Seen(end.board, text, access) == Mine ==>
            var k := Next(end, ReadClipboard(i, access)).watchers[i]; if w.now >= due then k.Erasing? else k.Watching?)
  {
    var ticked := Next(w, TickWatcher(i));
    CopiesOnlyGrow(ticked, rest);
    TickBegins(w, i, due);
    WatchesOn(w, TickWatcher(i), i, id, text, due);
    var end := Run(ticked, rest);
    PassGoesOn(ticked, rest, i, w.now, due);
    hide Run, Holds, Timely;
    WatchesAlong(ticked, rest, i, id, text, due);
    ComparesWithText(end, i, id, text, due);
    ReadDecides(end, i, text, w.now, due, access);
  }

  lemma ReadDecides(w: World, i: nat, text: string, at: nat, due: nat, access: Access)
    requires i < |w.watchers| && InPass(w.watchers[i], at, due) && (w.watchers[i].Comparing? ==> w.watchers[i].expected == text)
    ensures w.watchers[i].Comparing? && Seen(w.board, text, access) == Mine ==>
      var k := Next(w, ReadClipboard(i, access)).watchers[i]; if at >= due then k.Erasing? else k.Watching?
  {
  }

  lemma TickBegins(w: World, i: nat, due: nat)
    requires Ticks(w, TickWatcher(i), i) && w.watchers[i].deadline == due
    ensures InPass(Next(w, TickWatcher(i)).watchers[i], w.now, due)
  {
  }

  lemma ComparesWithText(w: World, i: nat, id: nat, text: string, due: nat)
    requires Watches(w, i, id, text, due)
    ensures w.watchers[i].Comparing? ==> w.watchers[i].expected == text
  {
  }

  /**
   In every run: an undisturbed pass in which reading and erasing work, over the secret of
   the current lease. It empties the clipboard and ends the watch if it begins no sooner
   than the delay after the start of the watcher, and else changes nothing and goes on.
   */
  lemma SecretGoesOnTime(w: World, copy: Copy, since: seq<Event>)
    requires Fresh(w) && copy.Completes(w) && copy.text != "" && Run(copy.Watched(w), since).copies < WORD
    requires var pass := Run(copy.Watched(w), since);
      && Ticks(pass, TickWatcher(copy.Watcher(w)), copy.Watcher(w))
      && pass.board.active == copy.Lease(w) && pass.last == copy.Lease(w) && pass.board.clipboard == copy.text
    ensures var i, pass := copy.Watcher(w), Run(copy.Watched(w), since);
      var end := Run(pass, [TickWatcher(i), LoadText(i)] + [ReadClipboard(i, Honest), EraseClipboard(i, false)]);
      var due := pass.now >= copy.Handover(w).now + copy.delay;
      && end.board.clipboard == (if due then "" else copy.text)
      && i < |end.watchers| && (end.watchers[i].Ended? <==> due) && (!due ==> end.board == pass.board)
  {
    var i, id := copy.Watcher(w), copy.Lease(w);
    var pass := Run(copy.Watched(w), since);
    WatcherIsTimed(w, copy, since);
    UndisturbedPass(pass, i, Honest, false);
    CurrentText(pass, i, id, copy.text, copy.Handover(w).now + copy.delay);
    hide Run, Holds, Timely;
  }

  lemma CurrentText(w: World, i: nat, id: nat, text: string, due: nat)
    requires Watches(w, i, id, text, due) && w.last == id && w.board.active == id
    ensures LeaseText(w.board, id) == text && IsCurrent(w.board, id)
  {
    hide WatchersHold, DroppedHold, PendingHold, CopiersHold;
  }

  /** In every run, such a watcher begins at most one pass and one for every poll that fits into the delay. */
  lemma WatcherEndsInTime(w: World, copy: Copy, since: seq<Event>)
    requires Fresh(w) && copy.Completes(w) && Run(copy.Watched(w), since).copies < WORD
    ensures var i, end, most := copy.Watcher(w), Run(copy.Watched(w), since), 1 + (copy.delay + POLL_MS - 1) / POLL_MS;
      && i < |end.watchers|
      && TicksTaken(copy.Watched(w), since, i) <= most
      && (TicksTaken(copy.Watched(w), since, i) == most ==> !end.watchers[i].Watching?)
  {
    WatcherIsTimed(w, copy, since);
    WatcherEnds(copy.Watched(w), since, copy.Watcher(w));
    SpawnedSleeps(copy.Handover(w), copy.c, copy.delay);
    hide Run, Next, Holds, Timely;
  }

  lemma SpawnedSleeps(w: World, c: nat, delay: nat)
    requires c < |w.copiers| && w.copiers[c].Written?
    ensures var k := Next(w, SpawnWatcher(c)).watchers[|w.watchers|]; k.Watching? && k.due == w.now
  {
  }

  /** No watcher sleeps for more than a quarter of a second. */
  ghost predicate SleepsBriefly(w: World) {
    forall i :: 0 <= i < |w.watchers| && w.watchers[i].Watching? ==> w.watchers[i].due <= w.now + 250
  }

  lemma SleepsOn(w: World, e: Event)
    requires SleepsBriefly(w)
    ensures SleepsBriefly(Next(w, e))
  {
    if e.ReadClipboard? && e.w < |w.watchers| && w.watchers[e.w].Comparing? {
      var n := Next(w, e);
      assert forall i :: 0 <= i < |w.watchers| && i != e.w ==> n.watchers[i] == w.watchers[i];
    }
  }

  lemma {:induction false} SleepsAlong(w: World, events: seq<Event>)
    requires SleepsBriefly(w)
    ensures SleepsBriefly(Run(w, events))
    decreases |events|
  {
    if events != [] {
      SleepsOn(w, events[0]);
      hide Next, SleepsBriefly;
      SleepsAlong(Next(w, events[0]), events[1..]);
    }
  }

  /** In every run: once a quarter of a second has gone by, every sleeping watcher can begin its next pass. */
  lemma WatchersWakeUp(w: World, events: seq<Event>, i: nat)
    requires Fresh(w) && i < |Run(w, events).watchers| && Run(w, events).watchers[i].Watching?
    ensures Ticks(Next(Run(w, events), Elapse(250)), TickWatcher(i), i)
  {
    SleepsAlong(w, events);
  }
}
