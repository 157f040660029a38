/**
 Clipboard leases whose copies overlap in any way: when a copied secret is left behind,
 over every run of any number of copiers, watchers and outsiders and every failure.
 */
module ClipboardOverlap {
  import opened ClipboardLease

  /** The copy that wrote the clipboard last still has its copier or its watcher at work. */
  ghost predicate Minded(w: World) {
    || (exists c :: 0 <= c < |w.copiers| && w.copiers[c].Written? && w.copiers[c].id == w.board.writer)
    || (exists i :: 0 <= i < |w.watchers| && !w.watchers[i].Ended? && w.watchers[i].id == w.board.writer)
  }

  /** A copied secret is in the clipboard, and the copy that put it there is over. */
  ghost predicate Orphan(w: World) { w.board.writer != 0 && w.board.clipboard != "" && !Minded(w) }

  ghost predicate WriterHolds(w: World) {
    w.board.writer != 0 ==> w.board.writer in w.texts && w.board.clipboard == w.texts[w.board.writer]
  }

  ghost predicate IdsDiffer(w: World) {
    forall i, j :: 0 <= i < j < |w.watchers| ==> w.watchers[i].id != w.watchers[j].id
  }

  ghost predicate Overlapping(w: World) { Holds(w) && WriterHolds(w) && IdsDiffer(w) }

  lemma OverlappingStep(w: World, e: Event)
    requires Overlapping(w) && Next(w, e).copies < WORD
    ensures Overlapping(Next(w, e))
  {
    NextHolds(w, e);
    if IsWatchers(e) {
      WatcherStep(w, e);
      var n := Next(w, e);
      hide Next, Holds;
      if n != w { assert WatcherActs(w, n, e.w); }
    } else {
      CopyKeepsWriter(w, e);
    }
  }

  lemma CopyKeepsWriter(w: World, e: Event)
    requires Overlapping(w) && !IsWatchers(e)
    ensures WriterHolds(Next(w, e)) && IdsDiffer(Next(w, e))
  {
    hide PendingHold, DroppedHold;
  }

  // ---------------------------------------------------------------- one step

  /**
   A copied secret's watcher finds itself superseded, when it looks or when it loads its
   text, exactly if its lease is not the active one, or not the one registered last.
   */
  lemma SupersededExactly(w: World, i: nat)
    requires Overlapping(w) && i < |w.watchers| && w.watchers[i].id == w.board.writer && w.board.clipboard != ""
    ensures var id := w.watchers[i].id;
      && (!IsCurrent(w.board, id) <==> w.board.active != id)
      && (LeaseText(w.board, id) == "" <==> w.last != id)
  {
    assert w.watchers[i].id in w.board.leases;
  }

  /** The watcher's own secret is in the clipboard. */
  predicate Holder(w: World, i: nat) {
    i < |w.watchers| && w.watchers[i].id == w.board.writer != 0 && w.board.clipboard != ""
  }

  /**
   The copy whose secret is in the clipboard is over without having it cleared: its watcher
   finds itself superseded, cannot read or cannot erase, or the copy is dropped before it
   has a watcher, or its write reports a failure.
   */
  ghost predicate Abandons(w: World, e: Event) {
    match e
    case TickWatcher(i) => Ticks(w, e, i) && Holder(w, i) && !IsCurrent(w.board, w.board.writer)
    case LoadText(i) => Holder(w, i) && w.watchers[i].Looking? && LeaseText(w.board, w.board.writer) == ""
    case ReadClipboard(i, access) => Holder(w, i) && w.watchers[i].Comparing? && access != Honest
    case EraseClipboard(i, fails) => Holder(w, i) && w.watchers[i].Erasing? && fails
    case DropCopy(c) =>
      c < |w.copiers| && w.copiers[c].Written? && w.copiers[c].id == w.board.writer != 0 && w.board.clipboard != ""
    case WriteCopy(c, how) => how == Fails(true) && c < |w.copiers| && w.copiers[c].Activated? && w.copiers[c].text != ""
    case _ => false
  }

  /** Somebody else writes the clipboard, or a watcher erases it. */
  ghost predicate Relieves(w: World, e: Event) {
    match e
    case OutsiderWrites(_) => true
    case WriteCopy(c, how) => how != Fails(false) && c < |w.copiers| && w.copiers[c].Activated?
    case EraseClipboard(i, fails) => !fails && i < |w.watchers| && w.watchers[i].Erasing?
    case _ => false
  }

  ghost predicate OrphanStep(w: World, e: Event) {
    Orphan(Next(w, e)) <==> Abandons(w, e) || (Orphan(w) && !Relieves(w, e))
  }

  lemma CopierOrphans(w: World, e: Event)
    requires Overlapping(w) && (e.BeginCopy? || e.RegisterCopy? || e.ActivateCopy? || e.WriteCopy? || e.SpawnWatcher? || e.DropCopy?)
    ensures OrphanStep(w, e)
  {
    var n := Next(w, e);
    if n != w && e.c < |w.copiers| {
      hide Overlapping;
      assert forall c :: 0 <= c < |w.copiers| && c != e.c ==> n.copiers[c] == w.copiers[c];
      if e.SpawnWatcher? {
        assert n.watchers[|w.watchers|].Watching?;
        assert forall i :: 0 <= i < |w.watchers| ==> n.watchers[i] == w.watchers[i];
      } else {
        assert n.watchers == w.watchers && (e.DropCopy? || !w.copiers[e.c].Written?);
        if e.WriteCopy? && e.how.Works? { assert n.copiers[e.c].Written?; }
      }
    }
  }

  lemma TickOrphans(w: World, e: Event)
    requires Overlapping(w) && IsWatchers(e)
    ensures OrphanStep(w, e)
  {
    var n := Next(w, e);
    WatcherStep(w, e);
    if n == w {
      NothingAbandoned(w, e);
    } else {
      OnlyErasingWrites(w, e);
      if Holder(w, e.w) { HolderActs(w, e); }
      assert Relieves(w, e) <==> Cures(w, e);
      hide Next, Holds, Cures, IsCurrent;
      ActingOrphans(w, n, e);
    }
  }

  lemma NothingAbandoned(w: World, e: Event)
    requires Overlapping(w) && IsWatchers(e) && Next(w, e) == w
    ensures !Abandons(w, e) && !Relieves(w, e)
  {
    hide Holds;
    if e.w < |w.watchers| && !w.watchers[e.w].Ended? { assert w.watchers[e.w := Ended(w.watchers[e.w].id)] != w.watchers; }
  }

  /** A watcher whose own secret is in the clipboard ends by giving it up or by erasing it. */
  lemma HolderActs(w: World, e: Event)
    requires Overlapping(w) && IsWatchers(e) && Holder(w, e.w) && Next(w, e) != w
    ensures Next(w, e).watchers[e.w].Ended? <==> Abandons(w, e) || Relieves(w, e)
    ensures !(Abandons(w, e) && Relieves(w, e))
  {
    hide PendingHold, DroppedHold, CopiersHold;
  }

  lemma ActingOrphans(w: World, n: World, e: Event)
    requires Overlapping(w) && IsWatchers(e) && WatcherActs(w, n, e.w)
    requires n.board.writer == if Relieves(w, e) then 0 else w.board.writer
    requires Holder(w, e.w) ==>
      (n.watchers[e.w].Ended? <==> Abandons(w, e) || Relieves(w, e)) && !(Abandons(w, e) && Relieves(w, e))
    ensures Orphan(n) <==> Abandons(w, e) || (Orphan(w) && !Relieves(w, e))
  {
    hide Holds, IsCurrent;
    assert forall i :: 0 <= i < |w.watchers| && i != e.w ==> n.watchers[i] == w.watchers[i];
    if Abandons(w, e) { assert Holder(w, e.w); }
    if !Relieves(w, e) && w.board.writer != 0 {
      assert n.board.clipboard == w.board.clipboard && n.copiers == w.copiers;
      if w.watchers[e.w].id == w.board.writer {
        assert forall i :: 0 <= i < |w.watchers| && i != e.w ==> w.watchers[i].id != w.board.writer;
        WatchersCopierIsOver(w, e.w);
      } else {
        OthersMind(w, n, e.w);
      }
    }
  }

  lemma WatchersCopierIsOver(w: World, i: nat)
    requires Overlapping(w) && i < |w.watchers|
    ensures forall c :: 0 <= c < |w.copiers| && w.copiers[c].Written? ==> w.copiers[c].id != w.watchers[i].id
  {
    hide PendingHold, DroppedHold, CopiersHold, LeasesHold;
  }

  lemma OthersMind(w: World, n: World, at: nat)
    requires WatcherActs(w, n, at) && w.watchers[at].id != w.board.writer && n.board.writer == w.board.writer
    ensures Minded(n) <==> Minded(w)
  {
    assert forall i :: 0 <= i < |w.watchers| && i != at ==> n.watchers[i] == w.watchers[i];
    if i :| 0 <= i < |w.watchers| && !w.watchers[i].Ended? && w.watchers[i].id == w.board.writer {
      assert !n.watchers[i].Ended? && n.watchers[i].id == n.board.writer;
    }
  }

  /** One step, overlapping copies or not: a secret is orphaned exactly when its copy or watcher gives up, until it is relieved. */
  lemma OrphanStepExactly(w: World, e: Event)
    requires Overlapping(w)
    ensures OrphanStep(w, e)
  {
    match e
    case OutsiderWrites(_) =>
    case Elapse(_) =>
    case _ => if IsWatchers(e) { TickOrphans(w, e); } else { CopierOrphans(w, e); }
  }

  // ---------------------------------------------------------------- whole runs

  /** Whether a secret is left behind, by the events: its watcher gave it up, and nothing has relieved it since. */
  ghost predicate Abandoned(w: World, events: seq<Event>, orphan: bool)
    decreases |events|
  {
    if events == [] then orphan
    else Abandoned(Next(w, events[0]), events[1..], Abandons(w, events[0]) || (orphan && !Relieves(w, events[0])))
  }

  lemma {:induction false} OrphansExactly(w: World, events: seq<Event>)
    requires Overlapping(w) && Run(w, events).copies < WORD
    ensures Orphan(Run(w, events)) <==> Abandoned(w, events, Orphan(w))
    decreases |events|
  {
    if events != [] {
      CopiesOnlyGrow(Next(w, events[0]), events[1..]);
      OverlappingStep(w, events[0]);
      OrphanStepExactly(w, events[0]);
      hide Overlapping, Orphan, Abandons, Relieves, Next;
      OrphansExactly(Next(w, events[0]), events[1..]);
    }
  }

  /**
   Every run, however its copies overlap and whatever fails: once everybody is done, a
   secret that a copy put into the clipboard is still there exactly if that copy's watcher
   gave it up, superseded or kept from reading or erasing it, or the copy itself ended in
   an exception after its text was in, and nobody has written or erased the clipboard since.
   */
  lemma AnySecretStaysExactly(w: World, events: seq<Event>)
    requires Fresh(w) && Run(w, events).copies < WORD && Done(Run(w, events))
    ensures var end := Run(w, events);
      end.board.writer != 0 && end.board.clipboard != "" <==> Abandoned(w, events, false)
  {
    assert Overlapping(w) && !Orphan(w);
    OrphansExactly(w, events);
    assert !Minded(Run(w, events));
  }
}
