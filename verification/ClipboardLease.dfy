/**
 Timed clipboard leases. A copy takes a number, registers itself under a lock, becomes
 the active lease, writes the clipboard and starts a watcher thread; the watcher clears
 the clipboard at its deadline, or ends early when it sees that its text is gone. In each
 pass it looks at the active lease, then at its record, then at the clipboard, and only
 then clears. Copiers, watchers and outsiders interleave freely between all these actions.
 */
module ClipboardLease {
  import opened Options

  const WORD: nat := 0x1_0000_0000_0000_0000
  const POLL_MS: nat := 250

  datatype LeaseState = Pending | Cleared | Changed
  datatype Lease = Lease(text: string, state: LeaseState)

  /** The shared variables, and the system clipboard. `writer` is the lease that wrote it last, 0 for anybody else. */
  datatype Board = Board(generation: nat, active: nat, leases: map<nat, Lease>, clipboard: string, writer: nat)

  /** What a watcher's reading of the clipboard comes to. A failing read command looks like an empty clipboard. */
  datatype Access = Honest | ReadsNothing | ReadThrows

  // ---------------------------------------------------------------- single actions

  function TakeNumber(b: Board): Board { b.(generation := (b.generation + 1) % WORD) }

  function Register(b: Board, id: nat, text: string): Board {
    b.(leases := (map k | k in b.leases && k != id :: Lease("", Changed))[id := Lease(text, Pending)])
  }

  function SetState(b: Board, id: nat, state: LeaseState): Board {
    if id in b.leases then b.(leases := b.leases[id := b.leases[id].(state := state)]) else b
  }

  function LeaseText(b: Board, id: nat): string { if id in b.leases then b.leases[id].text else "" }

  predicate IsCurrent(b: Board, id: nat) { id != 0 && b.active == id }

  datatype Ticked = Ticked(board: Board, ended: bool)

  /** What a watcher makes of the clipboard when it knows the text it is to find. */
  datatype Sight = Throws | Gone | Other | Mine

  function Seen(b: Board, expected: string, access: Access): Sight {
    var current := if access == ReadsNothing then "" else b.clipboard;
    if access == ReadThrows then Throws else if current == "" then Gone else if current != expected then Other else Mine
  }

  /** The clipboard is emptied, the lease settled, and the active id reset if it still is this lease's. */
  function Erase(b: Board, id: nat): Board {
    SetState(b, id, Cleared).(clipboard := "", writer := 0, active := if b.active == id then 0 else b.active)
  }

  /** One pass of the watcher with nothing happening in between: through the loop, or, once `expired`, after it. */
  function Tick(b: Board, id: nat, expired: bool, access: Access, eraseFails: bool): Ticked {
    if !IsCurrent(b, id) || LeaseText(b, id) == "" then Ticked(SetState(b, id, Changed), true)
    else match Seen(b, LeaseText(b, id), access)
      case Throws => Ticked(SetState(b, id, Changed), true)
      case Gone => Ticked(SetState(b, id, Cleared), true)
      case Other => Ticked(SetState(b, id, Changed), true)
      case Mine =>
        if !expired then Ticked(b, false)
        else Ticked(if eraseFails then SetState(b, id, Changed) else Erase(b, id), true)
  }

  /** The object behind the module's global variables. */
  class Clipboard {
    var generation: nat
    var active: nat
    var leases: map<nat, Lease>
    var content: string
    ghost var writer: nat

    constructor ()
      ensures State() == Board(0, 0, map[], "", 0)
    {
      generation, active, leases, content, writer := 0, 0, map[], "", 0;
    }

    ghost function State(): Board
      reads this
    {
      Board(generation, active, leases, content, writer)
    }

    method FetchAdd() returns (id: nat)
      modifies this
      ensures State() == TakeNumber(old(State())) && id == generation
    {
      generation := (generation + 1) % WORD;
      id := generation;
    }

    /** The locked section: every other lease is withdrawn and its text erased. */
    method RegisterLease(id: nat, text: string)
      modifies this
      ensures State() == Register(old(State()), id, text)
    {
      var todo := leases.Keys;
      ghost var before := leases;
      while todo != {}
        invariant todo <= before.Keys && leases.Keys == before.Keys
        invariant forall k :: k in before ==>
          leases[k] == if k !in todo && k != id then Lease("", Changed) else before[k]
        invariant State() == old(State()).(leases := leases)
        decreases todo
      {
        var existing :| existing in todo;
        todo := todo - {existing};
        if existing != id {
          leases := leases[existing := Lease("", Changed)];
        }
      }
      leases := leases[id := Lease(text, Pending)];
      assert leases == Register(old(State()), id, text).leases;
    }

    method SetLeaseState(id: nat, state: LeaseState)
      modifies this
      ensures State() == SetState(old(State()), id, state)
    {
      if id in leases {
        leases := leases[id := leases[id].(state := state)];
      }
    }

    method WatcherTick(id: nat, expired: bool, access: Access, eraseFails: bool) returns (ended: bool)
      modifies this
      ensures Ticked(State(), ended) == Tick(old(State()), id, expired, access, eraseFails)
    {
      if id == 0 || active != id {
        SetLeaseState(id, Changed);
        return true;
      }
      var expected := if id in leases then leases[id].text else "";
      if expected == "" {
        SetLeaseState(id, Changed);
        return true;
      }
      var sight := ReadClipboardText(expected, access);
      if sight == Gone {
        SetLeaseState(id, Cleared);
        return true;
      }
      if sight != Mine {
        SetLeaseState(id, Changed);
        return true;
      }
      if !expired {
        return false;
      }
      if eraseFails {
        SetLeaseState(id, Changed);
      } else {
        content, writer := "", 0;
        SetLeaseState(id, Cleared);
        active := 0;
      }
      ended := true;
    }

    method ReadClipboardText(expected: string, access: Access) returns (sight: Sight)
      ensures sight == Seen(State(), expected, access)
    {
      if access == ReadThrows {
        return Throws;
      }
      var current := if access == ReadsNothing then "" else content;
      sight := if current == "" then Gone else if current != expected then Other else Mine;
    }

    /** The query behind the countdown display. */
    method LeaseActive(id: nat) returns (yes: bool)
      ensures yes <==> id in leases && leases[id].state == Pending && IsCurrent(State(), id) && content == leases[id].text
    {
      if id == 0 || id !in leases || leases[id].state != Pending {
        return false;
      }
      var expected := leases[id].text;
      yes := active == id && content == expected;
    }
  }

  // ---------------------------------------------------------------- all interleavings

  datatype Copier =
    | Idle
    | Numbered(id: nat, text: string, delay: nat)
    | Registered(id: nat, text: string, delay: nat)
    | Activated(id: nat, text: string, delay: nat)
    | Written(id: nat, text: string, delay: nat)

  /** A watcher sleeps, and then looks, loads its text, compares and erases; `at` is when the pass began. */
  datatype Watcher =
    | Watching(id: nat, due: nat, deadline: nat)
    | Looking(id: nat, at: nat, deadline: nat)
    | Comparing(id: nat, at: nat, deadline: nat, expected: string)
    | Erasing(id: nat)
    | Ended(id: nat)

  /**
   `copies` counts all copies ever begun, `last` is the lease registered last, `texts` has
   the text of every registered lease, also of those whose record has been erased, and
   `dropped` the copies that ended in an exception without settling their lease.
   */
  datatype World = World(
    board: Board, now: nat, copiers: seq<Copier>, watchers: seq<Watcher>,
    copies: nat, last: nat, texts: map<nat, string>, dropped: set<nat>)

  /** A clipboard command that reports a failure may have written the text all the same. */
  datatype Writing = Works | Fails(written: bool)

  datatype Event =
    | BeginCopy(c: nat, text: string, delay: nat)
    | RegisterCopy(c: nat)
    | ActivateCopy(c: nat)
    | WriteCopy(c: nat, how: Writing)
    | SpawnWatcher(c: nat)
    | DropCopy(c: nat)
    | TickWatcher(w: nat)
    | LoadText(w: nat)
    | ReadClipboard(w: nat, access: Access)
    | EraseClipboard(w: nat, fails: bool)
    | OutsiderWrites(text: string)
    | Elapse(ms: nat)

  /** The watcher begins its next pass. */
  predicate Ticks(w: World, e: Event, i: nat) {
    e.TickWatcher? && e.w == i && i < |w.watchers| && w.watchers[i].Watching? && w.watchers[i].due <= w.now
  }

  /** The watcher ends, with its lease in this state. */
  function Settled(w: World, i: nat, state: LeaseState): World
    requires i < |w.watchers|
  {
    w.(board := SetState(w.board, w.watchers[i].id, state), watchers := w.watchers[i := Ended(w.watchers[i].id)])
  }

  /**
   An event that does not apply, such as a tick before its time, changes nothing. `DropCopy`
   is an exception anywhere else than in the write: in a helper call, in the read that
   confirms the write, or in starting the watcher's thread.
   */
  function Next(w: World, e: Event): World {
    match e
    case BeginCopy(c, text, delay) =>
      if c < |w.copiers| && w.copiers[c].Idle? then
        var b := TakeNumber(w.board);
        w.(board := b, copies := w.copies + 1, copiers := w.copiers[c := Numbered(b.generation, text, delay)])
      else w
    case RegisterCopy(c) =>
      if c < |w.copiers| && w.copiers[c].Numbered? then
        var k := w.copiers[c];
        w.(board := Register(w.board, k.id, k.text), last := k.id, texts := w.texts[k.id := k.text],
           copiers := w.copiers[c := Registered(k.id, k.text, k.delay)])
      else w
    case ActivateCopy(c) =>
      if c < |w.copiers| && w.copiers[c].Registered? then
        var k := w.copiers[c];
        w.(board := w.board.(active := k.id), copiers := w.copiers[c := Activated(k.id, k.text, k.delay)])
      else w
    case WriteCopy(c, how) =>
      if c < |w.copiers| && w.copiers[c].Activated? then
        var k := w.copiers[c];
        var written := w.board.(clipboard := k.text, writer := k.id);
        match how
        case Works => w.(board := written, copiers := w.copiers[c := Written(k.id, k.text, k.delay)])
        case Fails(anyway) =>
          w.(board := SetState(if anyway then written else w.board, k.id, Changed), copiers := w.copiers[c := Idle])
      else w
    case SpawnWatcher(c) =>
      if c < |w.copiers| && w.copiers[c].Written? then
        var k := w.copiers[c];
        w.(watchers := w.watchers + [Watching(k.id, w.now, w.now + k.delay)], copiers := w.copiers[c := Idle])
      else w
    case DropCopy(c) =>
      if c < |w.copiers| && !w.copiers[c].Idle? then
        w.(copiers := w.copiers[c := Idle], dropped := w.dropped + {w.copiers[c].id})
      else w
    case TickWatcher(i) =>
      if Ticks(w, e, i) then
        var k := w.watchers[i];
        if IsCurrent(w.board, k.id) then w.(watchers := w.watchers[i := Looking(k.id, w.now, k.deadline)])
        else Settled(w, i, Changed)
      else w
    case LoadText(i) =>
      if i < |w.watchers| && w.watchers[i].Looking? then
        var k, text := w.watchers[i], LeaseText(w.board, w.watchers[i].id);
        if text == "" then Settled(w, i, Changed)
        else w.(watchers := w.watchers[i := Comparing(k.id, k.at, k.deadline, text)])
      else w
    case ReadClipboard(i, access) =>
      if i < |w.watchers| && w.watchers[i].Comparing? then
        var k := w.watchers[i];
        match Seen(w.board, k.expected, access)
        case Gone => Settled(w, i, Cleared)
        case Mine =>
          w.(watchers := w.watchers[i := if k.at >= k.deadline then Erasing(k.id) else Watching(k.id, w.now + POLL_MS, k.deadline)])
        case _ => Settled(w, i, Changed)
      else w
    case EraseClipboard(i, fails) =>
      if i < |w.watchers| && w.watchers[i].Erasing? then
        if fails then Settled(w, i, Changed)
        else w.(board := Erase(w.board, w.watchers[i].id), watchers := w.watchers[i := Ended(w.watchers[i].id)])
      else w
    case OutsiderWrites(text) => w.(board := w.board.(clipboard := text, writer := 0))
    case Elapse(ms) => w.(now := w.now + ms)
  }

  function Run(w: World, events: seq<Event>): World
    decreases |events|
  {
    if events == [] then w else Run(Next(w, events[0]), events[1..])
  }

  predicate Fresh(w: World) {
    && w.board == Board(0, 0, map[], w.board.clipboard, 0)
    && (forall c :: 0 <= c < |w.copiers| ==> w.copiers[c].Idle?)
    && w.watchers == [] && w.copies == 0 && w.last == 0 && w.texts == map[] && w.dropped == {}
  }

  // ---- safety with any number of copiers

  ghost predicate LeasesHold(w: World) {
    && w.board.generation == w.copies
    && w.board.leases.Keys == w.texts.Keys
    && (forall k :: k in w.texts ==> 1 <= k <= w.copies)
    && (forall k :: k in w.board.leases && k != w.last ==> w.board.leases[k].state != Pending && w.board.leases[k].text == "")
    && (w.last in w.board.leases ==> w.board.leases[w.last].text == w.texts[w.last])
  }

  ghost predicate CopiersHold(w: World) {
    && (forall c :: 0 <= c < |w.copiers| && !w.copiers[c].Idle? ==>
          && 1 <= w.copiers[c].id <= w.copies
          && (w.copiers[c].id in w.texts <==> !w.copiers[c].Numbered?)
          && (!w.copiers[c].Numbered? ==> w.texts[w.copiers[c].id] == w.copiers[c].text))
    && (forall c, d :: 0 <= c < d < |w.copiers| && !w.copiers[c].Idle? && !w.copiers[d].Idle? ==>
          w.copiers[c].id != w.copiers[d].id)
  }

  ghost predicate WatchersHold(w: World) {
    && (forall i :: 0 <= i < |w.watchers| ==>
          && w.watchers[i].id in w.board.leases
          && (w.watchers[i].Ended? ==> w.board.leases[w.watchers[i].id].state != Pending))
    && (forall i, c :: 0 <= i < |w.watchers| && 0 <= c < |w.copiers| && !w.copiers[c].Idle? ==> w.watchers[i].id != w.copiers[c].id)
    && (forall i :: 0 <= i < |w.watchers| ==> var k := w.watchers[i];
          && (k.Comparing? ==> k.id in w.texts && k.expected == w.texts[k.id] != "")
          && (k.Erasing? ==> k.id in w.texts && w.texts[k.id] != ""))
  }

  /**
   The lease registered last stays pending while its copy is at work, and after its copy was
   dropped, since it is nobody's then.
   */
  ghost predicate DroppedHold(w: World) {
    && (forall k :: k in w.dropped ==> 1 <= k <= w.copies)
    && (forall c :: 0 <= c < |w.copiers| && !w.copiers[c].Idle? ==> w.copiers[c].id !in w.dropped)
    && (forall i :: 0 <= i < |w.watchers| ==> w.watchers[i].id !in w.dropped)
    && (forall k :: k in w.dropped && k in w.board.leases && k == w.last ==> w.board.leases[k].state == Pending)
    && (forall c :: 0 <= c < |w.copiers| && !w.copiers[c].Idle? && w.copiers[c].id in w.board.leases && w.copiers[c].id == w.last ==>
          w.board.leases[w.copiers[c].id].state == Pending)
  }

  /** A lease that is still awaited has somebody who will settle it: its copier or its watcher. */
  ghost predicate SomebodyMinds(w: World, k: nat) {
    || (exists c :: 0 <= c < |w.copiers| && !w.copiers[c].Idle? && w.copiers[c].id == k)
    || (exists i :: 0 <= i < |w.watchers| && !w.watchers[i].Ended? && w.watchers[i].id == k)
  }

  ghost predicate PendingHold(w: World) {
    forall k :: k in w.board.leases && w.board.leases[k].state == Pending ==> SomebodyMinds(w, k) || k in w.dropped
  }

  ghost predicate Holds(w: World) { LeasesHold(w) && CopiersHold(w) && WatchersHold(w) && DroppedHold(w) && PendingHold(w) }

  /** What no step takes back: a lease that has left Pending stays out of it. */
  ghost predicate NeverPendingAgain(before: World, after: World) {
    forall k :: k in before.board.leases && before.board.leases[k].state != Pending ==>
      k in after.board.leases && after.board.leases[k].state != Pending
  }

  lemma BeginHolds(w: World, e: Event)
    requires Holds(w) && e.BeginCopy? && Next(w, e).copies < WORD
    ensures Holds(Next(w, e)) && NeverPendingAgain(w, Next(w, e))
  {
    var n := Next(w, e);
    forall k | SomebodyMinds(w, k) ensures SomebodyMinds(n, k) { MindsAfterCopier(w, n, k, e.c); }
  }

  /** Changing one copier that minded nothing, or still minds the same lease, keeps every lease minded. */
  lemma MindsAfterCopier(w: World, n: World, k: nat, c: nat)
    requires SomebodyMinds(w, k) && w.watchers == n.watchers && |w.copiers| == |n.copiers|
    requires forall d :: 0 <= d < |w.copiers| && d != c ==> n.copiers[d] == w.copiers[d]
    requires c < |w.copiers| && !w.copiers[c].Idle? ==> !n.copiers[c].Idle? && n.copiers[c].id == w.copiers[c].id
    ensures SomebodyMinds(n, k)
  {
    if d :| 0 <= d < |w.copiers| && !w.copiers[d].Idle? && w.copiers[d].id == k {
      assert !n.copiers[d].Idle? && n.copiers[d].id == k;
    } else {
      var i :| 0 <= i < |w.watchers| && !w.watchers[i].Ended? && w.watchers[i].id == k;
      assert !n.watchers[i].Ended?;
    }
  }

  lemma RegisterHolds(w: World, e: Event)
    requires Holds(w) && e.RegisterCopy?
    ensures Holds(Next(w, e)) && NeverPendingAgain(w, Next(w, e))
  {
    var n := Next(w, e);
    if n != w {
      assert n.board.leases.Keys == w.board.leases.Keys + {n.last};
      assert SomebodyMinds(n, n.last) by { assert n.copiers[e.c].id == n.last; }
    }
  }

  lemma ActivateHolds(w: World, e: Event)
    requires Holds(w) && e.ActivateCopy?
    ensures Holds(Next(w, e)) && NeverPendingAgain(w, Next(w, e))
  {
    var n := Next(w, e);
    forall k | SomebodyMinds(w, k) ensures SomebodyMinds(n, k) { MindsAfterCopier(w, n, k, e.c); }
  }

  lemma WriteHolds(w: World, e: Event)
    requires Holds(w) && e.WriteCopy?
    ensures Holds(Next(w, e)) && NeverPendingAgain(w, Next(w, e))
  {
    if Next(w, e) != w {
      WriteMinds(w, e);
      WriteKeepsLeases(w, e);
      WriteKeepsCopiers(w, e);
      WriteKeepsWatchers(w, e);
    }
  }

  lemma WriteKeepsLeases(w: World, e: Event)
    requires Holds(w) && e.WriteCopy?
    ensures LeasesHold(Next(w, e)) && NeverPendingAgain(w, Next(w, e))
  {
    hide PendingHold, DroppedHold, WatchersHold, CopiersHold;
    var n := Next(w, e);
    assert n.copies == w.copies && n.texts == w.texts && n.last == w.last;
    if n != w {
      SettingKeepsTexts(w.board, n.board, w.copiers[e.c].id);
    }
  }

  /** Setting the state of a lease to a final one, or nothing at all, and writing the clipboard. */
  lemma SettingKeepsTexts(b: Board, n: Board, id: nat)
    requires n.leases == b.leases || n.leases == SetState(b, id, Changed).leases
    ensures n.leases.Keys == b.leases.Keys
    ensures forall k :: k in b.leases ==> n.leases[k].text == b.leases[k].text && (b.leases[k].state != Pending ==> n.leases[k].state != Pending)
  {
  }

  lemma WriteKeepsCopiers(w: World, e: Event)
    requires Holds(w) && e.WriteCopy?
    ensures CopiersHold(Next(w, e))
  {
    hide PendingHold, DroppedHold, WatchersHold, LeasesHold;
  }

  lemma WriteKeepsWatchers(w: World, e: Event)
    requires Holds(w) && e.WriteCopy?
    ensures WatchersHold(Next(w, e)) && DroppedHold(Next(w, e))
  {
    hide PendingHold;
  }

  lemma WriteMinds(w: World, e: Event)
    requires Holds(w) && e.WriteCopy? && e.c < |w.copiers| && w.copiers[e.c].Activated?
    ensures PendingHold(Next(w, e))
  {
    var n, id := Next(w, e), w.copiers[e.c].id;
    assert id in w.board.leases;
    forall k | SomebodyMinds(w, k) && (k != id || e.how.Works?) ensures SomebodyMinds(n, k) {
      if e.how.Works? { MindsAfterCopier(w, n, k, e.c); } else { MindsAfterSettling(w, n, k, e.c); }
    }
    hide LeasesHold, WatchersHold, DroppedHold, SomebodyMinds;
  }

  lemma MindsAfterSettling(w: World, n: World, k: nat, c: nat)
    requires SomebodyMinds(w, k) && w.watchers <= n.watchers && |w.copiers| == |n.copiers|
    requires c < |w.copiers| && !w.copiers[c].Idle? && w.copiers[c].id != k
    requires forall d :: 0 <= d < |w.copiers| && d != c ==> n.copiers[d] == w.copiers[d]
    ensures SomebodyMinds(n, k)
  {
    if d :| 0 <= d < |w.copiers| && !w.copiers[d].Idle? && w.copiers[d].id == k {
      assert !n.copiers[d].Idle? && n.copiers[d].id == k;
    } else {
      var i :| 0 <= i < |w.watchers| && !w.watchers[i].Ended? && w.watchers[i].id == k;
      assert !n.watchers[i].Ended?;
    }
  }

  lemma SpawnHolds(w: World, e: Event)
    requires Holds(w) && e.SpawnWatcher?
    ensures Holds(Next(w, e)) && NeverPendingAgain(w, Next(w, e))
  {
    if Next(w, e) != w {
      SpawnMinds(w, e);
      SpawnKeeps(w, e);
    }
  }

  lemma SpawnKeeps(w: World, e: Event)
    requires Holds(w) && e.SpawnWatcher? && e.c < |w.copiers| && w.copiers[e.c].Written?
    ensures var n := Next(w, e); LeasesHold(n) && CopiersHold(n) && WatchersHold(n) && DroppedHold(n) && NeverPendingAgain(w, n)
  {
    hide PendingHold, SomebodyMinds;
  }

  lemma SpawnMinds(w: World, e: Event)
    requires Holds(w) && e.SpawnWatcher? && e.c < |w.copiers| && w.copiers[e.c].Written?
    ensures PendingHold(Next(w, e))
  {
    var n, id := Next(w, e), w.copiers[e.c].id;
    assert n.watchers[|w.watchers|].id == id;
    forall k | SomebodyMinds(w, k) ensures SomebodyMinds(n, k) {
      if k != id { MindsAfterSettling(w, n, k, e.c); }
    }
    hide LeasesHold, CopiersHold, WatchersHold, DroppedHold, SomebodyMinds;
  }

  lemma DropHolds(w: World, e: Event)
    requires Holds(w) && e.DropCopy?
    ensures Holds(Next(w, e)) && NeverPendingAgain(w, Next(w, e))
  {
    var n := Next(w, e);
    if n != w {
      var id := w.copiers[e.c].id;
      forall k | SomebodyMinds(w, k) && k != id ensures SomebodyMinds(n, k) { MindsAfterSettling(w, n, k, e.c); }
    }
  }

  predicate IsWatchers(e: Event) { e.TickWatcher? || e.LoadText? || e.ReadClipboard? || e.EraseClipboard? }

  /** What an action of a watcher can do: move on, or settle its own lease and end; and erase the clipboard. */
  ghost predicate WatcherActs(w: World, n: World, i: nat) {
    && i < |w.watchers| && !w.watchers[i].Ended?
    && |n.watchers| == |w.watchers|
    && n == w.(board := n.board, watchers := w.watchers[i := n.watchers[i]]) && n.watchers[i].id == w.watchers[i].id
    && n.board.generation == w.board.generation && n.board.leases.Keys == w.board.leases.Keys
    && (forall k :: k in w.board.leases ==> n.board.leases[k].text == w.board.leases[k].text)
    && (forall k :: k in w.board.leases && (k != w.watchers[i].id || !n.watchers[i].Ended?) ==> n.board.leases[k] == w.board.leases[k])
    && (n.watchers[i].Ended? && w.watchers[i].id in w.board.leases ==> n.board.leases[w.watchers[i].id].state != Pending)
    && (|| (n.board.clipboard == w.board.clipboard && n.board.writer == w.board.writer && n.board.active == w.board.active)
        || (w.watchers[i].Erasing? && n.watchers[i].Ended? && n.board.clipboard == "" && n.board.writer == 0
            && n.board.active == if w.board.active == w.watchers[i].id then 0 else w.board.active))
    && (n.watchers[i].Comparing? ==> n.watchers[i].expected == LeaseText(w.board, w.watchers[i].id) != "")
    && (n.watchers[i].Erasing? ==> w.watchers[i].Comparing?)
  }

  lemma WatcherStep(w: World, e: Event)
    requires Holds(w) && IsWatchers(e)
    ensures Next(w, e) == w || WatcherActs(w, Next(w, e), e.w)
  {
    if e.ReadClipboard? {
      ReadActs(w, e.w, e.access);
    } else if e.EraseClipboard? {
      EraseActs(w, e.w, e.fails);
    } else if e.w < |w.watchers| {
      SettlingActs(w, e.w, Changed);
    }
  }

  lemma SettlingActs(w: World, i: nat, state: LeaseState)
    requires Holds(w) && i < |w.watchers| && state != Pending
    ensures !w.watchers[i].Ended? ==> WatcherActs(w, Settled(w, i, state), i)
  {
    hide PendingHold, DroppedHold, CopiersHold;
  }

  lemma ReadActs(w: World, i: nat, access: Access)
    requires Holds(w)
    ensures var n := Next(w, ReadClipboard(i, access)); n == w || WatcherActs(w, n, i)
  {
    if i < |w.watchers| {
      SettlingActs(w, i, Changed);
      SettlingActs(w, i, Cleared);
    }
    hide Holds, Settled;
  }

  lemma EraseActs(w: World, i: nat, fails: bool)
    requires Holds(w)
    ensures var n := Next(w, EraseClipboard(i, fails)); n == w || WatcherActs(w, n, i)
  {
    if i < |w.watchers| { SettlingActs(w, i, Changed); }
    hide Holds, Settled;
  }

  lemma TickHolds(w: World, e: Event)
    requires Holds(w) && IsWatchers(e)
    ensures Holds(Next(w, e)) && NeverPendingAgain(w, Next(w, e))
  {
    var n := Next(w, e);
    WatcherStep(w, e);
    hide Next;
    if n != w {
      ActingHolds(w, n, e.w);
    }
  }

  lemma ActingHolds(w: World, n: World, i: nat)
    requires Holds(w) && WatcherActs(w, n, i)
    ensures Holds(n) && NeverPendingAgain(w, n)
  {
    var id := w.watchers[i].id;
    assert forall j :: 0 <= j < |w.watchers| && j != i ==> n.watchers[j] == w.watchers[j];
    forall j | SomebodyMinds(w, j) && (j != id || !n.watchers[i].Ended?) ensures SomebodyMinds(n, j) {
      MindsAfterTick(w, n, j, i);
    }
    hide SomebodyMinds;
  }

  lemma MindsAfterTick(w: World, n: World, j: nat, at: nat)
    requires SomebodyMinds(w, j) && w.copiers == n.copiers && |w.watchers| == |n.watchers| && at < |w.watchers|
    requires forall i :: 0 <= i < |w.watchers| && i != at ==> n.watchers[i] == w.watchers[i]
    requires w.watchers[at].id != j || (!n.watchers[at].Ended? && n.watchers[at].id == j)
    ensures SomebodyMinds(n, j)
  {
    if c :| 0 <= c < |w.copiers| && !w.copiers[c].Idle? && w.copiers[c].id == j {
      assert !n.copiers[c].Idle?;
    } else {
      var i :| 0 <= i < |w.watchers| && !w.watchers[i].Ended? && w.watchers[i].id == j;
      assert !n.watchers[i].Ended? && n.watchers[i].id == j;
    }
  }

  lemma NextHolds(w: World, e: Event)
    requires Holds(w) && Next(w, e).copies < WORD
    ensures Holds(Next(w, e)) && NeverPendingAgain(w, Next(w, e))
  {
    match e
    case BeginCopy(_, _, _) => BeginHolds(w, e);
    case RegisterCopy(_) => RegisterHolds(w, e);
    case ActivateCopy(_) => ActivateHolds(w, e);
    case WriteCopy(_, _) => WriteHolds(w, e);
    case SpawnWatcher(_) => SpawnHolds(w, e);
    case DropCopy(_) => DropHolds(w, e);
    case OutsiderWrites(_) => UntouchedHolds(w, Next(w, e));
    case Elapse(_) => UntouchedHolds(w, Next(w, e));
    case _ => TickHolds(w, e);
  }

  lemma UntouchedHolds(w: World, n: World)
    requires Holds(w) && n.(now := w.now, board := w.board) == w
    requires n.board.(clipboard := w.board.clipboard, writer := w.board.writer) == w.board
    ensures Holds(n) && NeverPendingAgain(w, n)
  {
    forall k | SomebodyMinds(w, k) ensures SomebodyMinds(n, k) { MindsAfterCopier(w, n, k, |w.copiers|); }
  }

  lemma {:induction false} CopiesOnlyGrow(w: World, events: seq<Event>)
    ensures Run(w, events).copies >= w.copies
    decreases |events|
  {
    if events != [] { CopiesOnlyGrow(Next(w, events[0]), events[1..]); }
  }

  lemma {:induction false} RunHolds(w: World, events: seq<Event>)
    requires Holds(w) && Run(w, events).copies < WORD
    ensures Holds(Run(w, events)) && NeverPendingAgain(w, Run(w, events))
    decreases |events|
  {
    if events != [] {
      var n := Next(w, events[0]);
      CopiesOnlyGrow(n, events[1..]);
      NextHolds(w, events[0]);
      RunHolds(n, events[1..]);
    }
  }

  /**
   Any copiers, any watchers, any interleaving, fewer than 2^64 copies: at most one lease
   is pending and at most one record still holds text, namely the one registered last;
   no two unfinished copies share a number; a watcher that has ended left its lease
   settled; and once nobody is at work, a lease is pending exactly if its copy was dropped
   and no other one has registered since.
   */
  lemma EveryInterleavingIsSafe(w: World, events: seq<Event>)
    requires Fresh(w) && Run(w, events).copies < WORD
    ensures var end := Run(w, events); var leases := end.board.leases;
      && (forall k :: k in leases ==> 1 <= k <= end.board.generation)
      && (forall j, k :: j in leases && k in leases && leases[j].state == Pending && leases[k].state == Pending ==> j == k)
      && (forall j, k :: j in leases && k in leases && leases[j].text != "" && leases[k].text != "" ==> j == k)
      && (forall c, d :: 0 <= c < d < |end.copiers| && !end.copiers[c].Idle? && !end.copiers[d].Idle? ==>
            end.copiers[c].id != end.copiers[d].id)
      && (forall i :: 0 <= i < |end.watchers| && end.watchers[i].Ended? ==>
            end.watchers[i].id in leases && leases[end.watchers[i].id].state != Pending)
      && ((forall c :: 0 <= c < |end.copiers| ==> end.copiers[c].Idle?)
          && (forall i :: 0 <= i < |end.watchers| ==> end.watchers[i].Ended?)
          ==> forall k :: k in leases ==> (leases[k].state == Pending <==> k in end.dropped && k == end.last))
  {
    RunHolds(w, events);
  }

  /** A lease that is settled at one point of a run is settled at every later one. */
  lemma SettledStaysSettled(w: World, before: seq<Event>, after: seq<Event>, k: nat)
    requires Fresh(w) && Run(w, before + after).copies < WORD
    requires k in Run(w, before).board.leases && Run(w, before).board.leases[k].state != Pending
    ensures k in Run(w, before + after).board.leases && Run(w, before + after).board.leases[k].state != Pending
  {
    RunConcat(w, before, after);
    CopiesOnlyGrow(Run(w, before), after);
    RunHolds(w, before);
    RunHolds(Run(w, before), after);
  }

  lemma {:induction false} RunConcat(w: World, a: seq<Event>, b: seq<Event>)
    ensures Run(w, a + b) == Run(Run(w, a), b)
    decreases |a|
  {
    if a == [] {
      assert a + b == b;
    } else {
      RunConcat(Next(w, a[0]), a[1..], b);
      assert (a + b)[1..] == a[1..] + b;
    }
  }

  // ---- deadlines

  /** How many polls fit between two times. */
  function Polls(from: nat, to: nat): nat { if from < to then (to - from + POLL_MS - 1) / POLL_MS else 0 }

  /** How many passes a watcher can still begin. */
  function TicksLeft(k: Watcher): nat {
    match k
    case Watching(_, due, deadline) => 1 + Polls(due, deadline)
    case Looking(_, at, deadline) => Polls(at, deadline)
    case Comparing(_, at, deadline, _) => Polls(at, deadline)
    case _ => 0
  }

  /** No pass began in the future. */
  ghost predicate Timely(w: World) {
    forall i :: 0 <= i < |w.watchers| ==>
      && (w.watchers[i].Looking? ==> w.watchers[i].at <= w.now)
      && (w.watchers[i].Comparing? ==> w.watchers[i].at <= w.now)
  }

  function TicksTaken(w: World, events: seq<Event>, i: nat): nat
    decreases |events|
  {
    if events == [] then 0 else (if Ticks(w, events[0], i) then 1 else 0) + TicksTaken(Next(w, events[0]), events[1..], i)
  }

  lemma FewerPolls(from: nat, later: nat, to: nat)
    requires from <= later
    ensures Polls(later, to) <= Polls(from, to)
    ensures from < to ==> 1 + Polls(later + POLL_MS, to) <= Polls(from, to)
  {
  }

  lemma TickUsesOneUp(w: World, e: Event, i: nat)
    requires Timely(w) && i < |w.watchers|
    ensures Timely(Next(w, e)) && i < |Next(w, e).watchers|
    ensures TicksLeft(Next(w, e).watchers[i]) + (if Ticks(w, e, i) then 1 else 0) <= TicksLeft(w.watchers[i])
  {
    var k := w.watchers[i];
    if k.Watching? && k.due <= w.now { FewerPolls(k.due, w.now, k.deadline); }
    if k.Comparing? { FewerPolls(k.at, w.now, k.deadline); }
    hide Polls;
  }

  /** A watcher ends: in every run it takes at most as many ticks as its deadline allows, and has ended once it took them all. */
  lemma {:induction false} WatcherEnds(w: World, events: seq<Event>, i: nat)
    requires Timely(w) && i < |w.watchers|
    ensures i < |Run(w, events).watchers|
    ensures TicksTaken(w, events, i) + TicksLeft(Run(w, events).watchers[i]) <= TicksLeft(w.watchers[i])
    decreases |events|
  {
    if events != [] {
      TickUsesOneUp(w, events[0], i);
      WatcherEnds(Next(w, events[0]), events[1..], i);
    }
  }

  // ---- one copy at a time

  predicate AllIdle(w: World) { forall c :: 0 <= c < |w.copiers| ==> w.copiers[c].Idle? }

  /** No copy begins while another one is between its number and its watcher. A caller can see to that. */
  predicate Alone(w: World, e: Event) {
    e.BeginCopy? && e.c < |w.copiers| && w.copiers[e.c].Idle? ==> AllIdle(w)
  }

  predicate OneAtATime(w: World, events: seq<Event>)
    decreases |events|
  {
    events == [] || (Alone(w, events[0]) && OneAtATime(Next(w, events[0]), events[1..]))
  }

  /** The copier has registered its lease and not yet handed it to a watcher. */
  predicate Working(c: Copier) { c.Registered? || c.Activated? || c.Written? }

  ghost predicate OrderHolds(w: World) {
    && (forall k :: k in w.texts ==> k <= w.last) && (w.last != 0 ==> w.last in w.texts)
    && w.board.writer <= w.last
    && (w.board.writer != 0 ==> w.board.writer in w.texts && w.board.clipboard == w.texts[w.board.writer])
    && w.last <= w.copies
  }

  ghost predicate CopyingHolds(w: World) {
    && (forall c, d :: 0 <= c < d < |w.copiers| ==> w.copiers[c].Idle? || w.copiers[d].Idle?)
    && (forall c :: 0 <= c < |w.copiers| ==>
          var k := w.copiers[c];
          && (k.Numbered? ==> k.id > w.last)
          && (Working(k) ==> k.id == w.last)
          && (k.Activated? || k.Written? ==> w.board.active == k.id)
          && (k.Registered? || k.Activated? ==> w.board.writer != w.last)
          && (k.Written? ==> w.board.writer == 0 || w.board.writer == w.last))
  }

  ghost predicate WatchingHolds(w: World) {
    && (forall i, c :: 0 <= i < |w.watchers| && 0 <= c < |w.copiers| && !w.copiers[c].Idle? ==> w.watchers[i].id != w.copiers[c].id)
    && (forall i, j :: 0 <= i < j < |w.watchers| ==> w.watchers[i].id != w.watchers[j].id)
    && (forall i :: 0 <= i < |w.watchers| && !w.watchers[i].Ended? && w.watchers[i].id == w.last ==>
          w.board.active == w.last && (w.board.writer == 0 || w.board.writer == w.last))
  }

  ghost predicate Serial(w: World) { Holds(w) && OrderHolds(w) && CopyingHolds(w) && WatchingHolds(w) }

  lemma SerialCopyStep(w: World, e: Event)
    requires Serial(w) && Alone(w, e) && Next(w, e).copies < WORD && !IsWatchers(e)
    ensures Serial(Next(w, e))
  {
    match e
    case BeginCopy(_, _, _) => SerialBegin(w, e);
    case RegisterCopy(_) => SerialRegister(w, e);
    case ActivateCopy(_) => SerialActivate(w, e);
    case WriteCopy(_, _) => SerialWrite(w, e);
    case SpawnWatcher(_) => SerialSpawn(w, e);
    case DropCopy(_) => SerialDrop(w, e);
    case _ => SerialElsewhere(w, e);
  }

  lemma SerialBegin(w: World, e: Event)
    requires Serial(w) && Alone(w, e) && Next(w, e).copies < WORD && e.BeginCopy?
    ensures Serial(Next(w, e))
  {
    NextHolds(w, e);
    hide Holds;
  }

  lemma SerialRegister(w: World, e: Event)
    requires Serial(w) && Alone(w, e) && Next(w, e).copies < WORD && e.RegisterCopy?
    ensures Serial(Next(w, e))
  {
    NextHolds(w, e);
    hide Holds;
  }

  lemma SerialActivate(w: World, e: Event)
    requires Serial(w) && Alone(w, e) && Next(w, e).copies < WORD && e.ActivateCopy?
    ensures Serial(Next(w, e))
  {
    NextHolds(w, e);
    hide Holds;
  }

  lemma SerialWrite(w: World, e: Event)
    requires Serial(w) && Alone(w, e) && Next(w, e).copies < WORD && e.WriteCopy?
    ensures Serial(Next(w, e))
  {
    NextHolds(w, e);
    hide Holds;
  }

  lemma SerialSpawn(w: World, e: Event)
    requires Serial(w) && Alone(w, e) && Next(w, e).copies < WORD && e.SpawnWatcher?
    ensures Serial(Next(w, e))
  {
    NextHolds(w, e);
    hide Holds;
  }

  lemma SerialDrop(w: World, e: Event)
    requires Serial(w) && Alone(w, e) && Next(w, e).copies < WORD && e.DropCopy?
    ensures Serial(Next(w, e))
  {
    NextHolds(w, e);
    hide Holds;
  }

  lemma SerialElsewhere(w: World, e: Event)
    requires Serial(w) && Alone(w, e) && Next(w, e).copies < WORD && (e.OutsiderWrites? || e.Elapse?)
    ensures Serial(Next(w, e))
  {
    NextHolds(w, e);
    hide Holds;
  }

  lemma SerialTickStep(w: World, e: Event)
    requires Serial(w) && IsWatchers(e)
    ensures Serial(Next(w, e))
  {
    TickHolds(w, e);
    WatcherStep(w, e);
    var n := Next(w, e);
    hide Next, Holds;
    if n != w { SerialActing(w, n, e.w); }
  }

  lemma SerialActing(w: World, n: World, i: nat)
    requires Serial(w) && WatcherActs(w, n, i)
    ensures OrderHolds(n) && CopyingHolds(n) && WatchingHolds(n)
  {
    hide Holds;
    assert forall j :: 0 <= j < |w.watchers| && j != i ==> n.watchers[j] == w.watchers[j];
  }

  lemma SerialStep(w: World, e: Event)
    requires Serial(w) && Alone(w, e) && Next(w, e).copies < WORD
    ensures Serial(Next(w, e))
  {
    if IsWatchers(e) { SerialTickStep(w, e); } else { SerialCopyStep(w, e); }
  }

  /** The secret that the clipboard holds and one of the copies put there, if any. */
  ghost function Secret(w: World): string {
    if w.board.writer in w.texts then w.texts[w.board.writer] else ""
  }

  /** The four actions of a pass, with nothing happening in between, come to what `Tick` says. */
  lemma UndisturbedPass(w: World, i: nat, access: Access, eraseFails: bool)
    requires i < |w.watchers| && w.watchers[i].Watching? && w.watchers[i].due <= w.now
    ensures var end := Run(w, [TickWatcher(i), LoadText(i)] + [ReadClipboard(i, access), EraseClipboard(i, eraseFails)]);
      var k := w.watchers[i]; var t := Tick(w.board, k.id, w.now >= k.deadline, access, eraseFails);
      end.board == t.board && i < |end.watchers| && (end.watchers[i].Ended? <==> t.ended)
  {
    var read, erase := ReadClipboard(i, access), EraseClipboard(i, eraseFails);
    RunConcat(w, [TickWatcher(i), LoadText(i)], [read, erase]);
    TwoSteps(w, TickWatcher(i), LoadText(i));
    TwoSteps(Run(w, [TickWatcher(i), LoadText(i)]), read, erase);
    PassIs(w, i, access, eraseFails);
    hide Next, Run, Tick;
  }

  lemma PassIs(w: World, i: nat, access: Access, eraseFails: bool)
    requires i < |w.watchers| && w.watchers[i].Watching? && w.watchers[i].due <= w.now
    ensures var loaded := Next(Next(w, TickWatcher(i)), LoadText(i));
      var end := Next(Next(loaded, ReadClipboard(i, access)), EraseClipboard(i, eraseFails));
      var k := w.watchers[i]; var t := Tick(w.board, k.id, w.now >= k.deadline, access, eraseFails);
      end.board == t.board && i < |end.watchers| && (end.watchers[i].Ended? <==> t.ended)
  {
    var k := w.watchers[i];
    var loaded := Next(Next(w, TickWatcher(i)), LoadText(i));
    if IsCurrent(w.board, k.id) && LeaseText(w.board, k.id) != "" {
      assert loaded == w.(watchers := w.watchers[i := Comparing(k.id, w.now, k.deadline, LeaseText(w.board, k.id))]);
    } else {
      assert loaded == Settled(w, i, Changed);
    }
    hide IsCurrent, LeaseText, SetState;
  }

  lemma TwoSteps(w: World, a: Event, b: Event)
    ensures Run(w, [a, b]) == Next(Next(w, a), b)
  {
    assert [a, b][1..] == [b] && [b][1..] == [];
    assert Run(Next(w, a), [b]) == Run(Next(Next(w, a), b), []);
  }

  /**
   The latest lease's watcher, its secret in the clipboard: an undisturbed pass ends the
   watch and leaves the secret exactly if the clipboard cannot be read, seems to be empty,
   or cannot be erased at the deadline. If not, the watch goes on until the deadline, and
   then the secret is gone.
   */
  lemma TickLeavesSecretExactly(w: World, i: nat, access: Access, eraseFails: bool)
    requires Serial(w) && i < |w.watchers| && w.watchers[i].Watching? && w.watchers[i].id == w.last
    requires w.board.writer == w.last && Secret(w) != ""
    ensures var expired := w.now >= w.watchers[i].deadline; var t := Tick(w.board, w.last, expired, access, eraseFails);
      var spared := access != Honest || (expired && eraseFails);
      && (t.ended && t.board.clipboard == Secret(w) <==> spared)
      && (!spared ==> t.ended == expired && (expired ==> t.board.clipboard == "" && t.board.writer == 0))
  {
  }

  /** The watcher of any other lease that begins a pass can only end, and touches nothing in the clipboard. */
  lemma SupersededTickSparesAll(w: World, i: nat, access: Access, eraseFails: bool)
    requires Serial(w) && i < |w.watchers| && w.watchers[i].id != w.last
    ensures var k := w.watchers[i];
      && (k.Watching? ==>
            var t := Tick(w.board, k.id, w.now >= k.deadline, access, eraseFails);
            t.ended && t.board.clipboard == w.board.clipboard && t.board.writer == w.board.writer)
      && (k.Looking? ==> Next(w, LoadText(i)) == Settled(w, i, Changed))
  {
    assert w.watchers[i].id in w.board.leases;
  }

  // ---- what a watcher erases

  /** What an event writes into the clipboard, if it writes. */
  function Wrote(w: World, e: Event): Option<string> {
    match e
    case OutsiderWrites(text) => Some(text)
    case WriteCopy(c, how) => if how != Fails(false) && c < |w.copiers| && w.copiers[c].Activated? then Some(w.copiers[c].text) else None
    case EraseClipboard(i, fails) => if !fails && i < |w.watchers| && w.watchers[i].Erasing? then Some("") else None
    case _ => None
  }

  function LastWrite(w: World, events: seq<Event>): Option<string>
    decreases |events|
  {
    if events == [] then None
    else
      var later := LastWrite(Next(w, events[0]), events[1..]);
      if later.Some? then later else Wrote(w, events[0])
  }

  /** The clipboard holds what was written last. */
  lemma {:induction false} ClipboardIsLastWrite(w: World, events: seq<Event>)
    ensures Run(w, events).board.clipboard == match LastWrite(w, events) case Some(text) => text case None => w.board.clipboard
    decreases |events|
  {
    if events != [] {
      ClipboardIsLastWrite(Next(w, events[0]), events[1..]);
      WritesOrNot(w, events[0]);
      hide Next, Wrote;
    }
  }

  lemma WritesOrNot(w: World, e: Event)
    ensures Next(w, e).board.clipboard == match Wrote(w, e) case Some(text) => text case None => w.board.clipboard
  {
  }

  /** A watcher only starts to erase what was its own text a moment before, and past its deadline. */
  lemma EraseIsDecided(w: World, e: Event, i: nat)
    requires Holds(w) && i < |w.watchers| && !w.watchers[i].Erasing?
    ensures var n := Next(w, e); i < |n.watchers| && (n.watchers[i].Erasing? ==>
      && e == ReadClipboard(i, e.access) && w.watchers[i].Comparing? && w.watchers[i].at >= w.watchers[i].deadline
      && n.watchers[i].id in n.texts && n.board.clipboard == n.texts[n.watchers[i].id])
  {
    hide PendingHold, DroppedHold;
  }

  lemma {:induction false} StaysErasing(w: World, events: seq<Event>, i: nat)
    requires i < |w.watchers| && w.watchers[i].Erasing?
    requires forall j :: 0 <= j < |events| && events[j].EraseClipboard? ==> events[j].w != i
    ensures var m := Run(w, events); i < |m.watchers| && m.watchers[i] == w.watchers[i]
    decreases |events|
  {
    if events != [] {
      assert forall j :: 0 <= j < |events[1..]| ==> events[1..][j] == events[j + 1];
      StaysErasing(Next(w, events[0]), events[1..], i);
    }
  }

  /**
   From that moment on, whatever happens before the watcher erases: it destroys a text that
   is not its own exactly if somebody has written one in between, and that was the last write.
   */
  lemma EraseSparesOthersExactly(w: World, events: seq<Event>, i: nat)
    requires i < |w.watchers| && w.watchers[i].Erasing? && w.watchers[i].id in w.texts
    requires w.board.clipboard == w.texts[w.watchers[i].id]
    requires forall j :: 0 <= j < |events| && events[j].EraseClipboard? ==> events[j].w != i
    ensures var m := Run(w, events); var own := w.board.clipboard; var last := LastWrite(w, events);
      && Next(m, EraseClipboard(i, false)).board.clipboard == ""
      && (m.board.clipboard != "" && m.board.clipboard != own <==> last.Some? && last.value != "" && last.value != own)
  {
    ClipboardIsLastWrite(w, events);
    StaysErasing(w, events, i);
  }

  // ---- when a secret stays

  ghost predicate Covered(w: World) {
    || (exists c :: 0 <= c < |w.copiers| && Working(w.copiers[c]))
    || (w.board.writer == w.last && exists i :: 0 <= i < |w.watchers| && !w.watchers[i].Ended? && w.watchers[i].id == w.last)
  }

  /** A copied secret is in the clipboard and nobody is left who would clear it. */
  ghost predicate Leaks(w: World) { Secret(w) != "" && !Covered(w) }

  /**
   The ways to leave a secret behind: a later copy whose write fails, a write that reports
   a failure although the text is there, a copy that is dropped after it has registered,
   and a watcher that cannot read or cannot erase.
   */
  ghost predicate Spoils(w: World, e: Event) {
    match e
    case WriteCopy(c, how) =>
      && how.Fails? && c < |w.copiers| && w.copiers[c].Activated?
      && (if how.written then w.copiers[c].text != "" else Secret(w) != "")
    case DropCopy(c) => c < |w.copiers| && Working(w.copiers[c]) && Secret(w) != ""
    case ReadClipboard(i, access) =>
      && i < |w.watchers| && w.watchers[i].Comparing? && w.watchers[i].id == w.last == w.board.writer
      && access != Honest && Secret(w) != ""
    case EraseClipboard(i, fails) =>
      fails && i < |w.watchers| && w.watchers[i].Erasing? && w.watchers[i].id == w.last == w.board.writer && Secret(w) != ""
    case _ => false
  }

  /** What ends a leak: the next copy takes over, or somebody writes or erases the clipboard. */
  predicate Cures(w: World, e: Event) {
    || e.OutsiderWrites?
    || (e.RegisterCopy? && e.c < |w.copiers| && w.copiers[e.c].Numbered?)
    || (e.EraseClipboard? && !e.fails && e.w < |w.watchers| && w.watchers[e.w].Erasing?)
  }

  ghost predicate LeakStep(w: World, e: Event) {
    Leaks(Next(w, e)) <==> Spoils(w, e) || (Leaks(w) && !Cures(w, e))
  }

  lemma CopyLeaks(w: World, e: Event)
    requires Serial(w) && Alone(w, e) && Next(w, e).copies < WORD
    requires e.BeginCopy? || e.RegisterCopy? || e.ActivateCopy? || e.SpawnWatcher?
    ensures LeakStep(w, e)
  {
    var n := Next(w, e);
    if n != w && e.c < |w.copiers| {
      hide Holds;
      assert forall c :: 0 <= c < |w.copiers| && c != e.c ==> n.copiers[c] == w.copiers[c];
      if e.SpawnWatcher? {
        assert Working(w.copiers[e.c]) && n.watchers[|w.watchers|].Watching?;
      } else {
        assert n.watchers == w.watchers;
        if e.RegisterCopy? || e.ActivateCopy? { assert Working(n.copiers[e.c]); }
        if e.ActivateCopy? { assert Working(w.copiers[e.c]); }
      }
    }
  }

  lemma DropLeaks(w: World, e: Event)
    requires Serial(w) && e.DropCopy?
    ensures LeakStep(w, e)
  {
    var n := Next(w, e);
    if n != w && e.c < |w.copiers| {
      hide Holds;
      assert forall c :: 0 <= c < |w.copiers| && c != e.c ==> n.copiers[c] == w.copiers[c] && w.copiers[c].Idle?;
      assert n.watchers == w.watchers;
    }
  }

  /** A failing write leaves whatever secret an earlier copy had put there, and a working one leaves none. */
  lemma WriteLeaks(w: World, e: Event)
    requires Serial(w) && e.WriteCopy?
    ensures LeakStep(w, e)
  {
    var n := Next(w, e);
    if n != w && e.c < |w.copiers| {
      assert Working(w.copiers[e.c]);
      hide Holds;
      assert forall c :: 0 <= c < |w.copiers| && c != e.c ==> n.copiers[c] == w.copiers[c] && w.copiers[c].Idle?;
      if e.how.Works? { assert Working(n.copiers[e.c]); }
    }
  }

  lemma TickLeaks(w: World, e: Event)
    requires Serial(w) && IsWatchers(e)
    ensures LeakStep(w, e)
  {
    var n := Next(w, e);
    WatcherStep(w, e);
    if n != w {
      OnlyErasingWrites(w, e);
      if w.watchers[e.w].id == w.last == w.board.writer && Secret(w) != "" { LastWatcherActs(w, e); }
      hide Next, Holds;
      ActingLeaks(w, n, e);
    }
  }

  lemma OnlyErasingWrites(w: World, e: Event)
    requires IsWatchers(e)
    ensures Next(w, e).board.writer == if Cures(w, e) then 0 else w.board.writer
  {
  }

  lemma ActingLeaks(w: World, n: World, e: Event)
    requires Serial(w) && IsWatchers(e) && WatcherActs(w, n, e.w)
    requires n.board.writer == if Cures(w, e) then 0 else w.board.writer
    requires w.watchers[e.w].id == w.last == w.board.writer && Secret(w) != "" ==>
      (n.watchers[e.w].Ended? <==> Spoils(w, e) || Cures(w, e)) && !(Spoils(w, e) && Cures(w, e))
    ensures Leaks(n) <==> Spoils(w, e) || (Leaks(w) && !Cures(w, e))
  {
    assert 0 !in w.texts;
    hide Holds;
    assert forall i :: 0 <= i < |w.watchers| && i != e.w ==> n.watchers[i] == w.watchers[i];
    if !Cures(w, e) {
      assert Secret(n) == Secret(w) && n.copiers == w.copiers && n.last == w.last;
      if w.watchers[e.w].id != w.last || !n.watchers[e.w].Ended? {
        StillWatched(w, n, e.w);
      } else {
        assert forall i :: 0 <= i < |w.watchers| && i != e.w ==> w.watchers[i].id != w.last;
        assert forall c :: 0 <= c < |w.copiers| ==> !Working(w.copiers[c]);
      }
    }
  }

  /** The latest lease's watcher, if it has a secret to clear, only ends by failing to or by clearing. */
  lemma LastWatcherActs(w: World, e: Event)
    requires Serial(w) && IsWatchers(e) && e.w < |w.watchers| && w.watchers[e.w].id == w.last && Next(w, e) != w
    requires w.board.writer == w.last && Secret(w) != ""
    ensures Next(w, e).watchers[e.w].Ended? <==> Spoils(w, e) || Cures(w, e)
    ensures !(Spoils(w, e) && Cures(w, e))
  {
    assert w.last in w.board.leases;
    hide PendingHold, DroppedHold;
  }

  lemma StillWatched(w: World, n: World, at: nat)
    requires Serial(w) && WatcherActs(w, n, at) && (w.watchers[at].id != w.last || !n.watchers[at].Ended?)
    ensures (exists i :: 0 <= i < |w.watchers| && !w.watchers[i].Ended? && w.watchers[i].id == w.last)
       <==> (exists i :: 0 <= i < |n.watchers| && !n.watchers[i].Ended? && n.watchers[i].id == n.last)
  {
    hide Holds;
    if i :| 0 <= i < |w.watchers| && !w.watchers[i].Ended? && w.watchers[i].id == w.last {
      assert !n.watchers[i].Ended? && n.watchers[i].id == w.last;
    }
    if i :| 0 <= i < |n.watchers| && !n.watchers[i].Ended? && n.watchers[i].id == n.last {
      assert !w.watchers[i].Ended? && w.watchers[i].id == w.last;
    }
  }

  /** One step: a leak begins exactly at a spoiling event, and lasts until it is cured. */
  lemma LeakStepExactly(w: World, e: Event)
    requires Serial(w) && Alone(w, e) && Next(w, e).copies < WORD
    ensures LeakStep(w, e)
  {
    match e
    case WriteCopy(_, _) => WriteLeaks(w, e);
    case DropCopy(_) => DropLeaks(w, e);
    case OutsiderWrites(_) => assert 0 !in w.texts;
    case Elapse(_) =>
    case _ => if IsWatchers(e) { TickLeaks(w, e); } else { CopyLeaks(w, e); }
  }

  /** Whether a run ends with a leak, by its events: a spoiling one that nothing has cured since. */
  ghost predicate Spoiled(w: World, events: seq<Event>, leaking: bool)
    decreases |events|
  {
    if events == [] then leaking
    else Spoiled(Next(w, events[0]), events[1..], Spoils(w, events[0]) || (leaking && !Cures(w, events[0])))
  }

  lemma {:induction false} LeaksExactly(w: World, events: seq<Event>)
    requires Serial(w) && OneAtATime(w, events) && Run(w, events).copies < WORD
    ensures Serial(Run(w, events)) && (Leaks(Run(w, events)) <==> Spoiled(w, events, Leaks(w)))
    decreases |events|
  {
    if events != [] {
      CopiesOnlyGrow(Next(w, events[0]), events[1..]);
      SerialStep(w, events[0]);
      LeakStepExactly(w, events[0]);
      LeaksExactly(Next(w, events[0]), events[1..]);
    }
  }

  predicate Done(w: World) { AllIdle(w) && forall i :: 0 <= i < |w.watchers| ==> w.watchers[i].Ended? }

  /**
   Any number of copiers taking turns, any failures, watchers and outsiders: once everybody
   is done, the clipboard still holds a secret that a copy put there exactly if a write
   failed, a copy was dropped, or the watcher of the secret could not read or not erase,
   and no further copy, outsider or late watcher has overwritten it since.
   */
  lemma SecretStaysExactly(w: World, events: seq<Event>)
    requires Fresh(w) && OneAtATime(w, events) && Run(w, events).copies < WORD && Done(Run(w, events))
    ensures var end := Run(w, events);
      end.board.writer != 0 && end.board.clipboard != "" <==> Spoiled(w, events, false)
  {
    LeaksExactly(w, events);
    assert !Leaks(w);
    var end := Run(w, events);
    assert !Covered(end);
  }

  /** With one copier, copies always take turns. */
  lemma {:induction false} OneCopierTakesTurns(w: World, events: seq<Event>)
    requires |w.copiers| == 1
    ensures OneAtATime(w, events)
    decreases |events|
  {
    if events != [] { OneCopierTakesTurns(Next(w, events[0]), events[1..]); }
  }

  predicate Undisturbed(e: Event) {
    (e.ReadClipboard? ==> e.access == Honest) && (e.EraseClipboard? ==> !e.fails) && (e.WriteCopy? ==> e.how == Works) && !e.DropCopy?
  }

  lemma {:induction false} UndisturbedNeverSpoils(w: World, events: seq<Event>)
    requires forall i :: 0 <= i < |events| ==> Undisturbed(events[i])
    ensures !Spoiled(w, events, false)
    decreases |events|
  {
    if events != [] { UndisturbedNeverSpoils(Next(w, events[0]), events[1..]); }
  }

  /**
   Copies taking turns and working clipboard commands: once everybody is done, no copied
   secret is left in the clipboard, unless somebody else put it there.
   */
  lemma NoSecretOutlivesItsWatchers(w: World, events: seq<Event>)
    requires Fresh(w) && OneAtATime(w, events) && Run(w, events).copies < WORD && Done(Run(w, events))
    requires forall i :: 0 <= i < |events| ==> Undisturbed(events[i])
    ensures var end := Run(w, events); end.board.writer == 0 || end.board.clipboard == ""
  {
    SecretStaysExactly(w, events);
    UndisturbedNeverSpoils(w, events);
  }

  // ---- what goes wrong otherwise

  /** Both copiers have registered and activated: number 1 is the lease on record, number 2 the active one. */
  predicate Crossed(w: World) {
    && w.board.generation == 2 && w.board.active == 2
    && w.board.leases == map[2 := Lease("", Changed), 1 := Lease("a", Pending)]
    && w.copiers == [Activated(1, "a", 0), Activated(2, "b", 0)] && w.watchers == []
  }

  lemma FirstCrosses(w: World) returns (m: World)
    requires Fresh(w) && |w.copiers| == 2
    ensures m == Run(w, [BeginCopy(0, "a", 0), BeginCopy(1, "b", 0), RegisterCopy(1), RegisterCopy(0), ActivateCopy(0), ActivateCopy(1)])
    ensures Crossed(m)
  {
    var w1 := Next(w, BeginCopy(0, "a", 0));
    var w2 := Next(w1, BeginCopy(1, "b", 0));
    assert w2.copiers == [Numbered(1, "a", 0), Numbered(2, "b", 0)];
    var w3 := Next(w2, RegisterCopy(1));
    assert w3.board.leases == map[2 := Lease("b", Pending)];
    var w4 := Next(w3, RegisterCopy(0));
    assert w4.board.leases == map[2 := Lease("", Changed), 1 := Lease("a", Pending)];
    var w5 := Next(w4, ActivateCopy(0));
    m := Next(w5, ActivateCopy(1));
    SixSteps(w, BeginCopy(0, "a", 0), BeginCopy(1, "b", 0), RegisterCopy(1), RegisterCopy(0), ActivateCopy(0), ActivateCopy(1));
  }

  lemma SixSteps(w: World, a: Event, b: Event, c: Event, d: Event, e: Event, f: Event)
    ensures Run(w, [a, b, c, d, e, f]) == Next(Next(Next(Next(Next(Next(w, a), b), c), d), e), f)
  {
    ThreeSteps(w, a, b, c);
    ThreeSteps(Run(w, [a, b, c]), d, e, f);
    RunConcat(w, [a, b, c], [d, e, f]);
    assert [a, b, c] + [d, e, f] == [a, b, c, d, e, f];
  }

  lemma ThreeSteps(w: World, a: Event, b: Event, c: Event)
    ensures Run(w, [a, b, c]) == Next(Next(Next(w, a), b), c)
  {
    assert [a, b, c][1..] == [b, c] && [b, c][1..] == [c] && [c][1..] == [];
    assert Run(Next(Next(w, a), b), [c]) == Run(Next(Next(Next(w, a), b), c), []);
  }

  lemma RunSnoc(w: World, events: seq<Event>, last: Event)
    ensures Run(w, events + [last]) == Next(Run(w, events), last)
  {
    RunConcat(w, events, [last]);
    var m := Run(w, events);
    assert [last][1..] == [] && Run(m, [last]) == Run(Next(m, last), []);
  }

  lemma BothGiveUp(m: World) returns (end: World)
    requires Crossed(m)
    ensures end == Run(m, [WriteCopy(0, Works), WriteCopy(1, Works), SpawnWatcher(0), SpawnWatcher(1), TickWatcher(0), TickWatcher(1)] + [LoadText(1)])
    ensures end.copiers == [Idle, Idle] && end.watchers == [Ended(1), Ended(2)]
    ensures end.board.clipboard == "b" && end.board.writer == 2
  {
    var w1 := Next(m, WriteCopy(0, Works));
    var w2 := Next(w1, WriteCopy(1, Works));
    assert w2.copiers == [Written(1, "a", 0), Written(2, "b", 0)];
    var w3 := Next(w2, SpawnWatcher(0));
    var w4 := Next(w3, SpawnWatcher(1));
    assert w4.copiers == [Idle, Idle];
    assert w4.watchers == [Watching(1, m.now, m.now), Watching(2, m.now, m.now)];
    var w5 := Next(w4, TickWatcher(0));
    assert w5.watchers == [Ended(1), Watching(2, m.now, m.now)];
    assert w5.board.active == 2 && LeaseText(w5.board, 2) == "";
    var w6 := Next(w5, TickWatcher(1));
    assert w6.watchers == [Ended(1), Looking(2, m.now, m.now)];
    end := Next(w6, LoadText(1));
    SixSteps(m, WriteCopy(0, Works), WriteCopy(1, Works), SpawnWatcher(0), SpawnWatcher(1), TickWatcher(0), TickWatcher(1));
    RunSnoc(m, [WriteCopy(0, Works), WriteCopy(1, Works), SpawnWatcher(0), SpawnWatcher(1), TickWatcher(0), TickWatcher(1)], LoadText(1));
  }

  /**
   Two threads copying at once, which is what taking turns excludes: no command fails, both
   watchers give up, and the second secret stays in the clipboard for good.
   */
  lemma TwoCopiersLeakASecret(w: World)
    requires Fresh(w) && |w.copiers| == 2
    ensures var events := [BeginCopy(0, "a", 0), BeginCopy(1, "b", 0), RegisterCopy(1), RegisterCopy(0), ActivateCopy(0), ActivateCopy(1)]
                        + ([WriteCopy(0, Works), WriteCopy(1, Works), SpawnWatcher(0), SpawnWatcher(1), TickWatcher(0), TickWatcher(1)]
                           + [LoadText(1)]);
      var end := Run(w, events);
      && (forall e :: e in events ==> Undisturbed(e)) && !OneAtATime(w, events)
      && end.copiers == [Idle, Idle] && end.watchers == [Ended(1), Ended(2)]
      && end.board.clipboard == "b" && end.board.writer == 2
  {
    var m := FirstCrosses(w);
    var end := BothGiveUp(m);
    hide Next, Run, OneAtATime, Crossed, Undisturbed, Fresh;
    CrossedEventsAreUndisturbed();
    var first := [BeginCopy(0, "a", 0), BeginCopy(1, "b", 0), RegisterCopy(1), RegisterCopy(0), ActivateCopy(0), ActivateCopy(1)];
    var second := [WriteCopy(0, Works), WriteCopy(1, Works), SpawnWatcher(0), SpawnWatcher(1), TickWatcher(0), TickWatcher(1)] + [LoadText(1)];
    RunConcat(w, first, second);
    SecondBeginsTooSoon(w, (first + second)[2..]);
    assert first + second == [BeginCopy(0, "a", 0), BeginCopy(1, "b", 0)] + (first + second)[2..];
  }

  lemma CrossedEventsAreUndisturbed()
    ensures forall e | e in [BeginCopy(0, "a", 0), BeginCopy(1, "b", 0), RegisterCopy(1), RegisterCopy(0), ActivateCopy(0), ActivateCopy(1)] :: Undisturbed(e)
    ensures forall e | e in [WriteCopy(0, Works), WriteCopy(1, Works), SpawnWatcher(0), SpawnWatcher(1), TickWatcher(0), TickWatcher(1)] :: Undisturbed(e)
    ensures Undisturbed(LoadText(1))
  {
  }

  lemma SecondBeginsTooSoon(w: World, rest: seq<Event>)
    requires Fresh(w) && |w.copiers| == 2
    ensures !OneAtATime(w, [BeginCopy(0, "a", 0), BeginCopy(1, "b", 0)] + rest)
  {
    var events := [BeginCopy(0, "a", 0), BeginCopy(1, "b", 0)] + rest;
    var n := Next(w, events[0]);
    assert events[1..][0] == BeginCopy(1, "b", 0);
    assert !n.copiers[0].Idle? && n.copiers[1].Idle?;
  }

  /** A second copy whose write fails: the first one's secret, if it is still there, now stays; exactly then. */
  lemma FailedWriteLeaksExactly(w: World, c: nat)
    requires Serial(w) && c < |w.copiers| && w.copiers[c].Activated?
    ensures var n := Next(w, WriteCopy(c, Fails(false)));
      && n.board.clipboard == w.board.clipboard && Secret(n) == Secret(w)
      && (Leaks(n) <==> Secret(w) != "")
  {
    WriteLeaks(w, WriteCopy(c, Fails(false)));
    assert Working(w.copiers[c]);
  }

  /** In that case the earlier watcher ends at its next tick without touching the clipboard. */
  lemma FailedWriteLeaksTheEarlierSecret(w: World, c: nat, i: nat)
    requires Serial(w) && c < |w.copiers| && w.copiers[c].Activated?
    requires i < |w.watchers| && w.watchers[i].Watching? && w.watchers[i].due <= w.now
    ensures var end := Run(w, [WriteCopy(c, Fails(false)), TickWatcher(i)]);
      && |end.copiers| == |w.copiers| && end.copiers[c].Idle? && i < |end.watchers| && end.watchers[i].Ended?
      && end.board.clipboard == w.board.clipboard && end.board.writer == w.board.writer
  {
    var n := Next(w, WriteCopy(c, Fails(false)));
    assert n.watchers == w.watchers && n.now == w.now && !IsCurrent(n.board, w.watchers[i].id);
    hide Serial;
    TwoSteps(w, WriteCopy(c, Fails(false)), TickWatcher(i));
  }

  /** A read that fails looks like an emptied clipboard: the watcher ends, and whatever is there stays. */
  lemma FailedReadLeaksTheSecret(b: Board, id: nat, expired: bool)
    requires IsCurrent(b, id) && id in b.leases && b.leases[id].text != ""
    ensures var t := Tick(b, id, expired, ReadsNothing, false);
      t.ended && t.board.clipboard == b.clipboard && t.board.leases[id].state == Cleared
  {
  }

  /**
   One copy of "pw" whose confirming read throws after the write: nobody is at work any
   more, the secret is in the clipboard, and its lease is pending for good.
   */
  lemma DroppedCopyLeaks(w: World)
    requires Fresh(w) && |w.copiers| == 1
    ensures var events := [BeginCopy(0, "pw", 0), RegisterCopy(0), ActivateCopy(0)] + [WriteCopy(0, Works), DropCopy(0)];
      var end := Run(w, events);
      && OneAtATime(w, events) && Done(end) && end.board.clipboard == "pw" && end.board.writer == 1
      && end.board.leases == map[1 := Lease("pw", Pending)]
  {
    var first, second := [BeginCopy(0, "pw", 0), RegisterCopy(0), ActivateCopy(0)], [WriteCopy(0, Works), DropCopy(0)];
    OneCopierTakesTurns(w, first + second);
    RunConcat(w, first, second);
    var m := OneCopyActive(w);
    TwoSteps(m, WriteCopy(0, Works), DropCopy(0));
    var n := Next(m, WriteCopy(0, Works));
    assert n.copiers == [Written(1, "pw", 0)];
    assert Next(n, DropCopy(0)).copiers == [Idle];
  }

  lemma OneCopyActive(w: World) returns (m: World)
    requires Fresh(w) && |w.copiers| == 1
    ensures m == Run(w, [BeginCopy(0, "pw", 0), RegisterCopy(0), ActivateCopy(0)])
    ensures m.copiers == [Activated(1, "pw", 0)] && m.watchers == [] && m.board.leases == map[1 := Lease("pw", Pending)]
  {
    var w1 := Next(w, BeginCopy(0, "pw", 0));
    assert w1.copiers == [Numbered(1, "pw", 0)];
    var w2 := Next(w1, RegisterCopy(0));
    assert w2.copiers == [Registered(1, "pw", 0)] && w2.board.leases == map[1 := Lease("pw", Pending)];
    m := Next(w2, ActivateCopy(0));
    ThreeSteps(w, BeginCopy(0, "pw", 0), RegisterCopy(0), ActivateCopy(0));
  }

  /** One copy up to its write, by the only copier. */
  lemma CopyRun(w: World, text: string, delay: nat) returns (m: World)
    requires w.copiers == [Idle] && w.board.generation == w.copies && w.copies + 1 < WORD
    ensures m == Run(w, [BeginCopy(0, text, delay), RegisterCopy(0), ActivateCopy(0)] + [WriteCopy(0, Works)])
    ensures m.copiers == [Written(w.copies + 1, text, delay)] && m.watchers == w.watchers && m.now == w.now
    ensures m.copies == w.copies + 1 == m.board.generation == m.board.active == m.board.writer && m.board.clipboard == text
    ensures m.copies in m.board.leases && m.board.leases[m.copies].text == text
  {
    var id := w.copies + 1;
    var w1 := Next(w, BeginCopy(0, text, delay));
    assert w1.copiers == [Numbered(id, text, delay)];
    var w2 := Next(w1, RegisterCopy(0));
    assert w2.copiers == [Registered(id, text, delay)];
    var w3 := Next(w2, ActivateCopy(0));
    assert w3.copiers == [Activated(id, text, delay)];
    m := Next(w3, WriteCopy(0, Works));
    ThreeSteps(w, BeginCopy(0, text, delay), RegisterCopy(0), ActivateCopy(0));
    RunSnoc(w, [BeginCopy(0, text, delay), RegisterCopy(0), ActivateCopy(0)], WriteCopy(0, Works));
  }

  /** The first copy's watcher, its time being over, has compared and is about to erase. */
  lemma AboutToErase(m: World) returns (n: World)
    requires m.copiers == [Written(1, "a", 0)] && m.watchers == [] && m.board.active == 1 && m.board.clipboard == "a"
    requires 1 in m.board.leases && m.board.leases[1].text == "a" && m.copies == m.board.generation == 1
    ensures n == Run(m, [SpawnWatcher(0), TickWatcher(0), LoadText(0)] + [ReadClipboard(0, Honest)])
    ensures n.copiers == [Idle] && n.watchers == [Erasing(1)] && n.copies == n.board.generation == 1
  {
    var w1 := Next(m, SpawnWatcher(0));
    assert w1.watchers == [Watching(1, m.now, m.now)] && w1.copiers == [Idle];
    var w2 := Next(w1, TickWatcher(0));
    assert w2.watchers == [Looking(1, m.now, m.now)];
    var w3 := Next(w2, LoadText(0));
    assert w3.watchers == [Comparing(1, m.now, m.now, "a")];
    n := Next(w3, ReadClipboard(0, Honest));
    ThreeSteps(m, SpawnWatcher(0), TickWatcher(0), LoadText(0));
    RunSnoc(m, [SpawnWatcher(0), TickWatcher(0), LoadText(0)], ReadClipboard(0, Honest));
  }

  /**
   One copying thread and no failure: the first watcher compares, the second copy is
   written, and the first watcher erases it at the very start of its time.
   */
  lemma LateEraseHitsLaterCopy(w: World)
    requires Fresh(w) && w.copiers == [Idle]
    ensures var events :=
        ([BeginCopy(0, "a", 0), RegisterCopy(0), ActivateCopy(0)] + [WriteCopy(0, Works)])
        + ([SpawnWatcher(0), TickWatcher(0), LoadText(0)] + [ReadClipboard(0, Honest)])
        + ([BeginCopy(0, "b", 5000), RegisterCopy(0), ActivateCopy(0)] + [WriteCopy(0, Works)]);
      var m := Run(w, events); var end := Next(m, EraseClipboard(0, false));
      && OneAtATime(w, events) && (forall e :: e in events ==> Undisturbed(e))
      && m.board.clipboard == "b" && m.board.writer == 2 && m.copiers == [Written(2, "b", 5000)]
      && end.board.clipboard == "" && end.board.active == 2
  {
    var a := [BeginCopy(0, "a", 0), RegisterCopy(0), ActivateCopy(0)] + [WriteCopy(0, Works)];
    var b := [SpawnWatcher(0), TickWatcher(0), LoadText(0)] + [ReadClipboard(0, Honest)];
    var c := [BeginCopy(0, "b", 5000), RegisterCopy(0), ActivateCopy(0)] + [WriteCopy(0, Works)];
    var m1 := CopyRun(w, "a", 0);
    var m2 := AboutToErase(m1);
    var m3 := CopyRun(m2, "b", 5000);
    RunConcat(w, a, b);
    RunConcat(w, a + b, c);
    OneCopierTakesTurns(w, a + b + c);
  }
}
