/**
 The audit ledger: for every entry name a record of its creation, its modifications and
 its deletion. A rename moves the record to the new name. Timestamps, host data and the
 runtime log are left out; an event is its name, its mode and the name before it.
 */
module AuditLedger {
  import opened Options
  import opened Text
  import opened PathNames

  datatype Mode = Manual | Combo | Unknown

  function ToText(m: Mode): string {
    match m case Manual => "manual" case Combo => "combo" case Unknown => "unknown"
  }

  function FromText(text: string): Mode {
    var trimmed := Trim(text);
    if trimmed == "manual" then Manual else if trimmed == "combo" then Combo else Unknown
  }

  lemma ModeReadsBack(m: Mode)
    ensures FromText(ToText(m)) == m
  {
    TrimFacts(ToText(m));
    assert "manual"[0] == 'm' && "combo"[0] == 'c' && "unknown"[0] == 'u';
  }

  datatype Event = Event(name: string, mode: string, previous: Option<string>)

  datatype Record = Record(name: string, creation: Option<Event>, modifications: seq<Event>, deletion: Option<Event>)

  type Ledger = map<string, Record>

  function LatestMode(r: Record): Mode {
    if r.modifications != [] then FromText(r.modifications[|r.modifications| - 1].mode)
    else if r.creation.Some? then FromText(r.creation.value.mode)
    else Unknown
  }

  // ---------------------------------------------------------------- single operations

  function Existing(l: Ledger, name: string): Record {
    if name in l then l[name] else Record(name, None, [], None)
  }

  function Created(l: Ledger, name: string, m: Mode): Ledger {
    l[name := Record(name, Some(Event(name, ToText(m), None)), [], None)]
  }

  function Modified(l: Ledger, previous: string, name: string, m: Mode): Ledger {
    var r := Existing(l, previous);
    var event := Event(name, ToText(m), None);
    (l - {previous})[name := Record(name, Some(if r.creation.Some? then r.creation.value else event),
                                    r.modifications + [event.(previous := Some(previous))], None)]
  }

  function DeletedRecord(r: Record, name: string): Record {
    r.(name := name, deletion := Some(Event(name, ToText(LatestMode(r)), None)))
  }

  function Deleted(l: Ledger, name: string): Ledger { l[name := DeletedRecord(Existing(l, name), name)] }

  function TreeDeleted(l: Ledger, folder: string): Ledger {
    map name | name in l :: if Below(folder, name) then DeletedRecord(l[name], name) else l[name]
  }

  ghost function ActiveNames(l: Ledger): set<string> { set n | n in l && l[n].deletion.None? }

  ghost function DeletedNames(l: Ledger): set<string> { set n | n in l && l[n].deletion.Some? }

  /** The ledger file: its records, and the two counts kept beside them. */
  class LedgerFile {
    var entries: Ledger
    var entryCount: nat
    var deletedEntryCount: nat

    ghost predicate Counted()
      reads this
    {
      entryCount == |ActiveNames(entries)| && deletedEntryCount == |DeletedNames(entries)|
    }

    constructor ()
      ensures entries == map[] && Counted()
    {
      entries, entryCount, deletedEntryCount := map[], 0, 0;
    }

    method RefreshMeta()
      modifies this`entryCount, this`deletedEntryCount
      ensures Counted()
    {
      var active, deleted := 0, 0;
      var todo := entries.Keys;
      while todo != {}
        invariant todo <= entries.Keys
        invariant active == |ActiveNames(entries) - todo| && deleted == |DeletedNames(entries) - todo|
        decreases todo
      {
        var name :| name in todo;
        CountOne(ActiveNames(entries), todo, name);
        CountOne(DeletedNames(entries), todo, name);
        todo := todo - {name};
        if entries[name].deletion.Some? {
          deleted := deleted + 1;
        } else {
          active := active + 1;
        }
      }
      assert ActiveNames(entries) - todo == ActiveNames(entries) && DeletedNames(entries) - todo == DeletedNames(entries);
      entryCount, deletedEntryCount := active, deleted;
    }

    method RecordCreation(name: string, m: Mode)
      modifies this
      ensures entries == Created(old(entries), name, m) && Counted()
    {
      var event := Event(name, ToText(m), None);
      entries := entries[name := Record(name, Some(event), [], None)];
      RefreshMeta();
    }

    method RecordModification(previous: string, name: string, m: Mode)
      modifies this
      ensures entries == Modified(old(entries), previous, name, m) && Counted()
    {
      var record := Record("", None, [], None);
      if previous in entries {
        record := entries[previous];
        entries := entries - {previous};
      } else {
        assert entries - {previous} == entries;
      }
      if record.creation.None? {
        record := record.(creation := Some(Event(name, ToText(m), None)));
      }
      record := record.(name := name, deletion := None,
                        modifications := record.modifications + [Event(name, ToText(m), Some(previous))]);
      entries := entries[name := record];
      RefreshMeta();
    }

    method RecordDeletion(name: string)
      modifies this
      ensures entries == Deleted(old(entries), name) && Counted()
    {
      var record := if name in entries then entries[name] else Record(name, None, [], None);
      entries := entries[name := DeletedRecord(record, name)];
      RefreshMeta();
    }

    method RecordTreeDeletion(folder: string)
      modifies this
      ensures entries == TreeDeleted(old(entries), folder) && Counted()
    {
      var todo := entries.Keys;
      while todo != {}
        invariant todo <= old(entries).Keys && entries.Keys == old(entries).Keys
        invariant forall n :: n in entries ==>
          entries[n] == if n in todo then old(entries)[n] else TreeDeleted(old(entries), folder)[n]
        decreases todo
      {
        var name :| name in todo;
        todo := todo - {name};
        if Below(folder, name) {
          entries := entries[name := DeletedRecord(entries[name], name)];
        }
      }
      assert entries == TreeDeleted(old(entries), folder);
      RefreshMeta();
    }
  }

  lemma CountOne(all: set<string>, todo: set<string>, name: string)
    requires name in todo
    ensures |all - (todo - {name})| == |all - todo| + if name in all then 1 else 0
  {
    if name in all {
      assert all - (todo - {name}) == (all - todo) + {name};
    } else {
      assert all - (todo - {name}) == all - todo;
    }
  }

  /** Every record is counted, once. */
  lemma CountsCoverTheLedger(l: Ledger)
    ensures |ActiveNames(l)| + |DeletedNames(l)| == |l|
  {
    assert ActiveNames(l) + DeletedNames(l) == l.Keys && ActiveNames(l) !! DeletedNames(l);
    assert |ActiveNames(l) + DeletedNames(l)| == |ActiveNames(l)| + |DeletedNames(l)|;
  }

  function Preferred(l: Ledger, name: string): Mode {
    if name in l then LatestMode(l[name]) else Unknown
  }

  // ---------------------------------------------------------------- whole runs

  datatype Op =
    | Create(name: string, m: Mode)
    | Modify(previous: string, name: string, m: Mode)
    | Delete(name: string)
    | DeleteTree(folder: string)

  function Do(l: Ledger, op: Op): Ledger {
    match op
    case Create(name, m) => Created(l, name, m)
    case Modify(previous, name, m) => Modified(l, previous, name, m)
    case Delete(name) => Deleted(l, name)
    case DeleteTree(folder) => TreeDeleted(l, folder)
  }

  function Run(l: Ledger, ops: seq<Op>): Ledger
    decreases |ops|
  {
    if ops == [] then l else Run(Do(l, ops[0]), ops[1..])
  }

  /**
   A record filed under `key` tells one story: every modification but the first starts
   from the name the one before ended with, the first starts from the created name or is
   itself what the record began with, and the last name is the key.
   */
  ghost predicate TellsOneStory(r: Record, key: string) {
    && r.name == key
    && (forall i :: 0 < i < |r.modifications| ==> r.modifications[i].previous == Some(r.modifications[i - 1].name))
    && (r.modifications != [] ==>
          && r.creation.Some? && r.modifications[0].previous.Some?
          && (r.modifications[0].previous == Some(r.creation.value.name) || r.modifications[0].name == r.creation.value.name)
          && r.modifications[|r.modifications| - 1].name == key)
    && (r.modifications == [] && r.creation.Some? ==> r.creation.value.name == key)
    && (r.deletion.Some? ==> r.deletion.value.name == key)
  }

  ghost predicate Coherent(l: Ledger) { forall k :: k in l ==> TellsOneStory(l[k], k) }

  lemma ModificationContinues(r: Record, previous: string, name: string, m: Mode)
    requires TellsOneStory(r, previous)
    ensures TellsOneStory(Modified(map[previous := r], previous, name, m)[name], name)
  {
  }

  lemma DoKeepsCoherence(l: Ledger, op: Op)
    requires Coherent(l)
    ensures Coherent(Do(l, op))
  {
    if op.Modify? {
      ModificationContinues(Existing(l, op.previous), op.previous, op.name, op.m);
    }
  }

  /** Over every run, every record tells one story. */
  lemma {:induction false} RunsStayCoherent(l: Ledger, ops: seq<Op>)
    requires Coherent(l)
    ensures Coherent(Run(l, ops))
    decreases |ops|
  {
    if ops != [] {
      DoKeepsCoherence(l, ops[0]);
      RunsStayCoherent(Do(l, ops[0]), ops[1..]);
    }
  }

  // ---- following one record through renames

  /** Under which name the record of `name` is filed after an operation; None when it has been replaced by another. */
  function Follow(name: string, op: Op): Option<string> {
    match op
    case Create(n, _) => if n == name then None else Some(name)
    case Modify(previous, n, _) => if previous == name then Some(n) else if n == name then None else Some(name)
    case _ => Some(name)
  }

  function FollowAll(name: string, ops: seq<Op>): Option<string>
    decreases |ops|
  {
    if ops == [] then Some(name)
    else match Follow(name, ops[0]) case None => None case Some(next) => FollowAll(next, ops[1..])
  }

  /** How many of the operations modified it on the way. */
  function StepsOn(name: string, ops: seq<Op>): nat
    decreases |ops|
  {
    if ops == [] then 0
    else match Follow(name, ops[0])
      case None => 0
      case Some(next) => (if ops[0].Modify? && ops[0].previous == name then 1 else 0) + StepsOn(next, ops[1..])
  }

  /** `b` is `a` with `more` further modifications. */
  ghost predicate Continues(a: Record, b: Record, more: nat) {
    && a.modifications <= b.modifications && |b.modifications| == |a.modifications| + more
    && (a.creation.Some? ==> b.creation == a.creation)
  }

  lemma FollowOne(l: Ledger, name: string, op: Op)
    requires name in l && Follow(name, op).Some?
    ensures var next := Follow(name, op).value;
      next in Do(l, op) && Continues(l[name], Do(l, op)[next], if op.Modify? && op.previous == name then 1 else 0)
  {
  }

  /**
   Over every run, a record that is neither created anew nor overwritten by a rename keeps
   its creation and its whole history, under whatever names it is renamed to, and gains
   exactly one event for every modification made to it.
   */
  lemma {:induction false} HistoryFollowsRenames(l: Ledger, name: string, ops: seq<Op>)
    requires name in l && FollowAll(name, ops).Some?
    ensures var last := FollowAll(name, ops).value;
      last in Run(l, ops) && Continues(l[name], Run(l, ops)[last], StepsOn(name, ops))
    decreases |ops|
  {
    if ops != [] {
      FollowOne(l, name, ops[0]);
      HistoryFollowsRenames(Do(l, ops[0]), Follow(name, ops[0]).value, ops[1..]);
    }
  }

  /** A modification touches no record but the two it names, and drops one exactly if it renames onto a name in use. */
  lemma ModificationTouchesTwo(l: Ledger, previous: string, name: string, m: Mode)
    ensures var after := Modified(l, previous, name, m);
      && (forall k :: k in l && k != previous && k != name ==> k in after && after[k] == l[k])
      && after.Keys == l.Keys - {previous} + {name}
      && (|after| < |l| <==> previous in l && name in l && name != previous)
  {
    var after := Modified(l, previous, name, m);
    assert after.Keys == l.Keys - {previous} + {name};
    assert |l.Keys - {previous}| == |l| - if previous in l then 1 else 0;
    assert |after| == |after.Keys|;
    if name in l.Keys - {previous} {
      assert l.Keys - {previous} + {name} == l.Keys - {previous};
    } else {
      assert |l.Keys - {previous} + {name}| == |l.Keys - {previous}| + 1;
    }
  }

  // ---- the preferred mode

  /** The mode last given for each name, by the operations alone. */
  function Given(given: map<string, Mode>, op: Op): map<string, Mode> {
    match op
    case Create(name, m) => given[name := m]
    case Modify(previous, name, m) => (given - {previous})[name := m]
    case _ => given
  }

  function GivenBy(given: map<string, Mode>, ops: seq<Op>): map<string, Mode>
    decreases |ops|
  {
    if ops == [] then given else GivenBy(Given(given, ops[0]), ops[1..])
  }

  ghost predicate Agrees(l: Ledger, given: map<string, Mode>) {
    forall name :: Preferred(l, name) == if name in given then given[name] else Unknown
  }

  lemma DoAgrees(l: Ledger, given: map<string, Mode>, op: Op)
    requires Agrees(l, given)
    ensures Agrees(Do(l, op), Given(given, op))
  {
    var after := Do(l, op);
    if op.Create? || op.Modify? { ModeReadsBack(op.m); }
    forall name ensures Preferred(after, name) == if name in Given(given, op) then Given(given, op)[name] else Unknown {
      assert Preferred(l, name) == if name in given then given[name] else Unknown;
      if op.DeleteTree? && name in l && Below(op.folder, name) {
        assert LatestMode(after[name]) == LatestMode(l[name]);
      }
    }
  }

  /** Over every run, the preferred mode of a name is the one last given for it, whatever was deleted meanwhile. */
  lemma {:induction false} PreferredModeIsTheLastGiven(l: Ledger, given: map<string, Mode>, ops: seq<Op>, name: string)
    requires Agrees(l, given)
    ensures var end := GivenBy(given, ops);
      Preferred(Run(l, ops), name) == if name in end then end[name] else Unknown
    decreases |ops|
  {
    if ops != [] {
      DoAgrees(l, given, ops[0]);
      PreferredModeIsTheLastGiven(Do(l, ops[0]), Given(given, ops[0]), ops[1..], name);
    }
  }

  // ---- what counts as deleted

  /** The operation creates the name, renames to it or away from it, deletes it, or deletes a folder that it is or lies in. */
  predicate About(op: Op, name: string) {
    match op
    case Create(n, _) => n == name
    case Modify(previous, n, _) => n == name || previous == name
    case Delete(n) => n == name
    case DeleteTree(folder) => name == folder || folder + "/" <= name
  }

  function LastAbout(ops: seq<Op>, name: string): Option<Op>
    decreases |ops|
  {
    if ops == [] then None
    else if About(ops[|ops| - 1], name) then Some(ops[|ops| - 1])
    else LastAbout(ops[..|ops| - 1], name)
  }

  /** Whether the name has a record, by the operations alone: the last one that gives it one or takes it away gave it one. */
  predicate Filed(ops: seq<Op>, name: string)
    decreases |ops|
  {
    ops != [] &&
    match ops[|ops| - 1]
    case Create(n, _) => n == name || Filed(ops[..|ops| - 1], name)
    case Modify(previous, n, _) => n == name || (previous != name && Filed(ops[..|ops| - 1], name))
    case Delete(n) => n == name || Filed(ops[..|ops| - 1], name)
    case DeleteTree(_) => Filed(ops[..|ops| - 1], name)
  }

  predicate Deletes(op: Op) { op.Delete? || op.DeleteTree? }

  lemma {:induction false} RunSnoc(l: Ledger, ops: seq<Op>)
    requires ops != []
    ensures Run(l, ops) == Do(Run(l, ops[..|ops| - 1]), ops[|ops| - 1])
    decreases |ops|
  {
    if |ops| > 1 {
      RunSnoc(Do(l, ops[0]), ops[1..]);
      assert ops[..|ops| - 1][1..] == ops[1..][..|ops| - 2];
    }
  }

  /** The record's deletion names it, and carries the mode that was given last. */
  ghost predicate TellsDeletion(l: Ledger, name: string) {
    name in l && l[name].deletion.Some? ==> l[name].deletion == Some(Event(name, ToText(Preferred(l, name)), None))
  }

  /** An operation that is not about a name leaves its record alone; a deletion adds to a record nothing but its event. */
  lemma DeletionTouchesOnly(l: Ledger, op: Op, name: string)
    ensures var after := Do(l, op);
      && (!About(op, name) ==> (name in after <==> name in l) && (name in l ==> after[name] == l[name]))
      && (Deletes(op) && About(op, name) && name in after ==>
            && after[name].deletion == Some(Event(name, ToText(Preferred(l, name)), None))
            && after[name].modifications == Existing(l, name).modifications && after[name].creation == Existing(l, name).creation)
      && (Deletes(op) ==> after.Keys == l.Keys + if op.Delete? then {op.name} else {})
  {
    assert op.DeleteTree? ==> (About(op, name) <==> Below(op.folder, name));
  }

  lemma {:induction false} DeletedExactly(ops: seq<Op>, name: string)
    ensures var l, last := Run(map[], ops), LastAbout(ops, name);
      && (name in l <==> Filed(ops, name)) && TellsDeletion(l, name)
      && (name in l ==> last.Some? && (l[name].deletion.Some? <==> Deletes(last.value)))
    decreases |ops|
  {
    if ops != [] {
      var init, op := ops[..|ops| - 1], ops[|ops| - 1];
      DeletedExactly(init, name);
      RunSnoc(map[], ops);
      DeletionTouchesOnly(Run(map[], init), op, name);
    }
  }

  /**
   Over every run from an empty ledger: a name counts as deleted exactly if it has a record
   and the last operation about it was a deletion, its own or that of a folder around it;
   it counts as active exactly if it has one and the last operation about it was another.
   The event names the record and carries the mode given last.
   */
  lemma DeletionsAreRecorded(ops: seq<Op>, name: string)
    ensures var l, last, given := Run(map[], ops), LastAbout(ops, name), GivenBy(map[], ops);
      && (name in DeletedNames(l) <==> Filed(ops, name) && last.Some? && Deletes(last.value))
      && (name in ActiveNames(l) <==> Filed(ops, name) && last.Some? && !Deletes(last.value))
      && (name in DeletedNames(l) ==>
            l[name].deletion == Some(Event(name, ToText(if name in given then given[name] else Unknown), None)))
  {
    DeletedExactly(ops, name);
    PreferredModeIsTheLastGiven(map[], map[], ops, name);
  }
}
