/**
 Copying a directory tree out of a backup (crates/mjolnir-files/src/extract.rs).

 The index is an arbitrary map from a record number to the names inside it, so it
 may hold loops. Copying one file is a parameter: any function of the entry and of
 how many files were copied before it.
 */
module ExtractTree {
  import opened Arith

  datatype IndexEntry = IndexEntry(number: nat, parent: nat, name: string, isDirectory: bool, isReparsePoint: bool)

  type Index = map<nat, seq<IndexEntry>>

  datatype Extracted = Written(bytes: u64) | Skipped | Failed

  datatype ExtractError = Cancelled | CopyFailed

  datatype Outcome = Outcome(files: seq<Extracted>, bytesWritten: u64)

  type Copier = (nat, IndexEntry) -> Result<seq<Extracted>, ExtractError>

  function ChildrenOf(index: Index, number: nat): seq<IndexEntry> {
    if number in index then index[number] else []
  }

  // ---- what is reachable -----------------------------------------------------

  /** One step of the walk: from a directory it goes into, to something inside it. */
  ghost predicate Step(index: Index, follow: bool, d: IndexEntry, c: IndexEntry) {
    d.isDirectory && (d.isReparsePoint ==> follow) && c in ChildrenOf(index, d.number)
  }

  ghost predicate IsPath(index: Index, follow: bool, root: IndexEntry, p: seq<IndexEntry>) {
    if |p| <= 1 then p == [root]
    else IsPath(index, follow, root, p[..|p| - 1]) && Step(index, follow, p[|p| - 2], p[|p| - 1])
  }

  ghost predicate Reachable(index: Index, follow: bool, root: IndexEntry, e: IndexEntry) {
    exists p :: IsPath(index, follow, root, p) && p != [] && p[|p| - 1] == e
  }

  ghost predicate InIndex(index: Index, root: IndexEntry, e: IndexEntry) {
    e == root || exists n :: n in index && e in index[n]
  }

  /** Whether a record is a directory or a link is a fact about the record, not about one of its names. */
  ghost predicate FlagsByRecord(index: Index, root: IndexEntry) {
    forall e, f :: InIndex(index, root, e) && InIndex(index, root, f) && e.number == f.number ==>
      e.isDirectory == f.isDirectory && e.isReparsePoint == f.isReparsePoint
  }

  ghost function Numbers(index: Index, root: IndexEntry): set<nat> {
    {root.number} + set n, i | n in index && 0 <= i < |index[n]| :: index[n][i].number
  }

  lemma RootIsReachable(index: Index, follow: bool, root: IndexEntry)
    ensures Reachable(index, follow, root, root)
  {
    assert IsPath(index, follow, root, [root]);
  }

  lemma ChildIsReachable(index: Index, follow: bool, root: IndexEntry, d: IndexEntry, c: IndexEntry)
    requires Reachable(index, follow, root, d) && d.isDirectory && (d.isReparsePoint ==> follow)
    requires c in ChildrenOf(index, d.number)
    ensures Reachable(index, follow, root, c)
  {
    var p: seq<IndexEntry> :| IsPath(index, follow, root, p) && p != [] && p[|p| - 1] == d;
    var q := p + [c];
    assert q[..|q| - 1] == p && q[|q| - 2] == d;
    assert IsPath(index, follow, root, q);
  }

  lemma ReachableIsInIndex(index: Index, follow: bool, root: IndexEntry, e: IndexEntry)
    requires Reachable(index, follow, root, e)
    ensures InIndex(index, root, e) && e.number in Numbers(index, root)
  {
  }

  // ---- what a run did ----------------------------------------------------------

  datatype Event = Handed(entry: IndexEntry) | SkippedJunction(entry: IndexEntry) | Expanded(entry: IndexEntry)

  predicate SameName(a: IndexEntry, b: IndexEntry) {
    a.number == b.number && a.name == b.name
  }

  /** Two events of one run that must not both happen. */
  predicate Repeats(a: Event, b: Event) {
    match (a, b)
    case (Handed(e), Handed(f)) => SameName(e, f)
    case (Handed(_), _) => false
    case (_, Handed(_)) => false
    case (_, _) => a.entry.number == b.entry.number
  }

  /** What the event says about the entry: the branch of the walk that handled it. */
  predicate RightEvent(v: Event, follow: bool) {
    match v
    case Handed(e) => !e.isDirectory
    case SkippedJunction(e) => e.isDirectory && e.isReparsePoint && !follow
    case Expanded(e) => e.isDirectory && (e.isReparsePoint ==> follow)
  }

  ghost predicate Sound(index: Index, follow: bool, root: IndexEntry, events: seq<Event>) {
    && (forall i :: 0 <= i < |events| ==>
          RightEvent(events[i], follow) && Reachable(index, follow, root, events[i].entry))
    && forall i, j :: 0 <= i < j < |events| ==> !Repeats(events[i], events[j])
  }

  predicate DealsWith(v: Event, e: IndexEntry) {
    if e.isDirectory then !v.Handed? && v.entry.number == e.number
    else v.Handed? && SameName(v.entry, e)
  }

  /** Some event has dealt with this entry, or with another entry that stands for it. */
  ghost predicate Handled(events: seq<Event>, e: IndexEntry) {
    exists i :: 0 <= i < |events| && DealsWith(events[i], e)
  }

  ghost predicate Complete(index: Index, follow: bool, root: IndexEntry, events: seq<Event>) {
    forall e :: Reachable(index, follow, root, e) ==> Handled(events, e)
  }

  function Entries(events: seq<Event>): seq<IndexEntry> {
    if events == [] then []
    else Entries(events[..|events| - 1]) +
         (if events[|events| - 1].Handed? then [events[|events| - 1].entry] else [])
  }

  /** The report a run must give: what each copied file reported, and one line for each junction. */
  function Report(events: seq<Event>, copy: Copier): Result<seq<Extracted>, ExtractError> {
    if events == [] then Success([])
    else
      var before :- Report(events[..|events| - 1], copy);
      match events[|events| - 1]
      case Expanded(_) => Success(before)
      case SkippedJunction(_) => Success(before + [Skipped])
      case Handed(e) =>
        var now :- copy(|Entries(events[..|events| - 1])|, e);
        Success(before + now)
  }

  function WrittenBytes(files: seq<Extracted>): nat {
    if files == [] then 0
    else WrittenBytes(files[..|files| - 1]) +
         (if files[|files| - 1].Written? then files[|files| - 1].bytes else 0)
  }

  /** What one file adds to the total. With `WrittenBytesConcat` that says what the total of any list is. */
  lemma WrittenBytesOfOne(file: Extracted)
    ensures WrittenBytes([file]) == if file.Written? then file.bytes else 0
  {
    assert [file][..0] == [];
  }

  /** The total of some files as 64 bits hold it when nothing checks for overflow. */
  predicate TotalsUpTo64Bits(total: u64, files: seq<Extracted>) {
    total == WrittenBytes(files) % (U64_MAX + 1)
  }

  /** Adds what one copy wrote, unchecked. */
  method AddWritten(total: u64, ghost files: seq<Extracted>, more: seq<Extracted>) returns (sum: u64)
    requires TotalsUpTo64Bits(total, files)
    ensures TotalsUpTo64Bits(sum, files + more)
  {
    WrittenBytesConcat(files, more);
    sum := (total + WrittenBytes(more)) % (U64_MAX + 1);
  }

  lemma {:induction false} WrittenBytesConcat(a: seq<Extracted>, b: seq<Extracted>)
    ensures WrittenBytes(a + b) == WrittenBytes(a) + WrittenBytes(b)
  {
    if b == [] {
      assert a + b == a;
    } else {
      WrittenBytesConcat(a, b[..|b| - 1]);
      assert (a + b)[..|a + b| - 1] == a + b[..|b| - 1];
    }
  }

  // ---- the walk ----------------------------------------------------------------

  /** Everything reachable that is not handled yet can still be reached through the queue. */
  ghost predicate Pending(index: Index, follow: bool, root: IndexEntry, events: seq<Event>, queue: seq<IndexEntry>) {
    && (Handled(events, root) || root in queue)
    && forall i, c :: 0 <= i < |events| && events[i].Expanded? && c in ChildrenOf(index, events[i].entry.number) ==>
         Handled(events, c) || c in queue
  }

  lemma ChildIsHandled(index: Index, follow: bool, root: IndexEntry, events: seq<Event>, d: IndexEntry, c: IndexEntry)
    requires FlagsByRecord(index, root) && Sound(index, follow, root, events)
    requires Pending(index, follow, root, events, [])
    requires Reachable(index, follow, root, d) && Handled(events, d) && Step(index, follow, d, c)
    ensures Handled(events, c)
  {
    var i :| 0 <= i < |events| && DealsWith(events[i], d);
    ReachableIsInIndex(index, follow, root, d);
    ReachableIsInIndex(index, follow, root, events[i].entry);
    assert events[i].Expanded?;
    assert c in ChildrenOf(index, events[i].entry.number);
    assert c !in [];
  }

  lemma {:induction false} PathIsHandled(index: Index, follow: bool, root: IndexEntry, events: seq<Event>,
      p: seq<IndexEntry>)
    requires FlagsByRecord(index, root) && Sound(index, follow, root, events)
    requires Pending(index, follow, root, events, [])
    requires IsPath(index, follow, root, p) && p != []
    ensures Handled(events, p[|p| - 1])
  {
    if |p| > 1 {
      var q := p[..|p| - 1];
      PathIsHandled(index, follow, root, events, q);
      assert q[|q| - 1] == p[|p| - 2];
      ChildIsHandled(index, follow, root, events, p[|p| - 2], p[|p| - 1]);
    }
  }

  lemma EmptyQueueIsComplete(index: Index, follow: bool, root: IndexEntry, events: seq<Event>)
    requires FlagsByRecord(index, root) && Sound(index, follow, root, events)
    requires Pending(index, follow, root, events, [])
    ensures Complete(index, follow, root, events)
  {
    forall e | Reachable(index, follow, root, e)
      ensures Handled(events, e)
    {
      var p: seq<IndexEntry> :| IsPath(index, follow, root, p) && p != [] && p[|p| - 1] == e;
      PathIsHandled(index, follow, root, events, p);
    }
  }

  lemma HandledExtends(events: seq<Event>, v: Event, e: IndexEntry)
    ensures Handled(events, e) ==> Handled(events + [v], e)
    ensures DealsWith(v, e) ==> Handled(events + [v], e)
  {
    var all := events + [v];
    if Handled(events, e) {
      var i :| 0 <= i < |events| && DealsWith(events[i], e);
      assert all[i] == events[i];
    }
    assert all[|events|] == v;
  }

  /** Taking an entry that is already dealt with off the queue loses nothing. */
  lemma PendingPop(index: Index, follow: bool, root: IndexEntry, events: seq<Event>, rest: seq<IndexEntry>,
      e: IndexEntry)
    requires Pending(index, follow, root, events, rest + [e]) && Handled(events, e)
    ensures Pending(index, follow, root, events, rest)
  {
  }

  /** Recording what was done with the popped entry, and queueing its children, loses nothing. */
  lemma PendingRecord(index: Index, follow: bool, root: IndexEntry, events: seq<Event>, rest: seq<IndexEntry>,
      v: Event, more: seq<IndexEntry>)
    requires Pending(index, follow, root, events, rest + [v.entry])
    requires RightEvent(v, follow)
    requires more == if v.Expanded? then ChildrenOf(index, v.entry.number) else []
    ensures Pending(index, follow, root, events + [v], rest + more)
  {
    var all := events + [v];
    HandledExtends(events, v, root);
    HandledExtends(events, v, v.entry);
    assert forall c :: c in rest + [v.entry] ==> c in rest || c == v.entry;
    forall i, c | 0 <= i < |all| && all[i].Expanded? && c in ChildrenOf(index, all[i].entry.number)
      ensures Handled(all, c) || c in rest + more
    {
      HandledExtends(events, v, c);
      if i < |events| {
        assert Handled(events, c) || c in rest + [v.entry];
      }
    }
  }

  lemma SoundRecord(index: Index, follow: bool, root: IndexEntry, events: seq<Event>, v: Event)
    requires Sound(index, follow, root, events)
    requires RightEvent(v, follow) && Reachable(index, follow, root, v.entry)
    requires !Handled(events, v.entry)
    ensures Sound(index, follow, root, events + [v])
  {
  }

  ghost predicate QueueReachable(index: Index, follow: bool, root: IndexEntry, queue: seq<IndexEntry>) {
    forall e :: e in queue ==> Reachable(index, follow, root, e)
  }

  lemma QueueChildren(index: Index, follow: bool, root: IndexEntry, rest: seq<IndexEntry>, d: IndexEntry)
    requires QueueReachable(index, follow, root, rest)
    requires Reachable(index, follow, root, d) && d.isDirectory && (d.isReparsePoint ==> follow)
    ensures QueueReachable(index, follow, root, rest + ChildrenOf(index, d.number))
  {
    forall e | e in ChildrenOf(index, d.number)
      ensures Reachable(index, follow, root, e)
    {
      ChildIsReachable(index, follow, root, d, e);
    }
  }

  /** The two visited sets hold exactly what the events say has been dealt with. */
  ghost predicate SetsMatch(events: seq<Event>, visited: set<nat>, written: set<(nat, string)>) {
    && (forall e: IndexEntry :: e.isDirectory ==> (e.number in visited <==> Handled(events, e)))
    && (forall e: IndexEntry :: !e.isDirectory ==> ((e.number, e.name) in written <==> Handled(events, e)))
  }

  lemma SetsRecord(events: seq<Event>, visited: set<nat>, written: set<(nat, string)>, v: Event)
    requires SetsMatch(events, visited, written)
    ensures v.Handed? ==> SetsMatch(events + [v], visited, written + {(v.entry.number, v.entry.name)})
    ensures !v.Handed? ==> SetsMatch(events + [v], visited + {v.entry.number}, written)
  {
    var all := events + [v];
    forall e: IndexEntry
      ensures Handled(all, e) <==> (Handled(events, e) || DealsWith(v, e))
    {
      HandledExtends(events, v, e);
      if Handled(all, e) {
        var i :| 0 <= i < |all| && DealsWith(all[i], e);
        assert i < |events| ==> events[i] == all[i];
      }
    }
  }

  lemma LastIsSplit<T>(s: seq<T>)
    requires s != []
    ensures s == s[..|s| - 1] + [s[|s| - 1]]
  {
  }

  lemma AppendNothing<T>(s: seq<T>)
    ensures s + [] == s
  {
  }

  /** Everything the walk keeps true between two entries. */
  ghost predicate WalkInvariant(index: Index, follow: bool, root: IndexEntry, copy: Copier, queue: seq<IndexEntry>,
      visited: set<nat>, written: set<(nat, string)>, events: seq<Event>, files: seq<Extracted>) {
    && Sound(index, follow, root, events)
    && Pending(index, follow, root, events, queue)
    && QueueReachable(index, follow, root, queue)
    && SetsMatch(events, visited, written)
    && Report(events, copy) == Success(files)
  }

  lemma WalkStarts(index: Index, follow: bool, root: IndexEntry, copy: Copier)
    ensures WalkInvariant(index, follow, root, copy, [root], {}, {}, [], [])
  {
  }

  /** Popping an entry already dealt with keeps the invariant. */
  lemma WalkSkips(index: Index, follow: bool, root: IndexEntry, copy: Copier, rest: seq<IndexEntry>,
      visited: set<nat>, written: set<(nat, string)>, events: seq<Event>, files: seq<Extracted>, entry: IndexEntry)
    requires WalkInvariant(index, follow, root, copy, rest + [entry], visited, written, events, files)
    requires if entry.isDirectory then entry.number in visited else (entry.number, entry.name) in written
    ensures WalkInvariant(index, follow, root, copy, rest, visited, written, events, files)
  {
    PendingPop(index, follow, root, events, rest, entry);
    assert forall e :: e in rest ==> e in rest + [entry];
  }

  /** Dealing with a popped directory, either way, keeps the invariant. */
  lemma WalkEnters(index: Index, follow: bool, root: IndexEntry, copy: Copier, rest: seq<IndexEntry>,
      visited: set<nat>, written: set<(nat, string)>, events: seq<Event>, files: seq<Extracted>, v: Event)
    requires WalkInvariant(index, follow, root, copy, rest + [v.entry], visited, written, events, files)
    requires !v.Handed? && RightEvent(v, follow) && v.entry.number !in visited
    ensures var more := if v.Expanded? then ChildrenOf(index, v.entry.number) else [];
            var line := if v.Expanded? then [] else [Skipped];
            WalkInvariant(index, follow, root, copy, rest + more, visited + {v.entry.number}, written,
                          events + [v], files + line)
  {
    var more := if v.Expanded? then ChildrenOf(index, v.entry.number) else [];
    assert v.entry in rest + [v.entry];
    SoundRecord(index, follow, root, events, v);
    SetsRecord(events, visited, written, v);
    PendingRecord(index, follow, root, events, rest, v, more);
    forall e | e in rest
      ensures Reachable(index, follow, root, e)
    {
      assert e in rest + [v.entry];
    }
    if v.Expanded? {
      QueueChildren(index, follow, root, rest, v.entry);
    }
    assert (events + [v])[..|events|] == events;
    AppendNothing(files);
  }

  /** Copying a popped file keeps the invariant, when the copy succeeds. */
  lemma WalkCopies(index: Index, follow: bool, root: IndexEntry, copy: Copier, rest: seq<IndexEntry>,
      visited: set<nat>, written: set<(nat, string)>, events: seq<Event>, files: seq<Extracted>, entry: IndexEntry)
    requires WalkInvariant(index, follow, root, copy, rest + [entry], visited, written, events, files)
    requires !entry.isDirectory && (entry.number, entry.name) !in written
    ensures Sound(index, follow, root, events + [Handed(entry)])
    ensures var results := copy(|Entries(events)|, entry);
            results.Success? ==>
              WalkInvariant(index, follow, root, copy, rest, visited, written + {(entry.number, entry.name)},
                            events + [Handed(entry)], files + results.value)
  {
    var v := Handed(entry);
    assert v.entry in rest + [v.entry];
    SoundRecord(index, follow, root, events, v);
    SetsRecord(events, visited, written, v);
    PendingRecord(index, follow, root, events, rest, v, []);
    AppendNothing(rest);
    assert QueueReachable(index, follow, root, rest) by {
      assert forall e :: e in rest ==> e in rest + [entry];
    }
    assert (events + [v])[..|events|] == events;
  }

  lemma NewDirectoryIsKnown(index: Index, follow: bool, root: IndexEntry, copy: Copier, queue: seq<IndexEntry>,
      visited: set<nat>, written: set<(nat, string)>, events: seq<Event>, files: seq<Extracted>, entry: IndexEntry)
    requires WalkInvariant(index, follow, root, copy, queue, visited, written, events, files) && entry in queue
    ensures entry.number in Numbers(index, root)
  {
  }

  /** What the loop does with a directory it has not seen: skip a junction, or queue what is inside. */
  method EnterDirectory(index: Index, follow: bool, ghost root: IndexEntry, ghost copy: Copier, rest: seq<IndexEntry>,
      ghost visited: set<nat>, ghost written: set<(nat, string)>, events: seq<Event>, files: seq<Extracted>,
      entry: IndexEntry)
    returns (queue: seq<IndexEntry>, events': seq<Event>, files': seq<Extracted>)
    requires WalkInvariant(index, follow, root, copy, rest + [entry], visited, written, events, files)
    requires entry.isDirectory && entry.number !in visited
    ensures WalkInvariant(index, follow, root, copy, queue, visited + {entry.number}, written, events', files')
    ensures forall total :: TotalsUpTo64Bits(total, files) ==> TotalsUpTo64Bits(total, files')
  {
    var v := if entry.isReparsePoint && !follow then SkippedJunction(entry) else Expanded(entry);
    WalkEnters(index, follow, root, copy, rest, visited, written, events, files, v);
    events' := events + [v];
    if entry.isReparsePoint && !follow {
      AppendNothing(rest);
      WrittenBytesConcat(files, [Skipped]);
      return rest, events', files + [Skipped];
    }
    AppendNothing(files);
    return rest + ChildrenOf(index, entry.number), events', files;
  }

  /** A copy that fails is the failure of the whole report. */
  lemma ReportOneCopy(events: seq<Event>, copy: Copier, entry: IndexEntry, files: seq<Extracted>)
    requires Report(events, copy) == Success(files)
    ensures copy(|Entries(events)|, entry).Failure? ==>
              Report(events + [Handed(entry)], copy) == Failure(copy(|Entries(events)|, entry).error)
  {
    assert (events + [Handed(entry)])[..|events|] == events;
  }

  /** What the loop does with a name it has not seen: copy it, and report what came of it. */
  method CopyEntry(ghost index: Index, ghost follow: bool, ghost root: IndexEntry, copy: Copier,
      ghost rest: seq<IndexEntry>, ghost visited: set<nat>, ghost written: set<(nat, string)>, events: seq<Event>,
      files: seq<Extracted>, entry: IndexEntry, total: u64)
    returns (r: Result<(seq<Extracted>, u64), ExtractError>, events': seq<Event>)
    requires WalkInvariant(index, follow, root, copy, rest + [entry], visited, written, events, files)
    requires !entry.isDirectory && (entry.number, entry.name) !in written && TotalsUpTo64Bits(total, files)
    ensures r.Success? ==>
              && WalkInvariant(index, follow, root, copy, rest, visited, written + {(entry.number, entry.name)},
                               events', r.value.0)
              && TotalsUpTo64Bits(r.value.1, r.value.0)
    ensures r.Failure? ==> Sound(index, follow, root, events') && Report(events', copy) == Failure(r.error)
  {
    WalkCopies(index, follow, root, copy, rest, visited, written, events, files, entry);
    ReportOneCopy(events, copy, entry, files);
    var results := copy(|Entries(events)|, entry);
    events' := events + [Handed(entry)];
    if results.Failure? {
      return Failure(results.error), events';
    }
    var more := AddWritten(total, files, results.value);
    return Success((files + results.value, more)), events';
  }

  /**
   Walks the tree with an explicit queue, which ends on any index. Nothing is dealt
   with twice, and nothing that cannot be reached from the root. On success everything
   that can has been, if all names of a record agree on what it is. The byte total is
   added up unchecked, so it is the true one only up to 2^64.
   */
  method ExtractAll(index: Index, root: IndexEntry, follow: bool, copy: Copier, mayCancel: bool)
    returns (r: Result<Outcome, ExtractError>, events: seq<Event>)
    ensures Sound(index, follow, root, events)
    ensures r.Success? && FlagsByRecord(index, root) ==> Complete(index, follow, root, events)
    ensures r.Success? ==> Report(events, copy) == Success(r.value.files)
    ensures r.Failure? ==> (mayCancel && r.error == Cancelled) || Report(events, copy) == Failure(r.error)
    ensures r.Success? ==> TotalsUpTo64Bits(r.value.bytesWritten, r.value.files)
  {
    var files: seq<Extracted> := [];
    var bytesWritten: u64 := 0;
    var queue := [root];
    var visitedDirectories: set<nat> := {};
    var writtenNames: set<(nat, string)> := {};
    events := [];
    WalkStarts(index, follow, root, copy);
    while queue != []
      invariant WalkInvariant(index, follow, root, copy, queue, visitedDirectories, writtenNames, events, files)
      invariant TotalsUpTo64Bits(bytesWritten, files)
      decreases Numbers(index, root) - visitedDirectories, |queue|
    {
      var entry, rest := queue[|queue| - 1], queue[..|queue| - 1];
      LastIsSplit(queue);
      NewDirectoryIsKnown(index, follow, root, copy, queue, visitedDirectories, writtenNames, events, files, entry);
      var cancelled := *;
      if mayCancel && cancelled {
        return Failure(Cancelled), events;
      }
      if entry.isDirectory && entry.number !in visitedDirectories {
        queue, events, files := EnterDirectory(index, follow, root, copy, rest, visitedDirectories, writtenNames,
            events, files, entry);
        visitedDirectories := visitedDirectories + {entry.number};
      } else if entry.isDirectory || (entry.number, entry.name) in writtenNames {
        WalkSkips(index, follow, root, copy, rest, visitedDirectories, writtenNames, events, files, entry);
        queue := rest;
      } else {
        var copied;
        copied, events := CopyEntry(index, follow, root, copy, rest, visitedDirectories, writtenNames, events, files,
            entry, bytesWritten);
        if copied.Failure? {
          return Failure(copied.error), events;
        }
        files, bytesWritten := copied.value.0, copied.value.1;
        queue := rest;
        writtenNames := writtenNames + {(entry.number, entry.name)};
      }
    }
    if FlagsByRecord(index, root) {
      EmptyQueueIsComplete(index, follow, root, events);
    }
    r := Success(Outcome(files, bytesWritten));
  }

  // ---- junctions ---------------------------------------------------------------------

  /** What is done with an entry goes by its own flags. */
  lemma EventsByFlags(index: Index, follow: bool, root: IndexEntry, events: seq<Event>)
    requires Sound(index, follow, root, events)
    ensures forall v :: v in events ==> (v.Handed? <==> !v.entry.isDirectory)
    ensures forall v :: v in events ==>
              (v.SkippedJunction? <==> v.entry.isDirectory && v.entry.isReparsePoint && !follow)
  {
  }

  /** Unless they are to be followed, no junction is entered, and every one in reach is passed over. */
  lemma JunctionsAreSkipped(index: Index, root: IndexEntry, events: seq<Event>, e: IndexEntry)
    requires Sound(index, false, root, events) && Complete(index, false, root, events) && FlagsByRecord(index, root)
    ensures forall v :: v in events && v.Expanded? ==> !v.entry.isReparsePoint
    ensures Reachable(index, false, root, e) && e.isDirectory && e.isReparsePoint ==>
              exists v :: v in events && v.SkippedJunction? && v.entry.number == e.number
  {
    if Reachable(index, false, root, e) && e.isDirectory && e.isReparsePoint {
      DirectoryIsDealtWith(index, false, root, events, e);
    }
  }

  /** A directory that is no junction is entered, and so is a junction that is to be followed. */
  lemma DirectoriesAreExpanded(index: Index, follow: bool, root: IndexEntry, events: seq<Event>, e: IndexEntry)
    requires Sound(index, follow, root, events) && Complete(index, follow, root, events) && FlagsByRecord(index, root)
    requires Reachable(index, follow, root, e) && e.isDirectory && (follow || !e.isReparsePoint)
    ensures exists v :: v in events && v.Expanded? && v.entry.number == e.number
    ensures follow ==> forall v :: v in events ==> !v.SkippedJunction?
  {
    DirectoryIsDealtWith(index, follow, root, events, e);
  }

  lemma DirectoryIsDealtWith(index: Index, follow: bool, root: IndexEntry, events: seq<Event>, e: IndexEntry)
    requires Sound(index, follow, root, events) && Complete(index, follow, root, events) && FlagsByRecord(index, root)
    requires Reachable(index, follow, root, e) && e.isDirectory
    ensures exists v :: v in events && !v.Handed? && v.entry.number == e.number &&
              v.entry.isReparsePoint == e.isReparsePoint
  {
    var i :| 0 <= i < |events| && DealsWith(events[i], e);
    ReachableIsInIndex(index, follow, root, e);
    ReachableIsInIndex(index, follow, root, events[i].entry);
    assert events[i] in events;
  }

  // ---- the report --------------------------------------------------------------------

  function CountSkipped(files: seq<Extracted>): nat {
    if files == [] then 0 else CountSkipped(files[..|files| - 1]) + if files[|files| - 1].Skipped? then 1 else 0
  }

  lemma {:induction false} CountSkippedConcat(a: seq<Extracted>, b: seq<Extracted>)
    ensures CountSkipped(a + b) == CountSkipped(a) + CountSkipped(b)
  {
    if b == [] {
      assert a + b == a;
    } else {
      CountSkippedConcat(a, b[..|b| - 1]);
      assert (a + b)[..|a + b| - 1] == a + b[..|b| - 1];
    }
  }

  function CountJunctions(events: seq<Event>): nat {
    if events == [] then 0
    else CountJunctions(events[..|events| - 1]) + if events[|events| - 1].SkippedJunction? then 1 else 0
  }

  function CountHanded(events: seq<Event>): nat {
    if events == [] then 0 else CountHanded(events[..|events| - 1]) + if events[|events| - 1].Handed? then 1 else 0
  }

  lemma {:induction false} EntriesCount(events: seq<Event>)
    ensures |Entries(events)| == CountHanded(events)
  {
    if events != [] {
      EntriesCount(events[..|events| - 1]);
    }
  }

  /** Where no copied file is itself reported as skipped, the report has one such line for each junction. */
  lemma {:induction false} OneLineAJunction(events: seq<Event>, copy: Copier)
    requires Report(events, copy).Success?
    requires forall n, e :: copy(n, e).Success? ==> Skipped !in copy(n, e).value
    ensures CountSkipped(Report(events, copy).value) == CountJunctions(events)
  {
    if events != [] {
      var init, last := events[..|events| - 1], events[|events| - 1];
      OneLineAJunction(init, copy);
      match last
      case Expanded(_) =>
      case SkippedJunction(_) => CountSkippedConcat(Report(init, copy).value, [Skipped]);
      case Handed(e) =>
        var now := copy(|Entries(init)|, e).value;
        CountSkippedConcat(Report(init, copy).value, now);
        NoneSkipped(now);
    }
  }

  lemma {:induction false} NoneSkipped(files: seq<Extracted>)
    requires Skipped !in files
    ensures CountSkipped(files) == 0
  {
    if files != [] {
      NoneSkipped(files[..|files| - 1]);
    }
  }

  /** Everything a copied file reported is in the report, one after the other. */
  lemma {:induction false} CopiesAreReported(events: seq<Event>, copy: Copier, i: nat) returns (at: nat)
    requires Report(events, copy).Success? && i < |events| && events[i].Handed?
    ensures var files, copied := Report(events, copy).value, copy(CountHanded(events[..i]), events[i].entry);
            && copied.Success? && at + |copied.value| <= |files|
            && files[at..at + |copied.value|] == copied.value
  {
    var init := events[..|events| - 1];
    if i < |init| {
      at := CopiesAreReported(init, copy, i);
      assert init[..i] == events[..i];
      var files, copied := Report(events, copy).value, copy(CountHanded(events[..i]), events[i].entry).value;
      assert Report(init, copy).value <= files;
      assert files[at..at + |copied|] == Report(init, copy).value[at..at + |copied|];
    } else {
      EntriesCount(init);
      assert events[..i] == init;
      at := |Report(init, copy).value|;
    }
  }

  // ---- files with several names --------------------------------------------------

  ghost predicate ReachableFile(index: Index, follow: bool, root: IndexEntry, e: IndexEntry) {
    Reachable(index, follow, root, e) && !e.isDirectory
  }

  ghost predicate EveryNameCopied(index: Index, follow: bool, root: IndexEntry, events: seq<Event>) {
    forall e :: ReachableFile(index, follow, root, e) ==> Handed(e) in events
  }

  /** No two reachable names of files coincide in both record and text. */
  ghost predicate NamesDiffer(index: Index, follow: bool, root: IndexEntry) {
    forall e, f :: ReachableFile(index, follow, root, e) && ReachableFile(index, follow, root, f) && SameName(e, f)
      ==> e == f
  }

  /**
   The source says a file with several names in the folder is several files to
   write. Two names of one record that read the same, in two folders, are told
   apart by neither number nor name, so only one of them is written. Every
   reachable name is written exactly when no two of them coincide that way.
   */
  lemma EveryNameIsCopiedIff(index: Index, follow: bool, root: IndexEntry, events: seq<Event>)
    requires Sound(index, follow, root, events) && Complete(index, follow, root, events)
    ensures EveryNameCopied(index, follow, root, events) <==> NamesDiffer(index, follow, root)
  {
  }

  const TWO_FOLDERS: Index :=
    map[5 := [IndexEntry(10, 5, "a", true, false), IndexEntry(11, 5, "b", true, false)],
        10 := [IndexEntry(20, 10, "x", false, false)],
        11 := [IndexEntry(20, 11, "x", false, false)]]

  /** One file linked as `a/x` and `b/x`: whatever the walk does, one of the two is not written. */
  lemma SameNameInTwoFoldersIsDropped(events: seq<Event>)
    requires var root := IndexEntry(5, 5, "", true, false);
             Sound(TWO_FOLDERS, false, root, events) && Complete(TWO_FOLDERS, false, root, events)
    ensures exists e :: ReachableFile(TWO_FOLDERS, false, IndexEntry(5, 5, "", true, false), e) && Handed(e) !in events
  {
    var root, a, b := IndexEntry(5, 5, "", true, false), TWO_FOLDERS[5][0], TWO_FOLDERS[5][1];
    RootIsReachable(TWO_FOLDERS, false, root);
    ChildIsReachable(TWO_FOLDERS, false, root, root, a);
    ChildIsReachable(TWO_FOLDERS, false, root, root, b);
    ChildIsReachable(TWO_FOLDERS, false, root, a, TWO_FOLDERS[10][0]);
    ChildIsReachable(TWO_FOLDERS, false, root, b, TWO_FOLDERS[11][0]);
    assert ReachableFile(TWO_FOLDERS, false, root, TWO_FOLDERS[10][0]);
    assert ReachableFile(TWO_FOLDERS, false, root, TWO_FOLDERS[11][0]);
    assert SameName(TWO_FOLDERS[10][0], TWO_FOLDERS[11][0]);
    EveryNameIsCopiedIff(TWO_FOLDERS, false, root, events);
  }
}
