/**
 Storing chunks concurrently (crates/mjolnir-image/src/store.rs).

 Any number of processes run any number of calls of `put` against one directory,
 step by step and interleaved at will, while sweeps remove temporary files, any
 process can be killed, and the power can fail. File contents become durable by
 the sync before the rename; renames become durable in the order they were issued.
 */
module StoreProtocol {
  import opened Arith
  import opened Store
  import opened TempNames

  // ---- the state -------------------------------------------------------------

  datatype TempFile = TempFile(content: Stored, synced: bool)

  /** Where one call of `put` has got to. */
  datatype Phase =
    | Hashed
    | Named(count: Count)
    | Writing(count: Count, stored: Stored)
    | Synced(count: Count, stored: Stored)
    | Succeeded
    | GaveUp

  datatype Writer = Writer(pid: Pid, data: Bytes, phase: Phase)

  datatype State = State(
    procs: map<Pid, Count>,
    writers: map<nat, Writer>,
    temps: map<TempName, TempFile>,
    renames: seq<(Digest, Stored)>)

  predicate HasTemp(w: Writer) {
    w.phase.Named? || w.phase.Writing? || w.phase.Synced?
  }

  function TempOf(codec: Codec, w: Writer): TempName
    requires HasTemp(w)
  {
    (codec.name(w.data), UniqueSuffix(w.pid, w.phase.count))
  }

  predicate Present(codec: Codec, s: State, data: Bytes) {
    var finals := Finals(s.renames);
    codec.name(data) in finals && |finals[codec.name(data)]| > 0
  }

  // ---- the steps -------------------------------------------------------------

  datatype Step =
    | StartProcess(pid: Pid)
    | BeginPut(id: nat, pid: Pid, data: Bytes)
    | FindPresent(id: nat)
    | TakeSuffix(id: nat)
    | CreateTemp(id: nat, nonce: nat)
    | WritePart(id: nat, reached: nat)
    | SyncTemp(id: nat)
    | Rename(id: nat)
    | Fail(id: nat)
    | Abandon(id: nat)
    | Sweep(temp: TempName)
    | Kill(pid: Pid)
    | PowerCut(durable: nat, torn: map<TempName, TempFile>)

  predicate Running(s: State, id: nat) {
    id in s.writers && s.writers[id].pid in s.procs
  }

  predicate Enabled(codec: Codec, known: iset<Bytes>, s: State, step: Step) {
    match step
    case StartProcess(pid) => pid !in s.procs
    case BeginPut(id, pid, data) => id !in s.writers && pid in s.procs && data in known && data != []
    case FindPresent(id) => Running(s, id) && s.writers[id].phase.Hashed? && Present(codec, s, s.writers[id].data)
    case TakeSuffix(id) =>
      Running(s, id) && s.writers[id].phase.Hashed? && !Present(codec, s, s.writers[id].data)
    case CreateTemp(id, nonce) => Running(s, id) && s.writers[id].phase.Named?
    case WritePart(id, reached) => Running(s,
        id) && s.writers[id].phase.Writing? && reached <= |s.writers[id].phase.stored|
    case SyncTemp(id) => Running(s, id) && s.writers[id].phase.Writing? && 0 < |s.writers[id].phase.stored| <= U64_MAX
    case Rename(id) => Running(s, id) && s.writers[id].phase.Synced? && TempOf(codec, s.writers[id]) in s.temps
    case Fail(id) => Running(s, id) && HasTemp(s.writers[id])
    case Abandon(id) => Running(s, id) && HasTemp(s.writers[id])
    case Sweep(temp) => temp in s.temps
    case Kill(pid) => pid in s.procs
    case PowerCut(durable, torn) => durable <= |s.renames|
  }

  function WithPhase(s: State, id: nat, phase: Phase): State
    requires id in s.writers
  {
    s.(writers := s.writers[id := s.writers[id].(phase := phase)])
  }

  /** Writing goes to the open file; after a sweep nothing under the name changes. */
  function OverwriteTemp(s: State, temp: TempName, file: TempFile): State {
    if temp in s.temps then s.(temps := s.temps[temp := file]) else s
  }

  function After(codec: Codec, known: iset<Bytes>, s: State, step: Step): State
    requires Enabled(codec, known, s, step)
  {
    match step
    case StartProcess(pid) => s.(procs := s.procs[pid := 0])
    case BeginPut(id, pid, data) => s.(writers := s.writers[id := Writer(pid, data, Hashed)])
    case FindPresent(id) => WithPhase(s, id, Succeeded)
    case TakeSuffix(id) =>
      var w := s.writers[id];
      WithPhase(s, id, Named(s.procs[w.pid])).(procs := s.procs[w.pid := NextCount(s.procs[w.pid])])
    case CreateTemp(id, nonce) =>
      var w := s.writers[id];
      WithPhase(s, id, Writing(w.phase.count, codec.encode(w.data, nonce)))
        .(temps := s.temps[TempOf(codec, w) := TempFile([], false)])
    case WritePart(id, reached) =>
      var w := s.writers[id];
      OverwriteTemp(s, TempOf(codec, w), TempFile(w.phase.stored[..reached], false))
    case SyncTemp(id) =>
      var w := s.writers[id];
      OverwriteTemp(WithPhase(s, id, Synced(w.phase.count, w.phase.stored)),
                    TempOf(codec, w), TempFile(w.phase.stored, true))
    case Rename(id) =>
      var temp := TempOf(codec, s.writers[id]);
      WithPhase(s, id, Succeeded)
        .(renames := s.renames + [(temp.0, s.temps[temp].content)], temps := s.temps - {temp})
    case Fail(id) => WithPhase(s, id, GaveUp).(temps := s.temps - {TempOf(codec, s.writers[id])})
    case Abandon(id) => WithPhase(s, id, GaveUp)
    case Sweep(temp) => s.(temps := s.temps - {temp})
    case Kill(pid) =>
      s.(procs := s.procs - {pid}, writers := map id | id in s.writers && s.writers[id].pid != pid :: s.writers[id])
    case PowerCut(durable, torn) =>
      State(map[], map[], torn, s.renames[..durable])
  }

  const INITIAL := State(map[], map[], map[], [])

  // ---- what every state keeps ------------------------------------------------

  predicate SameTicket(v: Writer, w: Writer) {
    HasTemp(v) && HasTemp(w) && v.pid == w.pid && v.phase.count == w.phase.count
  }

  /** No process has made more than `n` calls that went on to write. */
  ghost predicate CallsAtMost(s: State, n: nat) {
    forall p :: p in s.procs ==> s.procs[p] <= n
  }

  /** The call's counter value is its own within its process, and they have not run into those of others. */
  ghost predicate TicketsDistinct(s: State) {
    && (forall i :: i in s.writers ==> s.writers[i].pid in s.procs)
    && (forall i :: i in s.writers && HasTemp(s.writers[i]) ==>
          s.writers[i].phase.count < s.procs[s.writers[i].pid])
    && CallsAtMost(s, HALF)
    && (forall i, j :: i in s.writers && j in s.writers && i != j ==> !SameTicket(s.writers[i], s.writers[j]))
  }

  ghost predicate WriterOk(codec: Codec, known: iset<Bytes>, s: State, w: Writer) {
    && w.data in known
    && (w.phase.Writing? || w.phase.Synced? ==> codec.decode(w.phase.stored) == Some(w.data))
    && (w.phase.Synced? ==> 0 < |w.phase.stored| <= U64_MAX)
    && (w.phase.Synced? && TempOf(codec, w) in s.temps ==>
          s.temps[TempOf(codec, w)] == TempFile(w.phase.stored, true))
    && (w.phase.Succeeded? ==> codec.name(w.data) in Finals(s.renames))
  }

  ghost predicate RenamesOk(codec: Codec, known: iset<Bytes>, renames: seq<(Digest, Stored)>) {
    forall i :: 0 <= i < |renames| ==> GoodFile(codec, known, renames[i].0, renames[i].1)
  }

  ghost predicate Invariant(codec: Codec, known: iset<Bytes>, s: State) {
    && TicketsDistinct(s)
    && RenamesOk(codec, known, s.renames)
    && forall i :: i in s.writers ==> WriterOk(codec, known, s, s.writers[i])
  }

  /** No two live calls are ever about to write the same temporary file. */
  lemma LiveWritersNeverShareATemp(codec: Codec, s: State, i: nat, j: nat)
    requires TicketsDistinct(s) && i in s.writers && j in s.writers && i != j
    requires HasTemp(s.writers[i]) && HasTemp(s.writers[j])
    ensures TempOf(codec, s.writers[i]) != TempOf(codec, s.writers[j])
  {
    var v, w := s.writers[i], s.writers[j];
    if UniqueSuffix(v.pid, v.phase.count) == UniqueSuffix(w.pid, w.phase.count) {
      SuffixesDiffer(v.pid, v.phase.count, w.pid, w.phase.count);
    }
  }

  lemma {:induction false} FinalsAreGood(codec: Codec, known: iset<Bytes>, renames: seq<(Digest, Stored)>, h: Digest)
    requires RenamesOk(codec, known, renames) && h in Finals(renames)
    ensures GoodFile(codec, known, h, Finals(renames)[h])
  {
    FinalsComeFromRenames(renames, h);
    var i :| 0 <= i < |renames| && renames[i] == (h, Finals(renames)[h]);
  }

  // ---- every step keeps it -----------------------------------------------------

  lemma TakeSuffixKeeps(codec: Codec, known: iset<Bytes>, s: State, id: nat)
    requires Invariant(codec, known, s) && Enabled(codec, known, s, TakeSuffix(id))
    requires CallsAtMost(After(codec, known, s, TakeSuffix(id)), HALF)
    ensures Invariant(codec, known, After(codec, known, s, TakeSuffix(id)))
  {
  }

  /** Calls keep their own tickets when none is issued and no counter moves. */
  lemma TicketsKept(s: State, t: State)
    requires TicketsDistinct(s)
    requires forall p :: p in t.procs ==> p in s.procs && t.procs[p] == s.procs[p]
    requires forall i :: i in t.writers ==>
              i in s.writers && t.writers[i].pid == s.writers[i].pid && t.writers[i].pid in t.procs
    requires forall i :: i in t.writers && HasTemp(t.writers[i]) ==>
               HasTemp(s.writers[i]) && t.writers[i].phase.count == s.writers[i].phase.count
    ensures TicketsDistinct(t)
  {
  }

  /** A call stays right when the step neither touches its temporary file nor loses a chunk. */
  lemma WriterStaysOk(codec: Codec, known: iset<Bytes>, s: State, t: State, w: Writer)
    requires WriterOk(codec, known, s, w)
    requires codec.name(w.data) in Finals(s.renames) ==> codec.name(w.data) in Finals(t.renames)
    requires HasTemp(w) && TempOf(codec, w) in t.temps ==>
               TempOf(codec, w) in s.temps && t.temps[TempOf(codec, w)] == s.temps[TempOf(codec, w)]
    ensures WriterOk(codec, known, t, w)
  {
  }

  /** A step that touches one call and one temporary file it owns leaves the other calls right. */
  lemma OthersStayOk(codec: Codec, known: iset<Bytes>, s: State, t: State, id: nat)
    requires Invariant(codec, known, s) && id in s.writers && HasTemp(s.writers[id])
    requires t.writers.Keys == s.writers.Keys
    requires forall h :: h in Finals(s.renames) ==> h in Finals(t.renames)
    requires forall i :: i in s.writers && i != id ==> t.writers[i] == s.writers[i]
    requires forall n :: n != TempOf(codec, s.writers[id]) && n in t.temps ==> n in s.temps && t.temps[n] == s.temps[n]
    ensures forall i :: i in t.writers && i != id ==> WriterOk(codec, known, t, t.writers[i])
  {
    forall i | i in t.writers && i != id
      ensures WriterOk(codec, known, t, t.writers[i])
    {
      if HasTemp(s.writers[i]) {
        LiveWritersNeverShareATemp(codec, s, i, id);
      }
      WriterStaysOk(codec, known, s, t, s.writers[i]);
    }
  }

  /** Putting the parts together for a step on one call and its own temporary file. */
  lemma OneCallKeeps(codec: Codec, known: iset<Bytes>, s: State, t: State, id: nat, w: Writer)
    requires Invariant(codec, known, s) && id in s.writers && HasTemp(s.writers[id])
    requires t.procs == s.procs && t.writers == s.writers[id := w] && w.pid == s.writers[id].pid
    requires HasTemp(w) ==> w.phase.count == s.writers[id].phase.count
    requires RenamesOk(codec, known, t.renames)
    requires forall h :: h in Finals(s.renames) ==> h in Finals(t.renames)
    requires forall n :: n != TempOf(codec, s.writers[id]) && n in t.temps ==> n in s.temps && t.temps[n] == s.temps[n]
    requires WriterOk(codec, known, t, w)
    ensures Invariant(codec, known, t)
  {
    TicketsKept(s, t);
    OthersStayOk(codec, known, s, t, id);
  }

  lemma OwnTempStepsKeep(codec: Codec, known: iset<Bytes>, s: State, step: Step, id: nat)
    requires Lawful(codec, known) && Invariant(codec, known, s) && Enabled(codec, known, s, step)
    requires step.CreateTemp? || step.WritePart? || step.SyncTemp? || step.Fail? || step.Abandon?
    requires step.id == id
    ensures Invariant(codec, known, After(codec, known, s, step))
  {
    var t := After(codec, known, s, step);
    assert WriterOk(codec, known, s, s.writers[id]);
    OneCallKeeps(codec, known, s, t, id, t.writers[id]);
  }

  /** The rename publishes exactly the bytes that were synced, under their own name. */
  lemma RenameKeeps(codec: Codec, known: iset<Bytes>, s: State, id: nat)
    requires Invariant(codec, known, s) && Enabled(codec, known, s, Rename(id))
    ensures Invariant(codec, known, After(codec, known, s, Rename(id)))
  {
  }

  lemma QuietStepKeeps(codec: Codec, known: iset<Bytes>, s: State, step: Step)
    requires Invariant(codec, known, s) && Enabled(codec, known, s, step)
    requires step.FindPresent? || step.Sweep?
    ensures Invariant(codec, known, After(codec, known, s, step))
  {
    var t := After(codec, known, s, step);
    TicketsKept(s, t);
    forall i | i in t.writers
      ensures WriterOk(codec, known, t, t.writers[i])
    {
      WriterStaysOk(codec, known, s, t, s.writers[i]);
    }
  }

  /** A power cut leaves nobody at work. */
  lemma PowerCutKeeps(codec: Codec, known: iset<Bytes>, s: State, step: Step)
    requires Invariant(codec, known, s) && Enabled(codec, known, s, step) && step.PowerCut?
    ensures Invariant(codec, known, After(codec, known, s, step))
  {
    FirstRenamesOk(codec, known, s.renames, step.durable);
    NobodyIsAtWork(codec, known, After(codec, known, s, step));
  }

  lemma FirstRenamesOk(codec: Codec, known: iset<Bytes>, renames: seq<(Digest, Stored)>, n: nat)
    requires RenamesOk(codec, known, renames) && n <= |renames|
    ensures RenamesOk(codec, known, renames[..n])
  {
  }

  lemma NobodyIsAtWork(codec: Codec, known: iset<Bytes>, s: State)
    requires s.procs == map[] && s.writers == map[] && RenamesOk(codec, known, s.renames)
    ensures Invariant(codec, known, s)
  {
  }

  lemma KillKeeps(codec: Codec, known: iset<Bytes>, s: State, step: Step)
    requires Invariant(codec, known, s) && Enabled(codec, known, s, step) && step.Kill?
    ensures Invariant(codec, known, After(codec, known, s, step))
  {
    var t := After(codec, known, s, step);
    TicketsKept(s, t);
    forall i | i in t.writers
      ensures WriterOk(codec, known, t, t.writers[i])
    {
      WriterStaysOk(codec, known, s, t, s.writers[i]);
    }
  }

  lemma StartingStepsKeep(codec: Codec, known: iset<Bytes>, s: State, step: Step)
    requires Invariant(codec, known, s) && Enabled(codec, known, s, step)
    requires step.StartProcess? || step.BeginPut?
    ensures Invariant(codec, known, After(codec, known, s, step))
  {
  }

  lemma StepKeepsInvariant(codec: Codec, known: iset<Bytes>, s: State, step: Step)
    requires Lawful(codec, known) && Invariant(codec, known, s) && Enabled(codec, known, s, step)
    requires CallsAtMost(After(codec, known, s, step), HALF)
    ensures Invariant(codec, known, After(codec, known, s, step))
  {
    match step
    case TakeSuffix(id) => TakeSuffixKeeps(codec, known, s, id);
    case CreateTemp(id, nonce) => OwnTempStepsKeep(codec, known, s, step, id);
    case WritePart(id, reached) => OwnTempStepsKeep(codec, known, s, step, id);
    case SyncTemp(id) => OwnTempStepsKeep(codec, known, s, step, id);
    case Fail(id) => OwnTempStepsKeep(codec, known, s, step, id);
    case Abandon(id) => OwnTempStepsKeep(codec, known, s, step, id);
    case Rename(id) => RenameKeeps(codec, known, s, id);
    case StartProcess(pid) => StartingStepsKeep(codec, known, s, step);
    case BeginPut(id, pid, data) => StartingStepsKeep(codec, known, s, step);
    case Kill(pid) => KillKeeps(codec, known, s, step);
    case PowerCut(durable, torn) => PowerCutKeeps(codec, known, s, step);
    case _ => QuietStepKeeps(codec, known, s, step);
  }

  // ---- whole runs ----------------------------------------------------------------

  /** A run is a list of steps, each enabled where it happens; no process makes more than `n` calls. */
  ghost predicate IsRun(codec: Codec, known: iset<Bytes>, n: nat, steps: seq<Step>, s: State) {
    if steps == [] then s == INITIAL
    else
      var last := steps[|steps| - 1];
      exists before :: IsRun(codec, known, n, steps[..|steps| - 1], before) && IsStep(codec, known, n, before, last, s)
  }

  ghost predicate IsStep(codec: Codec, known: iset<Bytes>, n: nat, s: State, step: Step, t: State) {
    Enabled(codec, known, s, step) && t == After(codec, known, s, step) && CallsAtMost(t, n)
  }

  lemma {:induction false} RunsKeepInvariant(codec: Codec, known: iset<Bytes>, n: nat, steps: seq<Step>, s: State)
    requires Lawful(codec, known) && IsRun(codec, known, n, steps, s) && n <= HALF
    ensures Invariant(codec, known, s)
  {
    if steps != [] {
      var last := steps[|steps| - 1];
      var before :| IsRun(codec, known, n, steps[..|steps| - 1], before) && IsStep(codec, known, n, before, last, s);
      RunsKeepInvariant(codec, known, n, steps[..|steps| - 1], before);
      StepKeepsInvariant(codec, known, before, last);
    }
  }

  /** Every file under a final name decodes to bytes with that name. */
  ghost predicate FilesGood(codec: Codec, known: iset<Bytes>, s: State) {
    forall h :: h in Finals(s.renames) ==> GoodFile(codec, known, h, Finals(s.renames)[h])
  }

  /**
   Whatever is interleaved, killed, swept or cut, as long as no process makes more than
   2^32 calls: every file under a final name
   decodes to bytes with that name, a call that reported success has its chunk
   there, and no two live calls share a temporary name.
   */
  lemma EveryRunIsSafe(codec: Codec, known: iset<Bytes>, n: nat, steps: seq<Step>, s: State)
    requires Lawful(codec, known) && IsRun(codec, known, n, steps, s) && n <= HALF
    ensures FilesGood(codec, known, s)
    ensures forall i :: i in s.writers && s.writers[i].phase.Succeeded? ==>
              var h := codec.name(s.writers[i].data);
              h in Finals(s.renames) && codec.decode(Finals(s.renames)[h]) == Some(s.writers[i].data)
    ensures forall i, j :: i in s.writers && j in s.writers && i != j ==>
              HasTemp(s.writers[i]) && HasTemp(s.writers[j]) ==>
              TempOf(codec, s.writers[i]) != TempOf(codec, s.writers[j])
  {
    RunsKeepInvariant(codec, known, n, steps, s);
    forall h | h in Finals(s.renames)
      ensures GoodFile(codec, known, h, Finals(s.renames)[h])
    {
      FinalsAreGood(codec, known, s.renames, h);
    }
    forall i | i in s.writers && s.writers[i].phase.Succeeded?
      ensures var h := codec.name(s.writers[i].data);
              h in Finals(s.renames) && codec.decode(Finals(s.renames)[h]) == Some(s.writers[i].data)
    {
      assert WriterOk(codec, known, s, s.writers[i]);
    }
    forall i, j | i in s.writers && j in s.writers && i != j && HasTemp(s.writers[i]) && HasTemp(s.writers[j])
      ensures TempOf(codec, s.writers[i]) != TempOf(codec, s.writers[j])
    {
      LiveWritersNeverShareATemp(codec, s, i, j);
    }
  }

  /** Without a power cut, a chunk once stored stays, whatever else happens. */
  lemma StoredChunksStay(codec: Codec, known: iset<Bytes>, s: State, step: Step, h: Digest)
    requires Enabled(codec, known, s, step) && !step.PowerCut? && h in Finals(s.renames)
    ensures h in Finals(After(codec, known, s, step).renames)
  {
  }

  function StepsOfPut(id: nat, pid: Pid, data: Bytes, nonce: nat): seq<Step> {
    [BeginPut(id, pid, data), TakeSuffix(id), CreateTemp(id, nonce), SyncTemp(id), Rename(id)]
  }

  /** Whether the steps are enabled one after another from `s`, ending in `t`. */
  ghost predicate Leads(codec: Codec, known: iset<Bytes>, s: State, steps: seq<Step>, t: State)
    decreases |steps|
  {
    if steps == [] then s == t
    else Enabled(codec, known, s, steps[0]) && Leads(codec, known, After(codec, known, s, steps[0]), steps[1..], t)
  }

  lemma LeadsOneMore(codec: Codec, known: iset<Bytes>, s: State, step: Step, rest: seq<Step>, t: State)
    requires Enabled(codec, known, s, step) && Leads(codec, known, After(codec, known, s, step), rest, t)
    ensures Leads(codec, known, s, [step] + rest, t)
  {
  }

  /** The state once the call has its temporary file open, and once it is synced. */
  function Opened(codec: Codec, s: State, id: nat, pid: Pid, data: Bytes, stored: Stored, synced: bool): State
    requires pid in s.procs
  {
    var count := s.procs[pid];
    State(s.procs[pid := NextCount(count)],
          s.writers[id := Writer(pid, data, if synced then Synced(count, stored) else Writing(count, stored))],
          s.temps[(codec.name(data), UniqueSuffix(pid, count)) := if synced then
              TempFile(stored, true) else TempFile([], false)],
          s.renames)
  }

  lemma OpensUndisturbed(codec: Codec, known: iset<Bytes>, s: State, id: nat, pid: Pid, data: Bytes, nonce: nat)
    requires pid in s.procs && id !in s.writers
    requires data in known && data != [] && !Present(codec, s, data)
    ensures Leads(codec, known, s, StepsOfPut(id, pid, data, nonce)[..3],
                  Opened(codec, s, id, pid, data, codec.encode(data, nonce), false))
  {
    var t := Opened(codec, s, id, pid, data, codec.encode(data, nonce), false);
    var s1 := s.(writers := s.writers[id := Writer(pid, data, Hashed)]);
    var s2 := State(s.procs[pid := NextCount(s.procs[pid])], s.writers[id := Writer(pid, data, Named(s.procs[pid]))],
                    s.temps, s.renames);
    assert After(codec, known, s1, TakeSuffix(id)) == s2;
    assert After(codec, known, s2, CreateTemp(id, nonce)) == t;
    LeadsOneMore(codec, known, s2, CreateTemp(id, nonce), [], t);
    LeadsOneMore(codec, known, s1, TakeSuffix(id), [CreateTemp(id, nonce)], t);
    LeadsOneMore(codec, known, s, BeginPut(id, pid, data), [TakeSuffix(id), CreateTemp(id, nonce)], t);
    assert StepsOfPut(id, pid, data, nonce)[..3] == [BeginPut(id, pid, data)] + [TakeSuffix(id), CreateTemp(id, nonce)];
  }

  lemma {:induction false} LeadsConcat(codec: Codec, known: iset<Bytes>, s: State, a: seq<Step>, m: State,
      b: seq<Step>, t: State)
    requires Leads(codec, known, s, a, m) && Leads(codec, known, m, b, t)
    ensures Leads(codec, known, s, a + b, t)
    decreases |a|
  {
    if a == [] {
      assert a + b == b;
    } else {
      LeadsConcat(codec, known, After(codec, known, s, a[0]), a[1..], m, b, t);
      assert (a + b)[1..] == a[1..] + b;
    }
  }

  /** The state once the synced file has been renamed. */
  function Renamed(codec: Codec, s: State, id: nat, pid: Pid, data: Bytes, stored: Stored): State
    requires pid in s.procs
  {
    State(s.procs[pid := NextCount(s.procs[pid])], s.writers[id := Writer(pid, data, Succeeded)],
          s.temps - {(codec.name(data), UniqueSuffix(pid, s.procs[pid]))}, s.renames + [(codec.name(data), stored)])
  }

  lemma RenamesUndisturbed(codec: Codec, known: iset<Bytes>, s: State, id: nat, pid: Pid, data: Bytes, stored: Stored)
    requires pid in s.procs
    requires 0 < |stored| <= U64_MAX
    ensures Leads(codec, known, Opened(codec, s, id, pid, data, stored, false), [SyncTemp(id), Rename(id)],
                  Renamed(codec, s, id, pid, data, stored))
  {
  }

  /** Undisturbed, the steps of one call run to the end, publish the encoded chunk and leave no temporary file. */
  lemma UndisturbedPutStores(codec: Codec, known: iset<Bytes>, s: State, id: nat, pid: Pid, data: Bytes, nonce: nat)
    returns (t: State)
    requires pid in s.procs && id !in s.writers
    requires data in known && data != [] && !Present(codec, s, data)
    requires 0 < |codec.encode(data, nonce)| <= U64_MAX
    ensures Leads(codec, known, s, StepsOfPut(id, pid, data, nonce), t)
    ensures t == Renamed(codec, s, id, pid, data, codec.encode(data, nonce))
    ensures Finals(t.renames) == Finals(s.renames)[codec.name(data) := codec.encode(data, nonce)]
  {
    var stored, steps := codec.encode(data, nonce), StepsOfPut(id, pid, data, nonce);
    t := Renamed(codec, s, id, pid, data, stored);
    OpensUndisturbed(codec, known, s, id, pid, data, nonce);
    RenamesUndisturbed(codec, known, s, id, pid, data, stored);
    LeadsConcat(codec, known, s, steps[..3], Opened(codec, s, id, pid, data, stored, false),
                [SyncTemp(id), Rename(id)], t);
    assert steps == steps[..3] + [SyncTemp(id), Rename(id)];
    FinalsGrow(s.renames, (codec.name(data), stored));
  }

  // ---- what a call of put does are steps of the protocol ------------------------------

  /** The protocol's state is what is to be seen of a store in which process `pid` is running. */
  ghost predicate Describes(s: State, pid: Pid, view: StoreView) {
    && pid in s.procs && s.procs[pid] == view.count && s.renames == view.renames
    && s.temps.Keys == view.temps.Keys && forall t :: t in s.temps ==> s.temps[t].content == view.temps[t]
  }

  /** Steps of call `id` lead from `s` to `t`. */
  ghost predicate CallLeads(codec: Codec, known: iset<Bytes>, s: State, id: nat, steps: seq<Step>, t: State) {
    && Leads(codec, known, s, steps, t)
    && forall i :: i in s.writers ==> i in t.writers && t.writers[i] == s.writers[i]
  }

  /** A call that has taken its suffix and stops there, with or without clearing its temporary file away. */
  lemma StopsEarly(codec: Codec, known: iset<Bytes>, s: State, id: nat, pid: Pid, data: Bytes, clears: bool)
    returns (steps: seq<Step>, t: State)
    requires pid in s.procs && id !in s.writers
    requires data in known && data != [] && !Present(codec, s, data)
    ensures CallLeads(codec, known, s, id, steps, t) && t.renames == s.renames
    ensures t.procs == s.procs[pid := NextCount(s.procs[pid])]
    ensures t.temps == if clears then s.temps - {(codec.name(data), UniqueSuffix(pid, s.procs[pid]))} else s.temps
  {
    var s1 := s.(writers := s.writers[id := Writer(pid, data, Hashed)]);
    var s2 := State(s.procs[pid := NextCount(s.procs[pid])], s.writers[id := Writer(pid, data, Named(s.procs[pid]))],
                    s.temps, s.renames);
    var last := if clears then Fail(id) else Abandon(id);
    assert After(codec, known, s1, TakeSuffix(id)) == s2;
    t := After(codec, known, s2, last);
    LeadsOneMore(codec, known, s2, last, [], t);
    LeadsOneMore(codec, known, s1, TakeSuffix(id), [last], t);
    LeadsOneMore(codec, known, s, BeginPut(id, pid, data), [TakeSuffix(id)] + [last], t);
    steps := [BeginPut(id, pid, data)] + ([TakeSuffix(id)] + [last]);
  }

  /** A call that has created its temporary file stops after writing part of it. */
  lemma WritesPart(codec: Codec, known: iset<Bytes>, s: State, id: nat, pid: Pid, data: Bytes, stored: Stored,
      reached: nat) returns (t: State)
    requires pid in s.procs && reached <= |stored|
    ensures Leads(codec, known, Opened(codec, s, id, pid, data, stored, false),
                  [WritePart(id, reached)] + [Abandon(id)], t)
    ensures t.writers == s.writers[id := Writer(pid, data, GaveUp)] && t.renames == s.renames
    ensures t.procs == s.procs[pid := NextCount(s.procs[pid])]
    ensures t.temps ==
            s.temps[(codec.name(data), UniqueSuffix(pid, s.procs[pid])) := TempFile(stored[..reached], false)]
  {
    var created := Opened(codec, s, id, pid, data, stored, false);
    var written := After(codec, known, created, WritePart(id, reached));
    t := After(codec, known, written, Abandon(id));
    LeadsOneMore(codec, known, written, Abandon(id), [], t);
    LeadsOneMore(codec, known, created, WritePart(id, reached), [Abandon(id)], t);
  }

  /** A call that stops after writing part of its temporary file. */
  lemma StopsInTheMiddle(codec: Codec, known: iset<Bytes>, s: State, id: nat, pid: Pid, data: Bytes, nonce: nat,
      reached: nat) returns (steps: seq<Step>, t: State)
    requires pid in s.procs && id !in s.writers
    requires data in known && data != [] && !Present(codec, s, data) && reached <= |codec.encode(data, nonce)|
    ensures CallLeads(codec, known, s, id, steps, t) && t.renames == s.renames
    ensures t.procs == s.procs[pid := NextCount(s.procs[pid])]
    ensures t.temps == s.temps[(codec.name(data), UniqueSuffix(pid, s.procs[pid])) :=
              TempFile(codec.encode(data, nonce)[..reached], false)]
  {
    var stored := codec.encode(data, nonce);
    OpensUndisturbed(codec, known, s, id, pid, data, nonce);
    t := WritesPart(codec, known, s, id, pid, data, stored, reached);
    LeadsConcat(codec, known, s, StepsOfPut(id, pid, data, nonce)[..3],
                Opened(codec, s, id, pid, data, stored, false), [WritePart(id, reached)] + [Abandon(id)], t);
    steps := StepsOfPut(id, pid, data, nonce)[..3] + ([WritePart(id, reached)] + [Abandon(id)]);
  }

  lemma FindsPresent(codec: Codec, known: iset<Bytes>, s: State, id: nat, pid: Pid, data: Bytes)
    returns (steps: seq<Step>, t: State)
    requires pid in s.procs && id !in s.writers && data in known && data != [] && Present(codec, s, data)
    ensures CallLeads(codec, known, s, id, steps, t)
    ensures t == s.(writers := s.writers[id := Writer(pid, data, Succeeded)])
  {
    var s1 := s.(writers := s.writers[id := Writer(pid, data, Hashed)]);
    t := s.(writers := s.writers[id := Writer(pid, data, Succeeded)]);
    assert After(codec, known, s1, FindPresent(id)) == t;
    LeadsOneMore(codec, known, s1, FindPresent(id), [], t);
    LeadsOneMore(codec, known, s, BeginPut(id, pid, data), [FindPresent(id)], t);
    steps := [BeginPut(id, pid, data)] + [FindPresent(id)];
  }

  lemma StopsAsLeft(codec: Codec, known: iset<Bytes>, s: State, id: nat, pid: Pid, data: Bytes, before: StoreView,
      after: StoreView) returns (steps: seq<Step>, t: State)
    requires Describes(s, pid, before) && id !in s.writers && data in known && data != [] && !Present(codec, s, data)
    requires after.renames == before.renames && after.count == NextCount(before.count)
    requires LeftBehind(codec, data, (codec.name(data), UniqueSuffix(pid, before.count)), before.temps, after.temps)
    ensures CallLeads(codec, known, s, id, steps, t) && Describes(t, pid, after)
  {
    var temp := (codec.name(data), UniqueSuffix(pid, before.count));
    if after.temps == before.temps {
      steps, t := StopsEarly(codec, known, s, id, pid, data, false);
    } else if after.temps == before.temps - {temp} {
      steps, t := StopsEarly(codec, known, s, id, pid, data, true);
    } else {
      var nonce: nat, reached: nat :| IsPartial(codec, data, temp, before.temps, after.temps, nonce, reached);
      steps, t := StopsInTheMiddle(codec, known, s, id, pid, data, nonce, reached);
    }
  }

  /**
   Whatever a call of `put` does to a store, and however it ends, is a sequence of
   steps of the protocol by which no other call is touched; a call that succeeds is one
   that has succeeded there.
   */
  lemma PutIsSteps(codec: Codec, known: iset<Bytes>, s: State, id: nat, pid: Pid, data: Bytes, before: StoreView,
      after: StoreView, r: Result<PutOutcome, StoreError>) returns (steps: seq<Step>, t: State)
    requires Describes(s, pid, before) && id !in s.writers && data in known
    requires RenamesOk(codec, known, before.renames) && PutDid(codec, pid, data, before, after, r)
    ensures CallLeads(codec, known, s, id, steps, t) && Describes(t, pid, after)
    ensures r.Success? ==> id in t.writers && t.writers[id] == Writer(pid, data, Succeeded)
  {
    steps, t := [], s;
    if codec.name(data) in Finals(before.renames) {
      if r.Success? {
        FinalsAreGood(codec, known, before.renames, codec.name(data));
        steps, t := FindsPresent(codec, known, s, id, pid, data);
      }
    } else if r.Success? {
      var temp := (codec.name(data), UniqueSuffix(pid, before.count));
      var nonce: nat :| PublishedAs(codec, data, temp, before, after, nonce);
      t := UndisturbedPutStores(codec, known, s, id, pid, data, nonce);
      steps := StepsOfPut(id, pid, data, nonce);
    } else if after != before {
      steps, t := StopsAsLeft(codec, known, s, id, pid, data, before, after);
    }
  }

  // ---- past 2^32 calls of one process ----------------------------------------------

  lemma RunOneMore(codec: Codec, known: iset<Bytes>, n: nat, steps: seq<Step>, s: State, step: Step, t: State)
    requires IsRun(codec, known, n, steps, s) && IsStep(codec, known, n, s, step, t)
    ensures IsRun(codec, known, n, steps + [step], t)
  {
    var more := steps + [step];
    assert more[..|more| - 1] == steps && more[|more| - 1] == step;
    assert IsRun(codec, known, n, more[..|more| - 1], s) && IsStep(codec, known, n, s, more[|more| - 1], t);
  }

  /** Process 6 has made `k` calls, none of which could create its file. */
  ghost predicate IsIdle(s: State, k: Count) {
    s.procs == map[6 := k] && s.temps == map[] && s.renames == [] && forall i :: i in s.writers ==> i < k
  }

  /** Process 6 in its next call. */
  function SixAt(s: State, k: Count, data: Bytes, phase: Phase, count: Count): State {
    State(map[6 := count], s.writers[k := Writer(6, data, phase)], map[], [])
  }

  lemma IdleSteps(codec: Codec, known: iset<Bytes>, n: nat, data: Bytes, k: Count, s: State)
    requires data in known && data != [] && k < n <= U64_MAX && IsIdle(s, k)
    ensures IsStep(codec, known, n, s, BeginPut(k, 6, data), SixAt(s, k, data, Hashed, k))
    ensures IsStep(codec, known, n, SixAt(s, k, data, Hashed, k), TakeSuffix(k), SixAt(s, k, data, Named(k), k + 1))
    ensures IsStep(codec, known, n, SixAt(s, k, data, Named(k), k + 1), Fail(k), SixAt(s, k, data, GaveUp, k + 1))
  {
    assert After(codec, known, SixAt(s, k, data, Hashed, k), TakeSuffix(k)) == SixAt(s, k, data, Named(k), k + 1);
    assert After(codec, known, SixAt(s, k, data, Named(k), k + 1), Fail(k)) == SixAt(s, k, data, GaveUp, k + 1);
  }

  /** One more such call. */
  lemma IdleOnce(codec: Codec, known: iset<Bytes>, n: nat, data: Bytes, k: Count, steps: seq<Step>, s: State)
    returns (more: seq<Step>, t: State)
    requires data in known && data != [] && k < n <= U64_MAX && IsRun(codec, known, n, steps, s) && IsIdle(s, k)
    ensures IsRun(codec, known, n, more, t) && IsIdle(t, k + 1)
  {
    IdleSteps(codec, known, n, data, k, s);
    t := SixAt(s, k, data, GaveUp, k + 1);
    more := RunThreeMore(codec, known, n, steps, s, BeginPut(k, 6, data), SixAt(s, k, data, Hashed, k),
      TakeSuffix(k), SixAt(s, k, data, Named(k), k + 1), Fail(k), t);
  }

  lemma RunThreeMore(codec: Codec, known: iset<Bytes>, n: nat, steps: seq<Step>, s: State,
      first: Step, s1: State, second: Step, s2: State, third: Step, s3: State)
    returns (more: seq<Step>)
    requires IsRun(codec, known, n, steps, s) && IsStep(codec, known, n, s, first, s1)
    requires IsStep(codec, known, n, s1, second, s2) && IsStep(codec, known, n, s2, third, s3)
    ensures IsRun(codec, known, n, more, s3)
  {
    RunOneMore(codec, known, n, steps, s, first, s1);
    RunOneMore(codec, known, n, steps + [first], s1, second, s2);
    RunOneMore(codec, known, n, (steps + [first]) + [second], s2, third, s3);
    more := ((steps + [first]) + [second]) + [third];
  }

  lemma SixStarts(codec: Codec, known: iset<Bytes>, n: nat) returns (steps: seq<Step>, s: State)
    ensures IsRun(codec, known, n, steps, s) && IsIdle(s, 0)
  {
    steps, s := [] + [StartProcess(6)], State(map[6 := 0], map[], map[], []);
    RunOneMore(codec, known, n, [], INITIAL, StartProcess(6), s);
  }

  lemma {:induction false} IdleIsReached(codec: Codec, known: iset<Bytes>, n: nat, data: Bytes, k: Count)
    returns (steps: seq<Step>, s: State)
    requires data in known && data != [] && k <= n <= U64_MAX
    ensures IsRun(codec, known, n, steps, s) && IsIdle(s, k)
    decreases k
  {
    if k == 0 {
      steps, s := SixStarts(codec, known, n);
    } else {
      steps, s := IdleIsReached(codec, known, n, data, k - 1);
      steps, s := IdleOnce(codec, known, n, data, k - 1, steps, s);
    }
  }

  /** Processes 6 and 7 at work on the same chunk, in these phases. */
  function Clash(s: State, data: Bytes, six: Phase, seven: Phase, count: Count, temps: map<TempName, TempFile>): State {
    State(map[6 := count, 7 := if seven.Hashed? then 0 else 1],
          s.writers[HALF := Writer(6, data, six)][HALF + 1 := Writer(7, data, seven)], temps, [])
  }

  /** The file both of them call theirs. */
  function ClashTemp(codec: Codec, data: Bytes, file: TempFile): map<TempName, TempFile> {
    map[(codec.name(data), UniqueSuffix(7, 0)) := file]
  }

  lemma BothBegin(codec: Codec, known: iset<Bytes>, n: nat, data: Bytes, s: State) returns (s1: State, s2: State)
    requires data in known && data != [] && HALF < n && IsIdle(s, HALF)
    ensures IsStep(codec, known, n, s, StartProcess(7), s1)
    ensures IsStep(codec, known, n, s1, BeginPut(HALF, 6, data), s2)
    ensures IsStep(codec, known, n, s2, BeginPut(HALF + 1, 7, data), Clash(s, data, Hashed, Hashed, HALF, map[]))
  {
    s1 := State(map[6 := HALF, 7 := 0], s.writers, map[], []);
    s2 := s1.(writers := s.writers[HALF := Writer(6, data, Hashed)]);
  }

  /** Both choose their suffix, and it is the same. */
  lemma SixChooses(codec: Codec, known: iset<Bytes>, n: nat, data: Bytes, s: State)
    requires HALF < n
    ensures IsStep(codec, known, n, Clash(s, data, Hashed, Hashed, HALF, map[]), TakeSuffix(HALF),
                   Clash(s, data, Named(HALF), Hashed, HALF + 1, map[]))
  {
    assert After(codec, known, Clash(s, data, Hashed, Hashed, HALF, map[]), TakeSuffix(HALF)) ==
           Clash(s, data, Named(HALF), Hashed, HALF + 1, map[]);
  }

  lemma SevenChooses(codec: Codec, known: iset<Bytes>, n: nat, data: Bytes, s: State)
    requires HALF < n
    ensures IsStep(codec, known, n, Clash(s, data, Named(HALF), Hashed, HALF + 1, map[]), TakeSuffix(HALF + 1),
                   Clash(s, data, Named(HALF), Named(0), HALF + 1, map[]))
  {
    assert After(codec, known, Clash(s, data, Named(HALF), Hashed, HALF + 1, map[]), TakeSuffix(HALF + 1)) ==
           Clash(s, data, Named(HALF), Named(0), HALF + 1, map[]);
  }

  lemma SixCreates(codec: Codec, known: iset<Bytes>, n: nat, data: Bytes, s: State)
    requires HALF < n
    ensures IsStep(codec, known, n, Clash(s, data, Named(HALF), Named(0), HALF + 1, map[]), CreateTemp(HALF, 0),
                   Clash(s, data, Writing(HALF, codec.encode(data, 0)), Named(0), HALF + 1,
                         ClashTemp(codec, data, TempFile([], false))))
  {
    LongRunningProcessesClash();
  }

  lemma UpdateEarlier<T, U>(m: map<T, U>, k: T, v: U, w: U, l: T, x: U)
    requires k != l
    ensures m[k := v][l := x][k := w] == m[k := w][l := x]
  {
  }

  lemma SyncsOwn(codec: Codec, known: iset<Bytes>, s: State, id: nat, w: Writer)
    requires Running(s, id) && s.writers[id] == w && w.phase.Writing? && 0 < |w.phase.stored| <= U64_MAX
    requires TempOf(codec, w) in s.temps
    ensures Enabled(codec, known, s, SyncTemp(id))
    ensures After(codec, known, s, SyncTemp(id)) ==
            State(s.procs, s.writers[id := w.(phase := Synced(w.phase.count, w.phase.stored))],
                  s.temps[TempOf(codec, w) := TempFile(w.phase.stored, true)], s.renames)
  {
  }

  lemma SixSyncs(codec: Codec, known: iset<Bytes>, n: nat, data: Bytes, s: State)
    requires HALF < n && 0 < |codec.encode(data, 0)| <= U64_MAX
    ensures var stored := codec.encode(data, 0);
            IsStep(codec, known, n,
                   Clash(s, data, Writing(HALF, stored), Named(0), HALF + 1,
                         ClashTemp(codec, data, TempFile([], false))),
                   SyncTemp(HALF),
                   Clash(s, data, Synced(HALF, stored), Named(0), HALF + 1,
                         ClashTemp(codec, data, TempFile(stored, true))))
  {
    LongRunningProcessesClash();
    var stored := codec.encode(data, 0);
    var created := Clash(s, data, Writing(HALF, stored), Named(0), HALF + 1,
      ClashTemp(codec, data, TempFile([], false)));
    SyncsOwn(codec, known, created, HALF, Writer(6, data, Writing(HALF, stored)));
    UpdateEarlier(s.writers, HALF, Writer(6, data, Writing(HALF, stored)), Writer(6, data, Synced(HALF, stored)),
                  HALF + 1, Writer(7, data, Named(0)));
  }

  /** Process 7 truncates the file. */
  lemma SevenCreates(codec: Codec, known: iset<Bytes>, n: nat, data: Bytes, s: State)
    requires HALF < n
    ensures var stored := codec.encode(data, 0);
            IsStep(codec, known, n,
                   Clash(s, data, Synced(HALF, stored), Named(0), HALF + 1,
                         ClashTemp(codec, data, TempFile(stored, true))),
                   CreateTemp(HALF + 1, 0),
                   Clash(s, data, Synced(HALF, stored), Writing(0, stored), HALF + 1,
                         ClashTemp(codec, data, TempFile([], false))))
  {
  }

  /** And process 6 publishes it. */
  lemma SixPublishes(codec: Codec, known: iset<Bytes>, n: nat, data: Bytes, s: State) returns (t: State)
    requires HALF < n
    ensures var stored := codec.encode(data, 0);
            IsStep(codec, known, n,
                   Clash(s, data, Synced(HALF, stored), Writing(0, stored), HALF + 1,
                         ClashTemp(codec, data, TempFile([], false))),
                   Rename(HALF), t)
    ensures t.renames == [(codec.name(data), [])]
  {
    LongRunningProcessesClash();
    var stored := codec.encode(data, 0);
    t := After(codec, known, Clash(s, data, Synced(HALF, stored), Writing(0, stored), HALF + 1,
                                   ClashTemp(codec, data, TempFile([], false))), Rename(HALF));
  }

  lemma ClashIsReached(codec: Codec, known: iset<Bytes>, n: nat, data: Bytes, steps: seq<Step>, s: State)
    returns (more: seq<Step>)
    requires data in known && data != [] && HALF < n && IsRun(codec, known, n, steps, s) && IsIdle(s, HALF)
    ensures IsRun(codec, known, n, more, Clash(s, data, Writing(HALF, codec.encode(data, 0)), Named(0), HALF + 1,
                                               ClashTemp(codec, data, TempFile([], false))))
  {
    var s1, s2 := BothBegin(codec, known, n, data, s);
    var both := Clash(s, data, Hashed, Hashed, HALF, map[]);
    more := RunThreeMore(codec, known, n, steps, s, StartProcess(7), s1, BeginPut(HALF, 6, data), s2,
      BeginPut(HALF + 1, 7, data), both);
    SixChooses(codec, known, n, data, s);
    SevenChooses(codec, known, n, data, s);
    SixCreates(codec, known, n, data, s);
    more := RunThreeMore(codec, known, n, more, both, TakeSuffix(HALF),
      Clash(s, data, Named(HALF), Hashed, HALF + 1, map[]), TakeSuffix(HALF + 1),
      Clash(s, data, Named(HALF), Named(0), HALF + 1, map[]),
      CreateTemp(HALF, 0), Clash(s, data, Writing(HALF, codec.encode(data, 0)), Named(0), HALF + 1,
                                 ClashTemp(codec, data, TempFile([], false))));
  }

  /** The call after 2^32 others can publish an empty file. */
  lemma LongRunsAreNotSafe(codec: Codec, known: iset<Bytes>, n: nat, data: Bytes) returns (steps: seq<Step>, s: State)
    requires HALF < n <= U64_MAX && data in known && data != [] && 0 < |codec.encode(data, 0)| <= U64_MAX
    ensures IsRun(codec, known, n, steps, s) && !FilesGood(codec, known, s)
  {
    var stored := codec.encode(data, 0);
    var before, idle := IdleIsReached(codec, known, n, data, HALF);
    steps := ClashIsReached(codec, known, n, data, before, idle);
    SixSyncs(codec, known, n, data, idle);
    SevenCreates(codec, known, n, data, idle);
    s := SixPublishes(codec, known, n, data, idle);
    var empty := ClashTemp(codec, data, TempFile([], false));
    steps := RunThreeMore(codec, known, n, steps, Clash(idle, data, Writing(HALF, stored), Named(0), HALF + 1, empty),
      SyncTemp(HALF), Clash(idle, data, Synced(HALF, stored), Named(0), HALF + 1,
                            ClashTemp(codec, data, TempFile(stored, true))),
      CreateTemp(HALF + 1, 0), Clash(idle, data, Synced(HALF, stored), Writing(0, stored), HALF + 1, empty),
      Rename(HALF), s);
    EmptyFileIsNotGood(codec, known, data, s);
  }

  lemma EmptyFileIsNotGood(codec: Codec, known: iset<Bytes>, data: Bytes, s: State)
    requires s.renames == [(codec.name(data), [])]
    ensures !FilesGood(codec, known, s)
  {
    FinalsGrow([], (codec.name(data), []));
    assert [] + [(codec.name(data), [])] == s.renames;
    assert Finals(s.renames)[codec.name(data)] == [];
  }

  ghost predicate AlwaysSafe(codec: Codec, known: iset<Bytes>, n: nat) {
    forall steps, s :: IsRun(codec, known, n, steps, s) ==> FilesGood(codec, known, s)
  }

  /** A reader finds nothing but whole, rightly named chunks exactly if no process makes more than 2^32 calls. */
  lemma RunsAreSafeIff(codec: Codec, known: iset<Bytes>, n: nat, data: Bytes)
    requires Lawful(codec, known) && n <= U64_MAX
    requires data in known && data != [] && 0 < |codec.encode(data, 0)| <= U64_MAX
    ensures AlwaysSafe(codec, known, n) <==> n <= HALF
  {
    if n <= HALF {
      forall steps, s | IsRun(codec, known, n, steps, s)
        ensures FilesGood(codec, known, s)
      {
        EveryRunIsSafe(codec, known, n, steps, s);
      }
    } else {
      var steps, s := LongRunsAreNotSafe(codec, known, n, data);
    }
  }
}
