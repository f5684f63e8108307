/** What holds over every run of the task table, through failed writes, crashes and restarts. */
module TaskSafety {
  import opened Wrappers
  import opened Schedules
  import opened Tasks

  // ---------- the system ----------

  /** A scheduled claim that handed out a snapshot of a project task. */
  datatype ClaimRecord = ClaimRecord(id: string, birth: nat, scheduledFor: int, schedule: ScheduleText)

  /** What the model keeps beside the table: id and birth counters, the clock, the claims so far. */
  datatype Book = Book(nextId: nat, nextBirth: nat, clock: int, claims: seq<ClaimRecord>)

  /** `exec` is the holder of the execution lock. */
  datatype System = System(table: Table, exec: Option<(string, RunId)>, book: Book)

  /** After a process crash readers see what they saw; after a power loss some possible image of each file. */
  datatype Crash = ProcessOnly | PowerLoss(survives: map<string, Image>)

  datatype Event =
    | Upsert(task: Task, io: WriteOutcome)
    | Update(id: string, name: string, instruction: string, schedule: ScheduleText, now: int, io: WriteOutcome)
    | SetEnabled(id: string, enabled: bool, now: int, io: WriteOutcome)
    | Remove(id: string, works: bool)
    | DeleteProject(project: string, order: seq<string>, outcome: DeleteOutcome)
    | Collect(now: int)
    | Release(candidate: Candidate)
    | Claim(id: string, from: Option<Candidate>, now: int, io: WriteOutcome)
    | Finish(id: string, runId: RunId, run: TaskRun, io: WriteOutcome)
    | Retry(id: string, io: WriteOutcome)
    | Restart(crash: Crash, order: seq<string>, now: int, ios: map<string, WriteOutcome>)

  function Survivors(d: Disk, crash: Crash): Disk {
    match crash
    case ProcessOnly => d
    case PowerLoss(survives) =>
      map id | id in d :: if id in survives then File(survives[id], {survives[id]}) else d[id]
  }

  /** What an event may be: the clock does not go back, new tasks are blank, crashes leave possible images. */
  ghost predicate Allowed(s: System, e: Event) {
    match e
    case Upsert(t, _) => t.runs == [] && t.active.None?
    case Update(_, _, _, _, now, _) => now >= s.book.clock
    case SetEnabled(_, _, now, _) => now >= s.book.clock
    case Collect(now) => now >= s.book.clock
    case Claim(id, from, now, _) => now >= s.book.clock && s.exec.None? && (from.Some? ==> from.value.id == id)
    case DeleteProject(project, order, _) => Visits(order, TasksOf(s.table, project))
    case Restart(crash, order, now, _) =>
      && now >= s.book.clock
      && (crash.PowerLoss? ==>
           && s.table.disk.Keys == crash.survives.Keys
           && forall id | id in s.table.disk :: crash.survives[id] in s.table.disk[id].possible)
      && Visits(order, Loadable(Survivors(s.table.disk, crash)))
    case _ => true
  }

  function ClaimOutcome(s: System, e: Event): (Table, Result<Option<Snapshot>, Error>)
    requires e.Claim? && (e.from.Some? ==> e.from.value.id == e.id)
  {
    Claimed(s.table, e.id, e.from, e.now, Generated(s.book.nextId), e.io)
  }

  predicate Hands(s: System, e: Event)
    requires e.Claim? && (e.from.Some? ==> e.from.value.id == e.id)
  {
    ClaimOutcome(s, e).1.Ok? && ClaimOutcome(s, e).1.value.Some?
  }

  function Step(s: System, e: Event): System
    requires Allowed(s, e)
  {
    match e
    case Upsert(t, io) =>
      s.(table := Upserted(s.table, t.(birth := s.book.nextBirth), io).0,
         book := s.book.(nextBirth := s.book.nextBirth + 1))
    case Update(id, name, instruction, schedule, now, io) =>
      s.(table := Updated(s.table, id, name, instruction, schedule, now, io).0, book := s.book.(clock := now))
    case SetEnabled(id, enabled, now, io) =>
      s.(table := EnabledSet(s.table, id, enabled, now, io).0, book := s.book.(clock := now))
    case Remove(id, works) => s.(table := Removed(s.table, id, works).0)
    case DeleteProject(project, order, outcome) => s.(table := ProjectDeleted(s.table, project, order, outcome).0)
    case Collect(now) => s.(table := Collected(s.table, now), book := s.book.(clock := now))
    case Release(c) => s.(table := Released(s.table, c))
    case Claim(id, from, now, io) =>
      var (table, r) := ClaimOutcome(s, e);
      var book := s.book.(nextId := s.book.nextId + 1, clock := now);
      if Hands(s, e) then
        var t := r.value.value.task;
        System(table, Some((id, r.value.value.run.runId)),
               if from.Some? && t.project.Some?
               then book.(claims := book.claims + [ClaimRecord(id, t.birth, from.value.scheduledFor, t.schedule)])
               else book)
      else s.(table := table, book := book)
    case Finish(id, runId, run, io) =>
      s.(table := Finished(s.table, id, runId, run, io).0,
         exec := if s.exec == Some((id, runId)) then None else s.exec)
    case Retry(id, io) => if id in s.table.tasks then s.(table := RetriedOne(s.table, id, io)) else s
    case Restart(crash, order, now, ios) =>
      System(Restarted(Survivors(s.table.disk, crash), order, now, ios), None, s.book.(clock := now))
  }

  ghost predicate AllowedRun(s: System, events: seq<Event>)
    decreases |events|
  {
    events == [] || (Allowed(s, events[0]) && AllowedRun(Step(s, events[0]), events[1..]))
  }

  function Run(s: System, events: seq<Event>): System
    requires AllowedRun(s, events)
    decreases |events|
  {
    if events == [] then s else Run(Step(s, events[0]), events[1..])
  }

  const EMPTY := System(Table(map[], map[], map[], {}, 0, map[]), None, Book(0, 0, 0, []))

  // ---------- what is true of every task value, in memory or in any image ----------

  ghost predicate IdsBefore(runs: seq<TaskRun>, n: nat) {
    forall i | 0 <= i < |runs| && runs[i].runId.Some? && runs[i].runId.value.Generated? :: runs[i].runId.value.n < n
  }

  predicate DistinctIds(runs: seq<TaskRun>) {
    forall i, j | 0 <= i < j < |runs| && runs[i].runId.Some? :: runs[i].runId != runs[j].runId
  }

  /** The run ledger: bounded, no run twice, and the active run not yet in it. */
  ghost predicate LedgerOk(t: Task, nextId: nat) {
    && |t.runs| <= MAX_TASK_RUNS && DistinctIds(t.runs) && IdsBefore(t.runs, nextId)
    && (t.active.Some? ==>
         t.active.value.runId.Generated? && t.active.value.runId.n < nextId && !HasRun(t.runs, t.active.value.runId))
  }

  /** The next occurrence is later than every claimed one of the same incarnation, by an interval if there is one. */
  ghost predicate AfterClaims(t: Task, claims: seq<ClaimRecord>) {
    forall i | 0 <= i < |claims| && claims[i].id == t.id && claims[i].birth == t.birth && t.nextRun.Some? ::
      t.nextRun.value >= claims[i].scheduledFor + Gap(t.schedule)
  }

  ghost predicate TaskOk(b: Book, t: Task) {
    t.birth < b.nextBirth && LedgerOk(t, b.nextId) && AfterClaims(t, b.claims)
  }

  ghost predicate FileOk(b: Book, id: string, f: File) {
    && f.visible in f.possible
    && forall image | image in f.possible && image.Some? ::
         image.value.id == id && !image.value.unsaved && image.value.project.Some? && TaskOk(b, image.value)
  }

  ghost predicate DiskOk(b: Book, d: Disk) {
    forall id | id in d :: FileOk(b, id, d[id])
  }

  ghost predicate MemoryOk(b: Book, tasks: map<string, Task>) {
    forall id | id in tasks :: tasks[id].id == id && TaskOk(b, tasks[id])
  }

  /** Claims were made in time order for each incarnation, none in the future. */
  ghost predicate BookOk(b: Book) {
    && (forall i | 0 <= i < |b.claims| ::
      && b.claims[i].scheduledFor <= b.clock && b.claims[i].birth < b.nextBirth
      && ParseSchedule(b.claims[i].schedule).Some?)
    && (forall i, j | 0 <= i < j < |b.claims| && b.claims[i].id == b.claims[j].id
      && b.claims[i].birth == b.claims[j].birth ::
         b.claims[i].scheduledFor + Gap(b.claims[j].schedule) <= b.claims[j].scheduledFor)
  }

  /** Only the holder of the execution lock has an active run. */
  ghost predicate ExecOk(exec: Option<(string, RunId)>, tasks: map<string, Task>) {
    forall id | id in tasks && tasks[id].active.Some? :: exec == Some((id, tasks[id].active.value.runId))
  }

  /** Tasks of closed projects are gone, every task has a generation, and pending entries carry the current one. */
  ghost predicate TableOk(t: Table) {
    && (forall id | id in t.tasks :: ProjectOpen(t, t.tasks[id]) && id in t.generations)
    && (forall id | id in t.generations :: t.generations[id] <= t.serial)
    && (forall id | id in t.pending ::
          t.pending[id].id == id && id in t.generations && t.pending[id].generation == t.generations[id])
  }

  ghost predicate SoundTable(b: Book, exec: Option<(string, RunId)>, t: Table) {
    MemoryOk(b, t.tasks) && DiskOk(b, t.disk) && ExecOk(exec, t.tasks) && TableOk(t)
  }

  ghost predicate Inv(s: System) {
    BookOk(s.book) && SoundTable(s.book, s.exec, s.table)
  }

  // ---------- task values ----------

  lemma {:induction false} SameLedgerFields(b: Book, t: Task, t': Task)
    requires TaskOk(b, t) && t'.id == t.id && t'.birth == t.birth && t'.runs == t.runs && t'.active == t.active
    requires || (t'.nextRun == t.nextRun && t'.schedule == t.schedule) || t'.nextRun.None?
             || t'.nextRun.value >= b.clock + Gap(t'.schedule)
    requires BookOk(b)
    ensures TaskOk(b, t')
  {
  }

  lemma {:induction false} LaterBook(b: Book, b': Book, t: Task)
    requires TaskOk(b, t) && b'.claims == b.claims && b'.nextId >= b.nextId && b'.nextBirth >= b.nextBirth
    ensures TaskOk(b', t)
  {
  }

  lemma {:induction false} LaterBookAll(b: Book, b': Book, tasks: map<string, Task>, d: Disk)
    requires MemoryOk(b, tasks) && DiskOk(b, d)
    requires b'.claims == b.claims && b'.nextId >= b.nextId && b'.nextBirth >= b.nextBirth
    ensures MemoryOk(b', tasks) && DiskOk(b', d)
  {
    forall t | TaskOk(b, t) ensures TaskOk(b', t) {
      LaterBook(b, b', t);
    }
    hide TaskOk;
    forall id | id in d ensures FileOk(b', id, d[id]) {
      assert FileOk(b, id, d[id]);
    }
  }

  lemma {:induction false} PersistKeeps(b: Book, d: Disk, t: Task, io: WriteOutcome)
    requires DiskOk(b, d) && TaskOk(b, t) && !t.unsaved
    ensures DiskOk(b, Persisted(d, t, io))
  {
    hide TaskOk;
    if t.id in d {
      assert FileOk(b, t.id, d[t.id]);
    }
    var d' := Persisted(d, t, io);
    forall id | id in d' ensures FileOk(b, id, d'[id]) {
      if id != t.id {
        assert FileOk(b, id, d[id]);
      }
    }
  }

  lemma {:induction false} RemoveKeeps(b: Book, d: Disk, ids: set<string>)
    requires DiskOk(b, d)
    ensures DiskOk(b, WithoutFiles(d, ids))
  {
    hide TaskOk;
    forall id | id in d ensures FileOk(b, id, d[id]) {}
  }

  // ---------- edits ----------

  lemma {:induction false} InvalidatedKeeps(b: Book, exec: Option<(string, RunId)>, s: Table, id: string)
    requires SoundTable(b, exec, s)
    ensures SoundTable(b, exec, Invalidated(s, id))
  {
    hide TaskOk, FileOk;
  }

  lemma {:induction false} PutKeeps(b: Book, exec: Option<(string, RunId)>, s: Table, t: Task, d: Disk)
    requires SoundTable(b, exec, s) && TaskOk(b, t) && ProjectOpen(s, t) && DiskOk(b, d) && t.id in s.generations
    requires t.active.Some? ==> exec == Some((t.id, t.active.value.runId))
    ensures SoundTable(b, exec, s.(tasks := s.tasks[t.id := t], disk := d))
  {
    hide TaskOk, FileOk;
  }

  lemma {:induction false} EditedKeeps(b: Book, exec: Option<(string, RunId)>, s: Table, t: Task, io: WriteOutcome)
    requires BookOk(b) && SoundTable(b, exec, s) && TaskOk(b, t) && ProjectOpen(s, t)
    requires t.active.Some? ==> exec == Some((t.id, t.active.value.runId))
    ensures SoundTable(b, exec, Edited(s, t, io).0)
  {
    var clean := t.(unsaved := false);
    SameLedgerFields(b, t, clean);
    PersistKeeps(b, s.disk, clean, io);
    InvalidatedKeeps(b, exec, s, t.id);
    if Effective(t, io) != Fails {
      var t' := clean.(unsaved := Effective(t, io) == Unsynced);
      SameLedgerFields(b, t, t');
      hide TaskOk, FileOk, SoundTable;
      assert ProjectOpen(Invalidated(s, t.id), t');
      PutKeeps(b, exec, Invalidated(s, t.id), t', Persisted(s.disk, clean, io));
    }
  }

  /** A task that keeps its ledger and moves its next run, if at all, past `now`. */
  predicate Reworked(t: Task, t': Task, now: int) {
    && t'.id == t.id && t'.birth == t.birth && t'.runs == t.runs && t'.active == t.active && t'.project == t.project
    && ((t'.nextRun == t.nextRun && t'.schedule == t.schedule)
        || (t'.nextRun.Some? && t'.nextRun.value >= now + Gap(t'.schedule)))
  }

  lemma {:induction false} ReworkedKeeps(
    b: Book, exec: Option<(string, RunId)>, s: Table, t: Task, now: int, io: WriteOutcome
  )
    requires BookOk(b) && SoundTable(b, exec, s) && t.id in s.tasks && now >= b.clock
    requires Reworked(s.tasks[t.id], t, now)
    ensures SoundTable(b, exec, Edited(s, t, io).0)
  {
    SameLedgerFields(b, s.tasks[t.id], t);
    hide TaskOk, FileOk;
    EditedKeeps(b, exec, s, t, io);
  }

  lemma {:induction false} UpsertKeeps(b: Book, exec: Option<(string, RunId)>, s: Table, t: Task, io: WriteOutcome)
    requires BookOk(b) && SoundTable(b, exec, s) && t.runs == [] && t.active.None? && t.birth == b.nextBirth
    ensures SoundTable(b.(nextBirth := b.nextBirth + 1), exec, Upserted(s, t, io).0)
  {
    var b' := b.(nextBirth := b.nextBirth + 1);
    LaterBookAll(b, b', s.tasks, s.disk);
    assert TaskOk(b', t);
    hide TaskOk, FileOk;
    if ParseSchedule(t.schedule).Some? && ProjectOpen(s, t) && t.id !in s.tasks {
      EditedKeeps(b', exec, s, t, io);
    }
  }

  lemma {:induction false} EditsRework(s: Table, id: string, name: string, instruction: string, schedule: ScheduleText,
                                       enabled: bool, now: int)
    requires id in s.tasks ==> s.tasks[id].id == id
    ensures var r := UpdateOf(s, id, name, instruction, schedule, now);
      r.Ok? ==> id in s.tasks && r.value.id == id && Reworked(s.tasks[id], r.value, now)
    ensures var r := EnableOf(s, id, enabled, now);
      r.Ok? ==> id in s.tasks && r.value.id == id && Reworked(s.tasks[id], r.value, now)
  {
  }

  lemma {:induction false} UpdateKeeps(b: Book, exec: Option<(string, RunId)>, s: Table, id: string, name: string,
                                       instruction: string, schedule: ScheduleText, now: int, io: WriteOutcome)
    requires BookOk(b) && SoundTable(b, exec, s) && now >= b.clock
    ensures SoundTable(b, exec, Updated(s, id, name, instruction, schedule, now, io).0)
  {
    EditsRework(s, id, name, instruction, schedule, true, now);
    hide Edited, SoundTable, BookOk, Reworked, UpdateOf;
    var r := UpdateOf(s, id, name, instruction, schedule, now);
    if r.Ok? {
      ReworkedKeeps(b, exec, s, r.value, now, io);
    }
  }

  lemma {:induction false} EnableKeeps(b: Book, exec: Option<(string, RunId)>, s: Table, id: string, enabled: bool,
                                       now: int, io: WriteOutcome)
    requires BookOk(b) && SoundTable(b, exec, s) && now >= b.clock
    ensures SoundTable(b, exec, EnabledSet(s, id, enabled, now, io).0)
  {
    EditsRework(s, id, "", "", BadText(false), enabled, now);
    hide Edited, SoundTable, BookOk, Reworked, EnableOf;
    var r := EnableOf(s, id, enabled, now);
    if r.Ok? {
      ReworkedKeeps(b, exec, s, r.value, now, io);
    }
  }

  lemma {:induction false} RemovedKeeps(b: Book, exec: Option<(string, RunId)>, s: Table, id: string, works: bool)
    requires SoundTable(b, exec, s)
    ensures SoundTable(b, exec, Removed(s, id, works).0)
  {
    RemoveKeeps(b, s.disk, {id});
    assert FileRemoved(s.disk, id) == WithoutFiles(s.disk, {id});
    hide TaskOk, FileOk;
  }

  lemma {:induction false} InvalidatedAllKeeps(b: Book, exec: Option<(string, RunId)>, s: Table, order: seq<string>)
    requires SoundTable(b, exec, s)
    ensures var s' := InvalidatedAll(s, order);
      SoundTable(b, exec, s') && s'.tasks == s.tasks && s'.disk == s.disk && s'.closed == s.closed
    decreases |order|
  {
    hide TaskOk, FileOk;
    if order != [] {
      InvalidatedKeeps(b, exec, s, order[0]);
      InvalidatedAllKeeps(b, exec, Invalidated(s, order[0]), order[1..]);
    }
  }

  lemma {:induction false} DeleteKeeps(b: Book, exec: Option<(string, RunId)>, s: Table, project: string,
                                       order: seq<string>, io: DeleteOutcome)
    requires SoundTable(b, exec, s)
    ensures SoundTable(b, exec, ProjectDeleted(s, project, order, io).0)
  {
    InvalidatedAllKeeps(b, exec, s, order);
    var ids := TasksOf(s, project);
    RemoveKeeps(b, s.disk, ids);
    if io.DeleteFails? {
      RemoveKeeps(b, s.disk, io.gone * ids);
    }
    hide TaskOk, FileOk, InvalidatedAll, WithoutFiles;
  }

  // ---------- claims ----------

  /** The books after a claim: one more id, the clock, and the claim if it was a scheduled one. */
  function ClaimBook(b: Book, now: int): Book {
    b.(nextId := b.nextId + 1, clock := now)
  }

  lemma {:induction false} LaterBookOk(b: Book, now: int)
    requires BookOk(b) && now >= b.clock
    ensures BookOk(ClaimBook(b, now))
  {
  }

  lemma {:induction false} ClaimedTaskOk(b: Book, t: Task, kind: ScheduleKind, from: Option<Candidate>, now: int)
    requires BookOk(b) && TaskOk(b, t) && t.active.None? && now >= b.clock && ParseSchedule(t.schedule) == Some(kind)
    ensures TaskOk(ClaimBook(b, now), ClaimedTask(t, kind, from, Generated(b.nextId), now))
  {
  }

  lemma {:induction false} ReleasedKeeps(b: Book, exec: Option<(string, RunId)>, s: Table, c: Candidate)
    requires SoundTable(b, exec, s)
    ensures SoundTable(b, exec, Released(s, c))
  {
    hide TaskOk, FileOk;
  }

  /** The claim of a task that passed every check. */
  predicate Claimable(s: Table, id: string) {
    && id in s.tasks && ParseSchedule(s.tasks[id].schedule).Some? && ProjectOpen(s, s.tasks[id])
    && s.tasks[id].active.None? && !s.tasks[id].unsaved
  }

  function ClaimOf(s: Table, id: string, from: Option<Candidate>, now: int, runId: RunId): Task
    requires Claimable(s, id)
  {
    ClaimedTask(s.tasks[id], ParseSchedule(s.tasks[id].schedule).value, from, runId, now)
  }

  /** The three outcomes: nothing happens, the task is quarantined, or it is claimed. */
  lemma {:induction false} ClaimCases(
    s: Table, id: string, from: Option<Candidate>, now: int, runId: RunId, io: WriteOutcome
  )
    requires from.Some? ==> from.value.id == id
    ensures var (s', r) := ClaimedLocked(s, id, from, now, runId, io);
      || (s' == s && !(r.Ok? && r.value.Some?))
      || (Claimable(s, id) &&
           var (t, t') := (s.tasks[id], ClaimOf(s, id, from, now, runId));
           || (s' == s.(tasks := s.tasks[id := t.(unsaved := true)], disk := Persisted(s.disk, t', io)) && r.Err?)
           || (s' == s.(tasks := s.tasks[id := t'], disk := Persisted(s.disk, t', io))
               && Effective(t, io) == Durable && r == Ok(Some(Snapshot(t', t'.active.value)))))
  {
    hide Persisted, Entitled;
  }

  /** Everything but the record of the claim itself. */
  lemma {:induction false} ClaimLockedKeeps(
    b: Book, s: Table, id: string, from: Option<Candidate>, now: int, io: WriteOutcome
  )
    requires BookOk(b) && SoundTable(b, None, s) && now >= b.clock && (from.Some? ==> from.value.id == id)
    ensures var (s', r) := ClaimedLocked(s, id, from, now, Generated(b.nextId), io);
      var exec := if r.Ok? && r.value.Some? then Some((id, r.value.value.run.runId)) else None;
      SoundTable(ClaimBook(b, now), exec, s')
  {
    var b', runId := ClaimBook(b, now), Generated(b.nextId);
    LaterBookAll(b, b', s.tasks, s.disk);
    LaterBookOk(b, now);
    assert SoundTable(b', None, s) by {
      hide TaskOk, FileOk;
    }
    ClaimCases(s, id, from, now, runId, io);
    if Claimable(s, id) {
      ClaimPutKeeps(b, s, id, from, now, io);
    }
    hide TaskOk, FileOk, SoundTable, ClaimedLocked, Persisted, BookOk;
  }

  lemma {:induction false} ClaimPutKeeps(
    b: Book, s: Table, id: string, from: Option<Candidate>, now: int, io: WriteOutcome
  )
    requires BookOk(b) && SoundTable(b, None, s) && SoundTable(ClaimBook(b, now), None, s) && now >= b.clock
    requires Claimable(s, id)
    ensures var b' := ClaimBook(b, now);
      var t, t' := s.tasks[id], ClaimOf(s, id, from, now, Generated(b.nextId));
      && SoundTable(b', None, s.(tasks := s.tasks[id := t.(unsaved := true)], disk := Persisted(s.disk, t', io)))
      && SoundTable(b', Some((id, Generated(b.nextId))),
        s.(tasks := s.tasks[id := t'], disk := Persisted(s.disk, t', io)))
      && t'.active.value.runId == Generated(b.nextId)
  {
    var b', runId := ClaimBook(b, now), Generated(b.nextId);
    var t := s.tasks[id];
    var t' := ClaimOf(s, id, from, now, runId);
    ClaimedTaskOk(b, t, ParseSchedule(t.schedule).value, from, now);
    LaterBook(b, b', t);
    LaterBookOk(b, now);
    SameLedgerFields(b', t, t.(unsaved := true));
    hide TaskOk, FileOk;
    assert t.id == id && t'.id == id && id in s.generations;
    assert SoundTable(b', Some((id, runId)), s);
    PersistKeeps(b', s.disk, t', io);
    hide SoundTable, BookOk, DiskOk, Persisted;
    assert DiskOk(b', Persisted(s.disk, t', io));
    PutKeeps(b', Some((id, runId)), s, t', Persisted(s.disk, t', io));
    PutKeeps(b', None, s, t.(unsaved := true), Persisted(s.disk, t', io));
  }

  /** A successful scheduled claim: its occurrence is the next run of the task, and later than all before. */
  lemma {:induction false} HandedOut(s: System, e: Event)
    requires Inv(s) && Allowed(s, e) && e.Claim? && Hands(s, e)
    ensures var t, t' := s.table.tasks[e.id], ClaimOutcome(s, e).1.value.value.task;
      && e.id in s.table.tasks && !t.unsaved && t.active.None? && t'.birth == t.birth && t'.project == t.project
        && t'.id == e.id && t'.schedule == t.schedule && ParseSchedule(t.schedule).Some?
      && ClaimOutcome(s, e).0.tasks == s.table.tasks[e.id := t']
      && ClaimOutcome(s, e).0.disk == Persisted(s.table.disk, t', Durable)
      && t'.active == Some(ClaimOutcome(s, e).1.value.value.run) && !t'.unsaved
      && (e.from.Some? ==>
           t.nextRun == Some(e.from.value.scheduledFor) && e.from.value.scheduledFor <= e.now
           && (t'.nextRun.Some? ==> t'.nextRun.value >= e.now + Gap(t'.schedule)))
  {
    hide TaskOk, FileOk;
  }

  lemma {:induction false} RecordClaim(b: Book, s: Table, exec: Option<(string, RunId)>, t: Task, at: int)
    requires BookOk(b) && SoundTable(b, exec, s) && t.id in s.tasks && s.tasks[t.id] == t && t.project.Some?
    requires t.id in s.disk && s.disk[t.id].possible == {Some(t)}
    requires at <= b.clock && t.birth < b.nextBirth && ParseSchedule(t.schedule).Some?
    requires forall i | 0 <= i < |b.claims| && b.claims[i].id == t.id && b.claims[i].birth == t.birth ::
      b.claims[i].scheduledFor + Gap(t.schedule) <= at
    requires t.nextRun.Some? ==> t.nextRun.value >= at + Gap(t.schedule)
    ensures var b' := b.(claims := b.claims + [ClaimRecord(t.id, t.birth, at, t.schedule)]);
      BookOk(b') && SoundTable(b', exec, s)
  {
    var b' := b.(claims := b.claims + [ClaimRecord(t.id, t.birth, at, t.schedule)]);
    forall x: Task | TaskOk(b, x) && x.id != t.id ensures TaskOk(b', x) {
    }
    assert TaskOk(b', t);
    hide TaskOk;
    forall id | id in s.disk ensures FileOk(b', id, s.disk[id]) {
      assert FileOk(b, id, s.disk[id]);
    }
  }

  ghost function ClaimExec(s: System, e: Event): Option<(string, RunId)>
    requires e.Claim? && (e.from.Some? ==> e.from.value.id == e.id)
  {
    if Hands(s, e) then Some((e.id, ClaimOutcome(s, e).1.value.value.run.runId)) else None
  }

  lemma {:induction false} ClaimTableKeeps(s: System, e: Event)
    requires Inv(s) && Allowed(s, e) && e.Claim?
    ensures BookOk(ClaimBook(s.book, e.now))
    ensures SoundTable(ClaimBook(s.book, e.now), ClaimExec(s, e), ClaimOutcome(s, e).0)
  {
    hide BookOk, SoundTable, ClaimedLocked;
    LaterBookOk(s.book, e.now);
    ClaimLockedKeeps(s.book, s.table, e.id, e.from, e.now, e.io);
    if e.from.Some? {
      var s1 := ClaimedLocked(s.table, e.id, e.from, e.now, Generated(s.book.nextId), e.io).0;
      ReleasedKeeps(ClaimBook(s.book, e.now), ClaimExec(s, e), s1, e.from.value);
    }
  }

  /** The occurrence a task waits for is later than all it was handed out for. */
  lemma {:induction false} WaitsForLater(b: Book, tasks: map<string, Task>, id: string, at: int)
    requires MemoryOk(b, tasks) && id in tasks && tasks[id].nextRun == Some(at)
    ensures tasks[id].birth < b.nextBirth
    ensures forall i | 0 <= i < |b.claims| && b.claims[i].id == id && b.claims[i].birth == tasks[id].birth ::
      b.claims[i].scheduledFor + Gap(tasks[id].schedule) <= at
  {
  }

  lemma {:induction false} ClaimRecorded(s: System, e: Event)
    requires Inv(s) && Allowed(s, e) && e.Claim? && Hands(s, e) && e.from.Some?
    requires ClaimOutcome(s, e).1.value.value.task.project.Some?
    ensures var t := ClaimOutcome(s, e).1.value.value.task;
      var b' := ClaimBook(s.book, e.now);
      var b'' := b'.(claims := b'.claims + [ClaimRecord(e.id, t.birth, e.from.value.scheduledFor, t.schedule)]);
      BookOk(b'') && SoundTable(b'', ClaimExec(s, e), ClaimOutcome(s, e).0)
  {
    ClaimTableKeeps(s, e);
    HandedOut(s, e);
    WaitsForLater(s.book, s.table.tasks, e.id, e.from.value.scheduledFor);
    hide BookOk, SoundTable, ClaimOutcome, ClaimExec, Hands, Inv, Allowed;
    RecordClaim(ClaimBook(s.book, e.now), ClaimOutcome(s, e).0, ClaimExec(s, e), ClaimOutcome(s, e).1.value.value.task,
                e.from.value.scheduledFor);
  }

  /** What a claim makes of the system. */
  lemma {:induction false} ClaimStep(s: System, e: Event)
    requires Allowed(s, e) && e.Claim?
    ensures Step(s, e).table == ClaimOutcome(s, e).0 && Step(s, e).exec == ClaimExec(s, e)
    ensures Step(s, e).book ==
      var b' := ClaimBook(s.book, e.now);
      if Hands(s, e) && e.from.Some? && ClaimOutcome(s, e).1.value.value.task.project.Some? then
        var t := ClaimOutcome(s, e).1.value.value.task;
        b'.(claims := b'.claims + [ClaimRecord(e.id, t.birth, e.from.value.scheduledFor, t.schedule)])
      else b'
  {
    hide Claimed;
  }

  lemma {:induction false} ClaimKeeps(s: System, e: Event)
    requires Inv(s) && Allowed(s, e) && e.Claim?
    ensures Inv(Step(s, e))
  {
    ClaimStep(s, e);
    ClaimTableKeeps(s, e);
    if Hands(s, e) && e.from.Some? && ClaimOutcome(s, e).1.value.value.task.project.Some? {
      ClaimRecorded(s, e);
    }
    hide BookOk, SoundTable, ClaimOutcome, Hands, ClaimExec, Step, Allowed;
  }

  // ---------- results ----------

  lemma {:induction false} AppendedLedger(t: Task, run: TaskRun, nextId: nat)
    requires |t.runs| <= MAX_TASK_RUNS && DistinctIds(t.runs) && IdsBefore(t.runs, nextId)
    requires run.runId.Some? && run.runId.value.Generated? ==> run.runId.value.n < nextId
    ensures var t' := Appended(t, run);
      |t'.runs| <= MAX_TASK_RUNS && DistinctIds(t'.runs) && IdsBefore(t'.runs, nextId)
      && t'.(lastStatus := t.lastStatus, lastSummary := t.lastSummary, runs := t.runs) == t
  {
  }

  lemma {:induction false} FinishKeeps(b: Book, exec: Option<(string, RunId)>, s: Table, id: string, runId: RunId,
                                       run: TaskRun, io: WriteOutcome)
    requires BookOk(b) && SoundTable(b, exec, s)
    ensures SoundTable(b, exec, Finished(s, id, runId, run, io).0)
    ensures exec == Some((id, runId)) ==> SoundTable(b, None, Finished(s, id, runId, run, io).0)
  {
    if Current(s, id).Ok? && s.tasks[id].active.Some? && s.tasks[id].active.value.runId == runId {
      var t := s.tasks[id];
      assert TaskOk(b, t);
      var t' := FinishedTask(t, runId, run);
      AppendedLedger(t, run.(runId := Some(runId)), b.nextId);
      assert TaskOk(b, t');
      PersistKeeps(b, s.disk, t', io);
      var put := t'.(unsaved := Effective(t', io) != Durable);
      SameLedgerFields(b, t', put);
      hide TaskOk, FileOk, Appended;
      PutKeeps(b, exec, s, put, Persisted(s.disk, t', io));
    }
    hide TaskOk, FileOk, Appended;
  }

  lemma {:induction false} RetryKeeps(b: Book, exec: Option<(string, RunId)>, s: Table, id: string, io: WriteOutcome)
    requires BookOk(b) && SoundTable(b, exec, s) && id in s.tasks
    ensures SoundTable(b, exec, RetriedOne(s, id, io))
  {
    var t := s.tasks[id].(unsaved := false);
    SameLedgerFields(b, s.tasks[id], t);
    PersistKeeps(b, s.disk, t, io);
    hide TaskOk, FileOk;
  }

  // ---------- restart ----------

  lemma {:induction false} RecoveredOk(b: Book, t: Task, now: int)
    requires BookOk(b) && TaskOk(b, t) && now >= b.clock
    ensures var t' := Recovered(t, now).0;
      TaskOk(b, t') && t'.active.None? && !t'.unsaved && t'.id == t.id && t'.project == t.project
  {
    if t.active.Some? {
      AppendedLedger(t.(unsaved := false, active := None), InterruptedRun(t.active.value, now), b.nextId);
    } else if t.nextRun.Some? {
      AppendedLedger(t.(unsaved := false), MissedRun(t.(unsaved := false), t.nextRun.value, now), b.nextId);
    }
    hide Appended, HasRun;
  }

  lemma {:induction false} SurvivorsOk(s: System, e: Event)
    requires DiskOk(s.book, s.table.disk) && e.Restart? && Allowed(s, e)
    ensures DiskOk(s.book, Survivors(s.table.disk, e.crash))
  {
    hide TaskOk;
    forall id | id in s.table.disk ensures FileOk(s.book, id, s.table.disk[id]) {}
  }

  lemma {:induction false} RestoredOneKeeps(b: Book, s: Table, id: string, now: int, ios: map<string, WriteOutcome>)
    requires BookOk(b) && SoundTable(b, None, s) && now >= b.clock && s.closed == {}
    ensures SoundTable(b, None, RestoredOne(s, id, now, ios)) && RestoredOne(s, id, now, ios).closed == {}
  {
    var image := FileOf(s.disk, id).visible;
    if image.Some? {
      var t := image.value;
      assert FileOk(b, id, s.disk[id]);
      var (t', changed) := Recovered(t, now);
      var io := OutcomeFor(ios, id);
      RecoveredOk(b, t, now);
      PersistKeeps(b, s.disk, t', io);
      SameLedgerFields(b, t', RestoredTask(t, now, io));
      hide TaskOk, FileOk, Recovered;
      InvalidatedKeeps(b, None, s, id);
      PutKeeps(b, None, Invalidated(s, id), RestoredTask(t, now, io), RestoredDisk(s.disk, t, now, io));
    }
  }

  lemma {:induction false} RestoredAllKeeps(
    b: Book, s: Table, order: seq<string>, now: int, ios: map<string, WriteOutcome>
  )
    requires BookOk(b) && SoundTable(b, None, s) && now >= b.clock && s.closed == {}
    ensures SoundTable(b, None, RestoredAll(s, order, now, ios))
    decreases |order|
  {
    if order != [] {
      RestoredOneKeeps(b, s, order[0], now, ios);
      RestoredAllKeeps(b, RestoredOne(s, order[0], now, ios), order[1..], now, ios);
    }
  }

  // ---------- every step ----------

  lemma {:induction false} ClockForward(b: Book, exec: Option<(string, RunId)>, t: Table, now: int)
    requires BookOk(b) && SoundTable(b, exec, t) && now >= b.clock
    ensures BookOk(b.(clock := now)) && SoundTable(b.(clock := now), exec, t)
  {
    LaterBookAll(b, b.(clock := now), t.tasks, t.disk);
    hide TaskOk, FileOk;
  }

  lemma {:induction false} CollectKeeps(b: Book, exec: Option<(string, RunId)>, s: Table, now: int)
    requires SoundTable(b, exec, s)
    ensures SoundTable(b, exec, Collected(s, now))
  {
    hide TaskOk, FileOk, Due;
  }

  lemma {:induction false} StepKeepsInv(s: System, e: Event)
    requires Inv(s) && Allowed(s, e)
    ensures Inv(Step(s, e))
  {
    var b, exec, t := s.book, s.exec, s.table;
    match e
    case Upsert(task, io) =>
      UpsertKeeps(b, exec, t, task.(birth := b.nextBirth), io);
    case Update(id, name, instruction, schedule, now, io) =>
      UpdateKeeps(b, exec, t, id, name, instruction, schedule, now, io);
      ClockForward(b, exec, Updated(t, id, name, instruction, schedule, now, io).0, now);
    case SetEnabled(id, enabled, now, io) =>
      EnableKeeps(b, exec, t, id, enabled, now, io);
      ClockForward(b, exec, EnabledSet(t, id, enabled, now, io).0, now);
    case Remove(id, works) => RemovedKeeps(b, exec, t, id, works);
    case DeleteProject(project, order, outcome) => DeleteKeeps(b, exec, t, project, order, outcome);
    case Collect(now) =>
      CollectKeeps(b, exec, t, now);
      ClockForward(b, exec, Collected(t, now), now);
    case Release(c) => ReleasedKeeps(b, exec, t, c);
    case Claim(_, _, _, _) => ClaimKeeps(s, e);
    case Finish(id, runId, run, io) => FinishKeeps(b, exec, t, id, runId, run, io);
    case Retry(id, io) => if id in t.tasks { RetryKeeps(b, exec, t, id, io); }
    case Restart(crash, order, now, ios) =>
      SurvivorsOk(s, e);
      var blank := Table(map[], map[], map[], {}, 0, Survivors(t.disk, crash));
      RestoredAllKeeps(b, blank, order, now, ios);
      ClockForward(b, None, Restarted(Survivors(t.disk, crash), order, now, ios), now);
  }

  lemma {:induction false} RunKeepsInv(s: System, events: seq<Event>)
    requires Inv(s) && AllowedRun(s, events)
    ensures Inv(Run(s, events))
    decreases |events|
  {
    if events != [] {
      StepKeepsInv(s, events[0]);
      RunKeepsInv(Step(s, events[0]), events[1..]);
    }
  }

  // ---------- occurrences ----------

  /**
   * However a run goes, the occurrences of one incarnation of a project task are handed out in strictly increasing
   * order of time: none of them twice, and one that is handed out under an interval lies at least that interval after
   * every earlier one.
   */
  lemma {:induction false} OccurrencesOnce(events: seq<Event>)
    requires AllowedRun(EMPTY, events)
    ensures var claims := Run(EMPTY, events).book.claims;
      forall i, j | 0 <= i < j < |claims| && claims[i].id == claims[j].id && claims[i].birth == claims[j].birth ::
        && claims[i].scheduledFor < claims[j].scheduledFor
        && match claims[j].schedule
           case EveryText(n, "m") => claims[j].scheduledFor >= claims[i].scheduledFor + 60 * n
           case EveryText(n, "h") => claims[j].scheduledFor >= claims[i].scheduledFor + 3600 * n
           case EveryText(n, "d") => claims[j].scheduledFor >= claims[i].scheduledFor + 86400 * n
           case _ => true
  {
    RunKeepsInv(EMPTY, events);
  }

  /** The record of claims grows by exactly the scheduled claims of project tasks that hand out a snapshot. */
  lemma {:induction false} ClaimsAreRecorded(s: System, e: Event)
    requires Inv(s) && Allowed(s, e)
    ensures Step(s, e).book.claims == s.book.claims + (
      if e.Claim? && e.from.Some? && Hands(s, e) && ClaimOutcome(s, e).1.value.value.task.project.Some? then
        var t := s.table.tasks[e.id];
        [ClaimRecord(e.id, t.birth, e.from.value.scheduledFor, t.schedule)] else [])
  {
    if e.Claim? && Hands(s, e) {
      HandedOut(s, e);
      hide ClaimOutcome, Hands;
    }
  }
}
