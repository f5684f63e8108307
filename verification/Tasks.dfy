/**
 * The scheduled-task table as functions of its state (src-tauri/src/core/scheduler.rs, lines
 * 179-1008). Times are integers. `birth` numbers the successful `upsert` a task comes from; the
 * program has no such field, it only names the incarnation of a task in the statements below.
 */
module Tasks {
  import opened Wrappers
  import opened Schedules

  const MAX_TASK_RUNS: nat := 20

  /** A generated UUID, or the name given to a missed one-shot. */
  datatype RunId = Generated(n: nat) | Missed(task: string, at: int)

  datatype Source = OnSchedule | Manual

  datatype TaskRun = TaskRun(
    runId: Option<RunId>, at: int, status: string, summary: string, source: Source, outTokens: nat)

  datatype ActiveRun = ActiveRun(runId: RunId, source: Source, scheduledFor: Option<int>, startedAt: int)

  /** `unsaved` is `persistence_error.is_some()`. */
  datatype Task = Task(
    id: string, name: string, instruction: string, schedule: ScheduleText, nextRun: Option<int>,
    lastStatus: Option<string>, lastSummary: Option<string>, project: Option<string>, enabled: bool,
    runs: seq<TaskRun>, active: Option<ActiveRun>, unsaved: bool, birth: nat)

  datatype Candidate = Candidate(id: string, generation: nat, scheduledFor: int)

  datatype Error =
    Exists | Missing | ProjectClosed | BadSchedule | Past | AlreadyRunning | ResultUnsaved | WriteError

  // ---------- the disk ----------

  type Image = Option<Task>

  /**
   * One task file: what a reader sees now, and every content a power loss may leave. A rename whose
   * directory was not synced adds an image; a synced one leaves only itself.
   */
  datatype File = File(visible: Image, possible: set<Image>)

  type Disk = map<string, File>

  const NO_FILE := File(None, {None})

  function FileOf(d: Disk, id: string): File {
    if id in d then d[id] else NO_FILE
  }

  datatype WriteOutcome = Fails | Durable | Unsynced

  /** A task of no project has no file, and writing it always succeeds. */
  function Effective(t: Task, io: WriteOutcome): WriteOutcome {
    if t.project.None? then Durable else io
  }

  /** `persist`. `Fails` is strictly before the rename. */
  function Persisted(d: Disk, t: Task, io: WriteOutcome): Disk {
    if t.project.None? then d
    else match io
      case Fails => d
      case Durable => d[t.id := File(Some(t), {Some(t)})]
      case Unsynced => d[t.id := File(Some(t), FileOf(d, t.id).possible + {Some(t)})]
  }

  /** Removing a file does not sync its directory. */
  function FileRemoved(d: Disk, id: string): Disk {
    d[id := File(None, FileOf(d, id).possible + {None})]
  }

  // ---------- the table ----------

  datatype Table = Table(
    tasks: map<string, Task>, generations: map<string, nat>, pending: map<string, Candidate>,
    closed: set<string>, serial: nat, disk: Disk)

  /** `TaskState::invalidate`. */
  function Invalidated(s: Table, id: string): Table {
    s.(serial := s.serial + 1, generations := s.generations[id := s.serial + 1], pending := s.pending - {id})
  }

  predicate ProjectOpen(s: Table, t: Task) {
    t.project.None? || t.project.value !in s.closed
  }

  /** A write followed by the publication of the written task, as every edit does it. */
  function Edited(s: Table, t: Task, io: WriteOutcome): (Table, Result<Task, Error>) {
    var clean := t.(unsaved := false);
    if Effective(t, io) == Fails then (s, Err(WriteError))
    else
      var t' := clean.(unsaved := Effective(t, io) == Unsynced);
      (Invalidated(s, t.id).(tasks := s.tasks[t.id := t'], disk := Persisted(s.disk, clean, io)), Ok(t'))
  }

  function Upserted(s: Table, t: Task, io: WriteOutcome): (Table, Result<Task, Error>) {
    if ParseSchedule(t.schedule).None? then (s, Err(BadSchedule))
    else if !ProjectOpen(s, t) then (s, Err(ProjectClosed))
    else if t.id in s.tasks then (s, Err(Exists))
    else Edited(s, t, io)
  }

  function Current(s: Table, id: string): Result<Task, Error> {
    if id !in s.tasks then Err(Missing)
    else if !ProjectOpen(s, s.tasks[id]) then Err(ProjectClosed)
    else Ok(s.tasks[id])
  }

  function Rescheduled(t: Task, schedule: ScheduleText, now: int): Result<Task, Error> {
    match ParseSchedule(schedule)
    case None => Err(BadSchedule)
    case Some(kind) =>
      match NextAfter(kind, now)
      case None => Err(Past)
      case Some(next) => Ok(t.(schedule := schedule, nextRun := Some(next)))
  }

  /** The task `update` writes. */
  function UpdateOf(
    s: Table, id: string, name: string, instruction: string, schedule: ScheduleText, now: int
  ): Result<Task, Error> {
    if ParseSchedule(schedule).None? then Err(BadSchedule)
    else match Current(s, id)
      case Err(e) => Err(e)
      case Ok(t) =>
        var rescheduled := if t.schedule != schedule then Rescheduled(t, schedule, now) else Ok(t);
        match rescheduled
        case Err(e) => Err(e)
        case Ok(t') => Ok(t'.(name := name, instruction := instruction))
  }

  /** The task `set_enabled` writes. */
  function EnableOf(s: Table, id: string, enabled: bool, now: int): Result<Task, Error> {
    match Current(s, id)
    case Err(e) => Err(e)
    case Ok(t) =>
      var rescheduled := if enabled && !t.enabled then Rescheduled(t, t.schedule, now) else Ok(t);
      match rescheduled
      case Err(e) => Err(e)
      case Ok(t') => Ok(t'.(enabled := enabled))
  }

  function Updated(s: Table, id: string, name: string, instruction: string, schedule: ScheduleText,
                   now: int, io: WriteOutcome): (Table, Result<Task, Error>)
  {
    match UpdateOf(s, id, name, instruction, schedule, now)
    case Err(e) => (s, Err(e))
    case Ok(t) => Edited(s, t, io)
  }

  function EnabledSet(s: Table, id: string, enabled: bool, now: int, io: WriteOutcome): (Table, Result<Task, Error>) {
    match EnableOf(s, id, enabled, now)
    case Err(e) => (s, Err(e))
    case Ok(t) => Edited(s, t, io)
  }

  function Removed(s: Table, id: string, works: bool): (Table, Result<Option<Task>, Error>) {
    if id !in s.tasks then (s, Ok(None))
    else
      var t := s.tasks[id];
      if t.project.Some? && !works then (s, Err(WriteError))
      else
        var disk := if t.project.Some? then FileRemoved(s.disk, id) else s.disk;
        (Invalidated(s, id).(tasks := s.tasks - {id}, disk := disk), Ok(Some(t)))
  }

  // ---------- deleting a project ----------

  /** A failed deletion may have removed some of the files already. */
  datatype DeleteOutcome = Deleted | DeleteFails(gone: set<string>)

  function TasksOf(s: Table, project: string): set<string> {
    set id | id in s.tasks && s.tasks[id].project == Some(project)
  }

  /** `invalidate` for each id, in the order of iteration. */
  function InvalidatedAll(s: Table, order: seq<string>): Table
    decreases |order|
  {
    if order == [] then s else InvalidatedAll(Invalidated(s, order[0]), order[1..])
  }

  /** `order` visits every member of `ids` once. */
  predicate Visits(order: seq<string>, ids: set<string>) {
    && (forall i, j | 0 <= i < j < |order| :: order[i] != order[j])
    && ids == set i | 0 <= i < |order| :: order[i]
  }

  function WithoutFiles(d: Disk, ids: set<string>): Disk {
    map id | id in d.Keys + ids :: if id in ids then File(None, FileOf(d, id).possible + {None}) else FileOf(d, id)
  }

  /** `delete_project`; `order` is the iteration order of the project's tasks. */
  function ProjectDeleted(
    s: Table, project: string, order: seq<string>, io: DeleteOutcome
  ): (Table, Result<(), Error>) {
    var ids := TasksOf(s, project);
    var s' := InvalidatedAll(s, order);
    match io
    case DeleteFails(gone) =>
      (s'.(closed := s.closed - {project}, disk := WithoutFiles(s.disk, gone * ids)), Err(WriteError))
    case Deleted =>
      (s'.(closed := s.closed + {project}, tasks := s.tasks - ids, disk := WithoutFiles(s.disk, ids)), Ok(()))
  }

  // ---------- claims ----------

  predicate Due(s: Table, id: string, now: int)
    requires id in s.tasks
  {
    var t := s.tasks[id];
    && t.enabled && t.active.None? && !t.unsaved && id !in s.pending && ProjectOpen(s, t)
    && ParseSchedule(t.schedule).Some? && t.nextRun.Some? && t.nextRun.value <= now
  }

  function GenerationOf(s: Table, id: string): nat {
    if id in s.generations then s.generations[id] else 0
  }

  function DueCandidates(s: Table, now: int): map<string, Candidate> {
    map id | id in s.tasks && Due(s, id, now) :: Candidate(id, GenerationOf(s, id), s.tasks[id].nextRun.value)
  }

  /** `collect_due`. */
  function Collected(s: Table, now: int): Table {
    s.(pending := s.pending + DueCandidates(s, now))
  }

  function Released(s: Table, c: Candidate): Table {
    if c.id in s.pending && s.pending[c.id] == c then s.(pending := s.pending - {c.id}) else s
  }

  /** A candidate still entitles to its occurrence. */
  predicate Entitled(s: Table, c: Candidate, now: int)
    requires c.id in s.tasks
  {
    && c.id in s.pending && s.pending[c.id] == c
    && c.id in s.generations && s.generations[c.id] == c.generation
    && s.tasks[c.id].enabled && s.tasks[c.id].nextRun == Some(c.scheduledFor) && c.scheduledFor <= now
  }

  datatype Snapshot = Snapshot(task: Task, run: ActiveRun)

  function NewRun(candidate: Option<Candidate>, runId: RunId, now: int): ActiveRun {
    ActiveRun(runId, if candidate.Some? then OnSchedule else Manual,
              if candidate.Some? then Some(candidate.value.scheduledFor) else None, now)
  }

  function ClaimedTask(t: Task, kind: ScheduleKind, candidate: Option<Candidate>, runId: RunId, now: int): Task
    requires kind.Every? ==> kind.secs > 0
  {
    t.(nextRun := if candidate.Some? then NextAfter(kind, now) else t.nextRun,
       active := Some(NewRun(candidate, runId, now)))
  }

  /** `claim_locked`. */
  function ClaimedLocked(s: Table, id: string, candidate: Option<Candidate>, now: int, runId: RunId,
                         io: WriteOutcome): (Table, Result<Option<Snapshot>, Error>)
    requires candidate.Some? ==> candidate.value.id == id
  {
    if id !in s.tasks then (s, if candidate.Some? then Ok(None) else Err(Missing))
    else
      var t := s.tasks[id];
      if !ProjectOpen(s, t) then (s, Err(ProjectClosed))
      else if t.active.Some? then (s, Err(AlreadyRunning))
      else if t.unsaved then (s, Err(ResultUnsaved))
      else if candidate.Some? && !Entitled(s, candidate.value, now) then (s, Ok(None))
      else match ParseSchedule(t.schedule)
        case None => (s, Err(BadSchedule))
        case Some(kind) =>
          var t' := ClaimedTask(t, kind, candidate, runId, now);
          match Effective(t, io)
          case Fails => (s, Err(WriteError))
          case Unsynced =>
            (s.(tasks := s.tasks[id := t.(unsaved := true)], disk := Persisted(s.disk, t', io)), Err(WriteError))
          case Durable =>
            (s.(tasks := s.tasks[id := t'], disk := Persisted(s.disk, t', io)),
             Ok(Some(Snapshot(t', t'.active.value))))
  }

  /** `claim`: the candidate is released whatever the outcome. */
  function Claimed(s: Table, id: string, candidate: Option<Candidate>, now: int, runId: RunId,
                   io: WriteOutcome): (Table, Result<Option<Snapshot>, Error>)
    requires candidate.Some? ==> candidate.value.id == id
  {
    var (s', r) := ClaimedLocked(s, id, candidate, now, runId, io);
    (if candidate.Some? then Released(s', candidate.value) else s', r)
  }

  // ---------- results ----------

  function HasRun(runs: seq<TaskRun>, id: RunId): bool {
    exists i | 0 <= i < |runs| :: runs[i].runId == Some(id)
  }

  /** `append_result`. */
  function Appended(t: Task, run: TaskRun): Task {
    if run.runId.Some? && HasRun(t.runs, run.runId.value) then t
    else
      var runs := [run] + t.runs;
      t.(lastStatus := Some(run.status), lastSummary := Some(run.summary),
         runs := if |runs| > MAX_TASK_RUNS then runs[..MAX_TASK_RUNS] else runs)
  }

  function FinishedTask(t: Task, runId: RunId, run: TaskRun): Task {
    Appended(t, run.(runId := Some(runId))).(active := None, unsaved := false)
  }

  /** `finish_run`: the result stays in memory even when it cannot be written. */
  function Finished(s: Table, id: string, runId: RunId, run: TaskRun, io: WriteOutcome): (Table, Result<(), Error>) {
    match Current(s, id)
    case Err(_) => (s, Ok(()))
    case Ok(t) =>
      if t.active.None? || t.active.value.runId != runId then
        (s, if HasRun(t.runs, runId) && t.unsaved then Err(ResultUnsaved) else Ok(()))
      else
        var t' := FinishedTask(t, runId, run);
        var saved := Effective(t', io) == Durable;
        (s.(tasks := s.tasks[id := t'.(unsaved := !saved)], disk := Persisted(s.disk, t', io)),
         if saved then Ok(()) else Err(WriteError))
  }

  /** One unsaved task of `retry_unsaved`. */
  function RetriedOne(s: Table, id: string, io: WriteOutcome): Table
    requires id in s.tasks
  {
    var t := s.tasks[id].(unsaved := false);
    if !s.tasks[id].unsaved then s
    else
      s.(tasks := if Effective(t, io) == Durable then s.tasks[id := t] else s.tasks, disk := Persisted(s.disk, t, io))
  }

  // ---------- restart ----------

  function InterruptedRun(active: ActiveRun, now: int): TaskRun {
    TaskRun(Some(active.runId), now, "error", "interrupted", active.source, 0)
  }

  function MissedRun(t: Task, at: int, now: int): TaskRun {
    TaskRun(Some(Missed(t.id, at)), now, "skipped", "missed while offline", OnSchedule, 0)
  }

  /** `recover_task`: the recovered task, and whether it has to be written. */
  function Recovered(loaded: Task, now: int): (Task, bool) {
    var t := loaded.(unsaved := false);
    if t.active.Some? then
      var t' := Appended(t.(active := None), InterruptedRun(t.active.value, now));
      (if StartsWithOnce(t.schedule) && (t.nextRun.None? || t.nextRun.value <= now) then t'.(nextRun := None)
        else t', true)
    else if !t.enabled || t.nextRun.None? then (t, false)
    else match ParseSchedule(t.schedule)
      case Some(Once(_)) =>
        if t.nextRun.value <= now then (Appended(t, MissedRun(t, t.nextRun.value, now)).(nextRun := None), true)
        else (t, false)
      case Some(Cron(instants)) =>
        (match CorrectedCron(instants, now, t.nextRun.value)
         case Some(next) => (t.(nextRun := Some(next)), true)
         case None => (t, false))
      case _ => (t, false)
  }

  /** The task a new process holds for a file, and the file afterwards. */
  function RestoredTask(t: Task, now: int, io: WriteOutcome): Task {
    var (t', changed) := Recovered(t, now);
    t'.(unsaved := changed && Effective(t', io) != Durable)
  }

  function RestoredDisk(d: Disk, t: Task, now: int, io: WriteOutcome): Disk {
    var (t', changed) := Recovered(t, now);
    if changed then Persisted(d, t', io) else d
  }

  function Loadable(d: Disk): set<string> {
    set id | id in d && d[id].visible.Some?
  }

  function OutcomeFor(ios: map<string, WriteOutcome>, id: string): WriteOutcome {
    if id in ios then ios[id] else Durable
  }

  /** One file of the startup scan. */
  function RestoredOne(s: Table, id: string, now: int, ios: map<string, WriteOutcome>): Table {
    match FileOf(s.disk, id).visible
    case None => s
    case Some(t) =>
      Invalidated(s, id).(tasks := s.tasks[id := RestoredTask(t, now, OutcomeFor(ios, id))],
                          disk := RestoredDisk(s.disk, t, now, OutcomeFor(ios, id)))
  }

  function RestoredAll(s: Table, order: seq<string>, now: int, ios: map<string, WriteOutcome>): Table
    decreases |order|
  {
    if order == [] then s else RestoredAll(RestoredOne(s, order[0], now, ios), order[1..], now, ios)
  }

  /** `initialize_locked` in a new process. */
  function Restarted(d: Disk, order: seq<string>, now: int, ios: map<string, WriteOutcome>): Table {
    RestoredAll(Table(map[], map[], map[], {}, 0, d), order, now, ios)
  }
}
