/** The ledger of runs: one record per run, whatever finishes it. */
module TaskRuns {
  import opened Wrappers
  import opened Schedules
  import opened Tasks
  import opened TaskSafety
  import TaskDurability

  // ---------- every reachable state ----------

  /** At most 20 records with distinct run ids in every task and every image, and at most one active run. */
  lemma {:induction false} LedgersHold(events: seq<Event>)
    requires AllowedRun(EMPTY, events)
    ensures var t := Run(EMPTY, events).table;
      && (forall id | id in t.tasks ::
           |t.tasks[id].runs| <= 20 && DistinctIds(t.tasks[id].runs)
           && (t.tasks[id].active.Some? ==> !HasRun(t.tasks[id].runs, t.tasks[id].active.value.runId)))
      && (forall id, image | id in t.disk && image in t.disk[id].possible && image.Some? ::
           |image.value.runs| <= 20 && DistinctIds(image.value.runs))
  {
    RunKeepsInv(EMPTY, events);
    var s := Run(EMPTY, events);
    hide AllowedRun, Run, AfterClaims;
    forall id | id in s.table.disk ensures FileOk(s.book, id, s.table.disk[id]) {}
  }

  lemma {:induction false} AtMostOneActive(events: seq<Event>, a: string, c: string)
    requires AllowedRun(EMPTY, events)
    requires var t := Run(EMPTY, events).table.tasks; a in t && c in t && t[a].active.Some? && t[c].active.Some?
    ensures a == c
  {
    RunKeepsInv(EMPTY, events);
    hide AllowedRun, Run, TaskOk, FileOk;
  }

  // ---------- results ----------

  function Newest(runs: seq<TaskRun>): seq<TaskRun> {
    if |runs| > 20 then runs[..20] else runs
  }

  /** How often a run is in a ledger. */
  function Records(runs: seq<TaskRun>, id: RunId): nat {
    if runs == [] then 0 else (if runs[0].runId == Some(id) then 1 else 0) + Records(runs[1..], id)
  }

  lemma {:induction false} RecordsNone(runs: seq<TaskRun>, id: RunId)
    ensures Records(runs, id) == 0 <==> !HasRun(runs, id)
  {
    if runs != [] {
      RecordsNone(runs[1..], id);
      if HasRun(runs[1..], id) {
        var i :| 0 <= i < |runs[1..]| && runs[1..][i].runId == Some(id);
        assert runs[i + 1].runId == Some(id);
      }
      if HasRun(runs, id) && runs[0].runId != Some(id) {
        var i :| 0 <= i < |runs| && runs[i].runId == Some(id);
        assert runs[1..][i - 1].runId == Some(id);
      }
    }
  }

  /** A ledger with distinct ids records a run once, or not at all. */
  lemma {:induction false} RecordedOnce(runs: seq<TaskRun>, id: RunId)
    requires DistinctIds(runs)
    ensures Records(runs, id) == if HasRun(runs, id) then 1 else 0
  {
    RecordsNone(runs, id);
    if runs != [] {
      assert DistinctIds(runs[1..]);
      RecordedOnce(runs[1..], id);
      if runs[0].runId == Some(id) {
        RecordsNone(runs[1..], id);
        assert !HasRun(runs[1..], id);
      }
    }
  }

  /**
   * `finish_run` of the active run adds its record, once and in front, and changes nothing a user can edit:
   * only results, the active run and the unsaved mark. Every other call leaves the table as it is, so it
   * revives no removed task and records no run twice.
   */
  lemma {:induction false} FinishMergesResult(
    s: Table, id: string, runId: RunId, run: TaskRun, io: WriteOutcome, nextId: nat
  )
    requires id in s.tasks ==> s.tasks[id].id == id && LedgerOk(s.tasks[id], nextId)
    ensures var s' := Finished(s, id, runId, run, io).0;
      if id in s.tasks && ProjectOpen(s, s.tasks[id]) && s.tasks[id].active.Some?
        && s.tasks[id].active.value.runId == runId then
        && s'.tasks.Keys == s.tasks.Keys && (forall k | k in s.tasks && k != id :: s'.tasks[k] == s.tasks[k])
        && var (t, t') := (s.tasks[id], s'.tasks[id]);
          && t'.runs == Newest([run.(runId := Some(runId))] + t.runs)
          && t'.lastStatus == Some(run.status) && t'.lastSummary == Some(run.summary) && t'.active == None
          && t' == t.(runs := t'.runs, lastStatus := t'.lastStatus, lastSummary := t'.lastSummary, active := None,
            unsaved := t'.unsaved)
          && (t'.unsaved <==> Effective(t, io) != Durable)
          && Records(t'.runs, runId) == 1
      else s' == s
  {
    if id in s.tasks && ProjectOpen(s, s.tasks[id]) && s.tasks[id].active.Some?
      && s.tasks[id].active.value.runId == runId {
      var t, added := s.tasks[id], run.(runId := Some(runId));
      RecordsNone(t.runs, runId);
      AppendedFirst(t, added, runId);
      hide HasRun, Appended, Persisted, Records, Newest, LedgerOk;
    }
  }

  /** A run that is not recorded yet comes first, and the ledger stays within its bound. */
  lemma {:induction false} AppendedFirst(t: Task, run: TaskRun, id: RunId)
    requires run.runId == Some(id) && !HasRun(t.runs, id)
    ensures var t' := Appended(t, run);
      && t'.runs == Newest([run] + t.runs) && Records(t'.runs, id) == 1
      && t' == t.(runs := t'.runs, lastStatus := Some(run.status), lastSummary := Some(run.summary))
  {
    RecordsNone(t.runs, id);
    hide HasRun;
    assert ([run] + t.runs)[1..] == t.runs;
    TruncationCounts([run] + t.runs, id);
  }

  lemma {:induction false} TruncationCounts(runs: seq<TaskRun>, id: RunId)
    requires runs != [] && runs[0].runId == Some(id) && Records(runs, id) == 1
    ensures Records(Newest(runs), id) == 1
  {
    RecordsNone(runs[1..], id);
    var kept := Newest(runs);
    forall i | 0 <= i < |kept[1..]| ensures kept[1..][i].runId != Some(id) {
      assert kept[1..][i] == runs[1..][i];
    }
    RecordsNone(kept[1..], id);
  }

  /** Finishing the same run again, whatever the second result says, changes nothing. */
  lemma {:induction false} FinishTwice(
    s: Table, id: string, runId: RunId, run: TaskRun, io: WriteOutcome, again: TaskRun, io': WriteOutcome
  )
    requires id in s.tasks ==> s.tasks[id].id == id
    ensures var s' := Finished(s, id, runId, run, io).0; Finished(s', id, runId, again, io').0 == s'
  {
    hide HasRun;
  }

  /**
   * Startup turns an active run into one record in front of the ledger. A repeating task keeps its next
   * occurrence, a one-shot that is over loses it, so the interrupted work is not started again by itself.
   */
  lemma {:induction false} RecoveryRecordsRun(t: Task, now: int, nextId: nat)
    requires t.active.Some? && LedgerOk(t, nextId)
    ensures var (t', changed) := Recovered(t, now);
      && changed && t'.active == None && !t'.unsaved
      && t'.runs == Newest([InterruptedRun(t.active.value, now)] + t.runs)
      && Records(t'.runs, t.active.value.runId) == 1
      && t'.name == t.name && t'.instruction == t.instruction && t'.schedule == t.schedule && t'.enabled == t.enabled
      && t'.nextRun == (if StartsWithOnce(t.schedule) && t.nextRun.Some? && t.nextRun.value <= now then None
        else t.nextRun)
  {
    var id := t.active.value.runId;
    RecordsNone(t.runs, id);
    hide HasRun;
    TruncationCounts([InterruptedRun(t.active.value, now)] + t.runs, id);
    assert ([InterruptedRun(t.active.value, now)] + t.runs)[1..] == t.runs;
  }

  // ---------- the whole cycle ----------

  /** What is due is collected; its candidate is good for one claim, which moves the task to its next occurrence. */
  lemma {:induction false} DueIsClaimed(s: Table, id: string, now: int, later: int, a: RunId)
    requires TableOk(s) && id in s.tasks && s.tasks[id].id == id && Due(s, id, now) && now <= later
    ensures id in Collected(s, now).pending
    ensures var c := Collected(s, now).pending[id];
      var (s1, r) := Claimed(Collected(s, now), id, Some(c), later, a, Durable);
      && r.Ok? && r.value.Some? && r.value.value.run == ActiveRun(a, OnSchedule, s.tasks[id].nextRun, later)
      && s1.tasks == s.tasks[id := r.value.value.task] && id !in s1.pending
      && r.value.value.task == s.tasks[id].(active := Some(r.value.value.run), nextRun := r.value.value.task.nextRun)
      && Fires(s.tasks[id].schedule, later, r.value.value.task.nextRun)
  {
    ParseIff(s.tasks[id].schedule);
    NextAfterFires(s.tasks[id].schedule, later);
    var c := Collected(s, now).pending[id];
    assert c == Candidate(id, s.generations[id], s.tasks[id].nextRun.value);
    assert Collected(s, now).tasks == s.tasks && Collected(s, now).generations == s.generations;
    hide Collected, DueCandidates;
  }

  /** While the run is active a second claim is an error; once it is finished the used candidate is worth nothing. */
  lemma {:induction false} CandidateIsSpent(
    s: Table, c: Candidate, a: RunId, run: TaskRun, io: WriteOutcome, later: int, b: RunId, io': WriteOutcome
  )
    requires c.id in s.tasks && s.tasks[c.id].id == c.id && c.id !in s.pending && ProjectOpen(s, s.tasks[c.id])
    requires s.tasks[c.id].active.Some? && s.tasks[c.id].active.value.runId == a
    ensures Claimed(s, c.id, Some(c), later, b, io').1 == Err(AlreadyRunning)
    ensures var s' := Finished(s, c.id, a, run, io).0;
      Claimed(s', c.id, Some(c), later, b, io').1 == if s'.tasks[c.id].unsaved then Err(ResultUnsaved) else Ok(None)
  {
    hide HasRun, Appended;
    assert s.tasks[c.id].id == FinishedTask(s.tasks[c.id], a, run).id by {
      AppendedIdentity(s.tasks[c.id], run.(runId := Some(a)));
    }
    AppendedIdentity(s.tasks[c.id], run.(runId := Some(a)));
  }

  lemma {:induction false} AppendedIdentity(t: Task, run: TaskRun)
    ensures var t' := Appended(t, run); t'.id == t.id && t'.project == t.project
  {
  }

  // ---------- a run that is over stays over ----------

  /** A task value that does not hold the run as active and records it at most `c` times. */
  predicate Quiet(t: Task, id: RunId, c: nat) {
    (t.active.None? || t.active.value.runId != id) && Records(t.runs, id) <= c
  }

  /** Every task and every image is quiet about the run, but possibly those of the task `own`. */
  ghost predicate Over(t: Table, id: RunId, own: Option<string>, c: nat) {
    && (forall k | k in t.tasks && own != Some(k) :: Quiet(t.tasks[k], id, c))
    && OverOnDisk(t.disk, id, own, c)
  }

  ghost predicate OverOnDisk(d: Disk, id: RunId, own: Option<string>, c: nat) {
    forall k, image | k in d && own != Some(k) && image in d[k].possible && image.Some? :: Quiet(image.value, id, c)
  }

  predicate MayHold(t: Task, id: RunId, own: Option<string>, c: nat) {
    own == Some(t.id) || Quiet(t, id, c)
  }

  lemma {:induction false} RecordsCut(runs: seq<TaskRun>, n: nat, id: RunId)
    requires n <= |runs|
    ensures Records(runs[..n], id) <= Records(runs, id)
  {
    if n > 0 {
      RecordsCut(runs[1..], n - 1, id);
      assert runs[..n][1..] == runs[1..][..n - 1];
    }
  }

  /** Another run's record leaves the count as it is, or lowers it by dropping the oldest. */
  lemma {:induction false} AppendedQuiet(t: Task, run: TaskRun, id: RunId, c: nat)
    requires Records(t.runs, id) <= c && run.runId != Some(id)
    ensures Records(Appended(t, run).runs, id) <= c
  {
    var runs := [run] + t.runs;
    assert runs[1..] == t.runs;
    if |runs| > MAX_TASK_RUNS {
      RecordsCut(runs, MAX_TASK_RUNS, id);
    }
    hide HasRun;
  }

  lemma {:induction false} PersistOver(d: Disk, t: Task, io: WriteOutcome, id: RunId, own: Option<string>, c: nat)
    requires OverOnDisk(d, id, own, c) && MayHold(t, id, own, c)
    ensures OverOnDisk(Persisted(d, t, io), id, own, c)
  {
    hide Quiet;
  }

  lemma {:induction false} EditedOver(s: Table, t: Task, io: WriteOutcome, id: RunId, own: Option<string>, c: nat)
    requires Over(s, id, own, c) && MayHold(t, id, own, c)
    ensures Over(Edited(s, t, io).0, id, own, c)
  {
    var clean := t.(unsaved := false);
    assert MayHold(clean, id, own, c) && forall u :: MayHold(t.(unsaved := u), id, own, c);
    PersistOver(s.disk, clean, io, id, own, c);
    hide Persisted, OverOnDisk, Quiet;
  }

  lemma {:induction false} ReworkedHolds(s: Table, t: Task, now: int, id: RunId, own: Option<string>, c: nat)
    requires t.id in s.tasks && Over(s, id, own, c) && Reworked(s.tasks[t.id], t, now)
    ensures MayHold(t, id, own, c)
  {
    hide OverOnDisk;
  }

  lemma {:induction false} UpdatesOver(
    s: Table, k: string, name: string, instruction: string, schedule: ScheduleText, enabled: bool, now: int,
    io: WriteOutcome, id: RunId, own: Option<string>, c: nat
  )
    requires Over(s, id, own, c) && (k in s.tasks ==> s.tasks[k].id == k)
    ensures Over(Updated(s, k, name, instruction, schedule, now, io).0, id, own, c)
    ensures Over(EnabledSet(s, k, enabled, now, io).0, id, own, c)
  {
    EditsRework(s, k, name, instruction, schedule, enabled, now);
    hide Edited, Over, UpdateOf, EnableOf, Reworked, MayHold;
    var update, enable := UpdateOf(s, k, name, instruction, schedule, now), EnableOf(s, k, enabled, now);
    if update.Ok? {
      ReworkedHolds(s, update.value, now, id, own, c);
      EditedOver(s, update.value, io, id, own, c);
    }
    if enable.Ok? {
      ReworkedHolds(s, enable.value, now, id, own, c);
      EditedOver(s, enable.value, io, id, own, c);
    }
  }

  lemma {:induction false} DeletedOver(
    s: Table, project: string, order: seq<string>, io: DeleteOutcome, id: RunId, own: Option<string>, c: nat
  )
    requires Over(s, id, own, c)
    ensures Over(ProjectDeleted(s, project, order, io).0, id, own, c)
  {
    TaskDurability.InvalidatedAllFrame(s, order);
    hide InvalidatedAll, Quiet;
  }

  lemma {:induction false} FinishedHolds(
    s: Table, k: string, runId: RunId, run: TaskRun, id: RunId, own: Option<string>, c: nat
  )
    requires Over(s, id, own, c) && k in s.tasks && s.tasks[k].id == k
    requires s.tasks[k].active.Some? && s.tasks[k].active.value.runId == runId
    ensures forall u :: MayHold(FinishedTask(s.tasks[k], runId, run).(unsaved := u), id, own, c)
  {
    hide OverOnDisk, HasRun;
    var t := s.tasks[k];
    assert FinishedTask(t, runId, run).id == k;
    if own != Some(k) {
      AppendedQuiet(t, run.(runId := Some(runId)), id, c);
    }
  }

  lemma {:induction false} FinishedOver(
    s: Table, k: string, runId: RunId, run: TaskRun, io: WriteOutcome, id: RunId, own: Option<string>, c: nat
  )
    requires Over(s, id, own, c) && (k in s.tasks ==> s.tasks[k].id == k)
    ensures Over(Finished(s, k, runId, run, io).0, id, own, c)
  {
    if k in s.tasks && s.tasks[k].active.Some? && s.tasks[k].active.value.runId == runId {
      FinishedHolds(s, k, runId, run, id, own, c);
      var t' := FinishedTask(s.tasks[k], runId, run);
      AppendedIdentity(s.tasks[k], run.(runId := Some(runId)));
      hide Appended, Persisted, Over, MayHold, HasRun;
      assert t' == t'.(unsaved := t'.unsaved) && t'.id == k;
      PutOver(s, t', io, id, own, c);
    }
    hide FinishedTask, Persisted, Over, HasRun;
  }

  lemma {:induction false} PutOver(s: Table, t: Task, io: WriteOutcome, id: RunId, own: Option<string>, c: nat)
    requires Over(s, id, own, c) && forall u :: MayHold(t.(unsaved := u), id, own, c)
    ensures forall u ::
      Over(s.(tasks := s.tasks[t.id := t.(unsaved := u)], disk := Persisted(s.disk, t, io)), id, own, c)
  {
    assert t == t.(unsaved := t.unsaved);
    PersistOver(s.disk, t, io, id, own, c);
    hide Persisted, OverOnDisk, Quiet;
    assert forall u :: t.(unsaved := u).id == t.id && (own == Some(t.id) || Quiet(t.(unsaved := u), id, c));
  }

  lemma {:induction false} RetriedOver(s: Table, k: string, io: WriteOutcome, id: RunId, own: Option<string>, c: nat)
    requires Over(s, id, own, c) && k in s.tasks && s.tasks[k].id == k
    ensures Over(RetriedOne(s, k, io), id, own, c)
  {
    PersistOver(s.disk, s.tasks[k].(unsaved := false), io, id, own, c);
    hide Persisted, OverOnDisk;
  }

  lemma {:induction false} ClaimLockedOver(
    s: Table, k: string, from: Option<Candidate>, now: int, runId: RunId, io: WriteOutcome,
    id: RunId, own: Option<string>, c: nat
  )
    requires Over(s, id, own, c) && runId != id && (from.Some? ==> from.value.id == k)
    requires k in s.tasks ==> s.tasks[k].id == k
    ensures Over(ClaimedLocked(s, k, from, now, runId, io).0, id, own, c)
  {
    ClaimCases(s, k, from, now, runId, io);
    hide ClaimedLocked;
    if Claimable(s, k) {
      var t' := ClaimOf(s, k, from, now, runId);
      assert MayHold(t', id, own, c) && MayHold(s.tasks[k].(unsaved := true), id, own, c) && t'.id == k;
      PersistOver(s.disk, t', io, id, own, c);
      hide Persisted, OverOnDisk, Quiet, ClaimOf, Claimable;
    }
  }

  lemma {:induction false} ClaimOver(
    s: Table, k: string, from: Option<Candidate>, now: int, runId: RunId, io: WriteOutcome,
    id: RunId, own: Option<string>, c: nat
  )
    requires Over(s, id, own, c) && runId != id && (from.Some? ==> from.value.id == k)
    requires (k in s.tasks ==> s.tasks[k].id == k)
    ensures Over(Claimed(s, k, from, now, runId, io).0, id, own, c)
  {
    hide ClaimedLocked, OverOnDisk, Quiet;
    ClaimLockedOver(s, k, from, now, runId, io, id, own, c);
  }

  lemma {:induction false} RecoveredQuiet(t: Task, now: int, n: nat, c: nat)
    requires Quiet(t, Generated(n), c)
    ensures Quiet(Recovered(t, now).0, Generated(n), c)
  {
    if t.active.Some? {
      AppendedQuiet(t.(unsaved := false, active := None), InterruptedRun(t.active.value, now), Generated(n), c);
    } else if t.nextRun.Some? {
      AppendedQuiet(t.(unsaved := false), MissedRun(t.(unsaved := false), t.nextRun.value, now), Generated(n), c);
    }
    hide Appended, HasRun, Records;
  }

  lemma {:induction false} RestoredHolds(
    t: Task, now: int, io: WriteOutcome, n: nat, own: Option<string>, c: nat
  )
    requires own == Some(t.id) || Quiet(t, Generated(n), c)
    ensures MayHold(Recovered(t, now).0, Generated(n), own, c)
    ensures MayHold(RestoredTask(t, now, io), Generated(n), own, c)
    ensures Recovered(t, now).0.id == t.id && RestoredTask(t, now, io).id == t.id
  {
    if own != Some(t.id) {
      RecoveredQuiet(t, now, n, c);
    }
    assert Recovered(t, now).0.id == t.id;
    hide Recovered;
  }

  lemma {:induction false} RestoredOneOver(
    b: Book, s: Table, k: string, now: int, ios: map<string, WriteOutcome>, n: nat, own: Option<string>, c: nat
  )
    requires Over(s, Generated(n), own, c) && DiskOk(b, s.disk)
    ensures Over(RestoredOne(s, k, now, ios), Generated(n), own, c)
  {
    if k in s.disk && s.disk[k].visible.Some? {
      assert FileOk(b, k, s.disk[k]);
      var t, io := s.disk[k].visible.value, OutcomeFor(ios, k);
      RestoredHolds(t, now, io, n, own, c);
      hide Recovered, Quiet, RestoredTask, FileOk, DiskOk;
      PersistOver(s.disk, Recovered(t, now).0, io, Generated(n), own, c);
      hide Persisted, OverOnDisk;
    }
  }

  lemma {:induction false} RestoredAllOver(
    b: Book, s: Table, order: seq<string>, now: int, ios: map<string, WriteOutcome>, n: nat, own: Option<string>, c: nat
  )
    requires Over(s, Generated(n), own, c) && BookOk(b) && SoundTable(b, None, s) && now >= b.clock && s.closed == {}
    ensures Over(RestoredAll(s, order, now, ios), Generated(n), own, c)
    decreases |order|
  {
    if order != [] {
      RestoredOneKeeps(b, s, order[0], now, ios);
      RestoredOneOver(b, s, order[0], now, ios, n, own, c);
      hide RestoredOne, SoundTable, BookOk, Over;
      RestoredAllOver(b, RestoredOne(s, order[0], now, ios), order[1..], now, ios, n, own, c);
    }
  }

  lemma {:induction false} SurvivorsOver(s: System, e: Event, id: RunId, own: Option<string>, c: nat)
    requires e.Restart? && Allowed(s, e) && OverOnDisk(s.table.disk, id, own, c)
    ensures OverOnDisk(Survivors(s.table.disk, e.crash), id, own, c)
  {
    hide Quiet;
  }

  lemma {:induction false} RestartOver(s: System, e: Event, n: nat, own: Option<string>, c: nat)
    requires Inv(s) && Allowed(s, e) && e.Restart? && Over(s.table, Generated(n), own, c)
    ensures Over(Step(s, e).table, Generated(n), own, c)
  {
    SurvivorsOk(s, e);
    SurvivorsOver(s, e, Generated(n), own, c);
    var blank := Table(map[], map[], map[], {}, 0, Survivors(s.table.disk, e.crash));
    assert SoundTable(s.book, None, blank) && Over(blank, Generated(n), own, c) by {
      hide TaskOk, FileOk, Quiet;
    }
    hide Recovered, RestoredAll, SoundTable, Over, Survivors;
    RestoredAllOver(s.book, blank, e.order, e.now, e.ios, n, own, c);
  }

  lemma {:induction false} UpsertedOver(s: Table, t: Task, io: WriteOutcome, id: RunId, own: Option<string>, c: nat)
    requires Over(s, id, own, c) && t.runs == [] && t.active.None?
    ensures Over(Upserted(s, t, io).0, id, own, c)
  {
    BlankIsQuiet(t, id, c);
    assert MayHold(t, id, own, c);
    hide Over, Edited;
    EditedOver(s, t, io, id, own, c);
  }

  lemma {:induction false} RemovedOver(s: Table, k: string, works: bool, id: RunId, own: Option<string>, c: nat)
    requires Over(s, id, own, c)
    ensures Over(Removed(s, k, works).0, id, own, c)
  {
    hide Quiet;
  }

  lemma {:induction false} EditStepOver(s: System, e: Event, id: RunId, own: Option<string>, c: nat)
    requires Inv(s) && Allowed(s, e) && Over(s.table, id, own, c)
    requires e.Upsert? || e.Update? || e.SetEnabled? || e.Remove? || e.DeleteProject?
    ensures Over(Step(s, e).table, id, own, c) && Step(s, e).book.nextId == s.book.nextId
  {
    var t := s.table;
    assert forall k | k in t.tasks :: t.tasks[k].id == k;
    hide Inv, Over, Updated, EnabledSet, ProjectDeleted, Upserted, Removed;
    match e
    case Upsert(task, io) => UpsertedOver(t, task.(birth := s.book.nextBirth), io, id, own, c);
    case Update(k, name, instruction, schedule, now, io) =>
      UpdatesOver(t, k, name, instruction, schedule, true, now, io, id, own, c);
    case SetEnabled(k, enabled, now, io) =>
      UpdatesOver(t, k, "", "", BadText(false), enabled, now, io, id, own, c);
    case Remove(k, works) => RemovedOver(t, k, works, id, own, c);
    case DeleteProject(project, order, outcome) => DeletedOver(t, project, order, outcome, id, own, c);
  }

  lemma {:induction false} RunStepOver(s: System, e: Event, n: nat, own: Option<string>, c: nat)
    requires Inv(s) && Allowed(s, e) && n < s.book.nextId && Over(s.table, Generated(n), own, c)
    requires e.Collect? || e.Release? || e.Claim? || e.Finish? || e.Retry?
    ensures Over(Step(s, e).table, Generated(n), own, c) && n < Step(s, e).book.nextId
  {
    var b, t, id := s.book, s.table, Generated(n);
    assert forall k | k in t.tasks :: t.tasks[k].id == k;
    if e.Claim? {
      ClaimStep(s, e);
      hide Inv, Over, Claimed, Step, Allowed;
      ClaimOver(t, e.id, e.from, e.now, Generated(b.nextId), e.io, id, own, c);
    } else if e.Finish? {
      hide Inv, Over, Finished;
      FinishedOver(t, e.id, e.runId, e.run, e.io, id, own, c);
    } else if e.Retry? {
      hide Inv, Over, RetriedOne;
      if e.id in t.tasks {
        RetriedOver(t, e.id, e.io, id, own, c);
      }
    } else {
      hide Inv, Quiet, Due;
    }
  }

  /** Whatever the step, crashes included: who was quiet about a run that has been handed out stays so. */
  lemma {:induction false} StepKeepsOver(s: System, e: Event, n: nat, own: Option<string>, c: nat)
    requires Inv(s) && Allowed(s, e) && n < s.book.nextId && Over(s.table, Generated(n), own, c)
    ensures Over(Step(s, e).table, Generated(n), own, c) && n < Step(s, e).book.nextId
  {
    if e.Restart? {
      RestartOver(s, e, n, own, c);
      hide Inv, Over, Restarted;
    } else if e.Collect? || e.Release? || e.Claim? || e.Finish? || e.Retry? {
      hide Inv, Over, Allowed, Step;
      RunStepOver(s, e, n, own, c);
    } else {
      hide Inv, Over, Allowed, Step;
      EditStepOver(s, e, Generated(n), own, c);
    }
  }

  lemma {:induction false} BlankIsQuiet(t: Task, id: RunId, c: nat)
    requires t.runs == [] && t.active.None?
    ensures Quiet(t, id, c)
  {
  }

  lemma {:induction false} RunKeepsOver(s: System, events: seq<Event>, n: nat, own: Option<string>, c: nat)
    requires Inv(s) && AllowedRun(s, events) && n < s.book.nextId && Over(s.table, Generated(n), own, c)
    ensures Over(Run(s, events).table, Generated(n), own, c)
    decreases |events|
  {
    if events != [] {
      StepKeepsInv(s, events[0]);
      StepKeepsOver(s, events[0], n, own, c);
      hide Inv, Over, Step, Allowed;
      RunKeepsOver(Step(s, events[0]), events[1..], n, own, c);
    }
  }

  // ---------- from the claim to the end of a run ----------

  lemma {:induction false} NotYetRun(b: Book, t: Task)
    requires TaskOk(b, t)
    ensures Quiet(t, Generated(b.nextId), 0)
  {
    RecordsNone(t.runs, Generated(b.nextId));
  }

  /** No task and no image knows the next run id. */
  lemma {:induction false} NextIdIsUnknown(s: System)
    requires Inv(s)
    ensures Over(s.table, Generated(s.book.nextId), None, 0)
  {
    forall t | TaskOk(s.book, t) ensures Quiet(t, Generated(s.book.nextId), 0) {
      NotYetRun(s.book, t);
    }
    hide TaskOk, Quiet;
    forall k | k in s.table.disk ensures FileOk(s.book, k, s.table.disk[k]) {}
  }

  lemma {:induction false} HandsNextId(s: System, e: Event)
    requires Allowed(s, e) && e.Claim? && Hands(s, e)
    ensures ClaimOutcome(s, e).1.value.value.run.runId == Generated(s.book.nextId)
  {
    ClaimCases(s.table, e.id, e.from, e.now, Generated(s.book.nextId), e.io);
    hide ClaimedLocked, Persisted;
  }

  lemma {:induction false} ExemptOne(t: Table, id: RunId, own: string)
    requires Over(t, id, None, 0)
    ensures Over(t, id, Some(own), 0)
  {
    hide Quiet;
  }

  /** A run that is handed out belongs to its task alone: nobody else holds it or records it. */
  lemma {:induction false} ClaimOwnsRun(s: System, e: Event)
    requires Inv(s) && Allowed(s, e) && e.Claim? && Hands(s, e)
    ensures Over(Step(s, e).table, Generated(s.book.nextId), Some(e.id), 0)
    ensures Step(s, e).book.nextId == s.book.nextId + 1
    ensures ClaimOutcome(s, e).1.value.value.run.runId == Generated(s.book.nextId)
  {
    NextIdIsUnknown(s);
    HandedOut(s, e);
    HandsNextId(s, e);
    var t := ClaimOutcome(s, e).1.value.value.task;
    hide TaskOk, FileOk, Quiet, Inv, ClaimOutcome, Hands, OverOnDisk, Persisted;
    ExemptOne(s.table, Generated(s.book.nextId), e.id);
    PersistOver(s.table.disk, t, Durable, Generated(s.book.nextId), Some(e.id), 0);
  }

  /** The task is in memory and durable on disk, and is done with the run: then so is everybody. */
  lemma {:induction false} SettledIsOver(s: System, n: nat, own: string)
    requires Inv(s) && Over(s.table, Generated(n), Some(own), 0) && own in s.table.tasks
    requires var t := s.table.tasks[own];
      && t.project.Some? && !t.unsaved && TaskDurability.OnDisk(s.table.disk, own, t)
      && (t.active.None? || t.active.value.runId != Generated(n))
    ensures Over(s.table, Generated(n), None, 1)
  {
    var t := s.table.tasks[own];
    assert TaskOk(s.book, t);
    RecordedOnce(t.runs, Generated(n));
    assert Quiet(t, Generated(n), 1);
    hide TaskOk, FileOk, HasRun, Records;
  }

  /** After a confirmed result of a project task its run is over everywhere. */
  lemma {:induction false} ConfirmedFinishEnds(s: System, e: Event, n: nat)
    requires Inv(s) && Allowed(s, e) && e.Finish? && e.runId == Generated(n) && e.io == Durable && n < s.book.nextId
    requires Over(s.table, Generated(n), Some(e.id), 0)
    requires e.id in s.table.tasks && s.table.tasks[e.id].project.Some?
    requires s.table.tasks[e.id].active.Some? && s.table.tasks[e.id].active.value.runId == Generated(n)
    ensures Over(Step(s, e).table, Generated(n), None, 1)
  {
    StepKeepsInv(s, e);
    StepKeepsOver(s, e, n, Some(e.id), 0);
    FinishedSettles(s.table, e.id, e.runId, e.run) by {
      hide TaskOk, FileOk, Over;
    }
    hide Finished, Inv, Over, TaskDurability.OnDisk;
    SettledIsOver(Step(s, e), n, e.id);
  }

  lemma {:induction false} FinishedSettles(s: Table, id: string, runId: RunId, run: TaskRun)
    requires id in s.tasks && s.tasks[id].id == id && s.tasks[id].project.Some? && ProjectOpen(s, s.tasks[id])
    requires s.tasks[id].active.Some? && s.tasks[id].active.value.runId == runId
    ensures var s' := Finished(s, id, runId, run, Durable).0;
      && id in s'.tasks && TaskDurability.OnDisk(s'.disk, id, s'.tasks[id])
      && s'.tasks[id].active.None? && !s'.tasks[id].unsaved && s'.tasks[id].project.Some?
  {
    hide HasRun;
  }

  lemma {:induction false} RestartSettles(s: System, e: Event, n: nat, own: string)
    requires Inv(s) && Allowed(s, e) && e.Restart?
    requires own in Survivors(s.table.disk, e.crash) && OutcomeFor(e.ios, own) == Durable
    requires var image := Survivors(s.table.disk, e.crash)[own].visible;
      image.Some? && image.value.active.Some? && image.value.active.value.runId == Generated(n)
    ensures var t := Step(s, e).table;
      && own in t.tasks && TaskDurability.OnDisk(t.disk, own, t.tasks[own])
      && t.tasks[own].active.None? && !t.tasks[own].unsaved && t.tasks[own].project.Some?
  {
    var d := Survivors(s.table.disk, e.crash);
    var blank := Table(map[], map[], map[], {}, 0, d);
    SurvivorsOk(s, e);
    assert FileOk(s.book, own, d[own]);
    var t := d[own].visible.value;
    RecoveryRecordsRun(t, e.now, s.book.nextId);
    assert !TaskDurability.TakenOnTrust(d, own, e.now);
    assert Recovered(t, e.now).0.project == t.project;
    assert Visits(e.order, Loadable(d)) && own in Loadable(d);
    assert own in e.order;
    hide TaskOk, FileOk, RestoredAll, TaskDurability.OnDisk, Recovered, Allowed, Survivors, TaskDurability.TakenOnTrust;
    TaskDurability.RestoredAllAt(s.book, blank, e.order, own, e.now, e.ios);
  }

  /** So is the run that a restart finds active in the file it reads and whose recovery it writes with confirmation. */
  lemma {:induction false} ConfirmedRestartEnds(s: System, e: Event, n: nat, own: string)
    requires Inv(s) && Allowed(s, e) && e.Restart? && n < s.book.nextId && Over(s.table, Generated(n), Some(own), 0)
    requires own in Survivors(s.table.disk, e.crash) && OutcomeFor(e.ios, own) == Durable
    requires var image := Survivors(s.table.disk, e.crash)[own].visible;
      image.Some? && image.value.active.Some? && image.value.active.value.runId == Generated(n)
    ensures Over(Step(s, e).table, Generated(n), None, 1)
  {
    RestartSettles(s, e, n, own);
    hide Inv, Over, Step, Allowed, Survivors, TaskDurability.OnDisk;
    StepKeepsInv(s, e);
    StepKeepsOver(s, e, n, Some(own), 0);
    SettledIsOver(Step(s, e), n, own);
  }

  /**
   * One record and never two. A run is handed out; whatever happens, it ends with a confirmed result. From then on, in
   * every later state and whatever crashes, no task and no image holds it as active or records it more than once.
   */
  lemma {:induction false} EveryRunEndsOnce(
    s: System, claim: Event, during: seq<Event>, finish: Event, later: seq<Event>
  )
    requires Inv(s) && Allowed(s, claim) && claim.Claim? && Hands(s, claim)
    requires AllowedRun(Step(s, claim), during)
    requires var s1 := Run(Step(s, claim), during);
      && Allowed(s1, finish) && finish.Finish? && finish.id == claim.id && finish.io == Durable
      && finish.runId == Generated(s.book.nextId)
      && claim.id in s1.table.tasks && s1.table.tasks[claim.id].project.Some?
      && s1.table.tasks[claim.id].active.Some? && s1.table.tasks[claim.id].active.value.runId == finish.runId
    requires AllowedRun(Step(Run(Step(s, claim), during), finish), later)
    ensures Over(Run(Step(Run(Step(s, claim), during), finish), later).table, Generated(s.book.nextId), None, 1)
  {
    var n := s.book.nextId;
    ClaimOwnsRun(s, claim);
    StepKeepsInv(s, claim);
    hide Inv, Over, Hands, ClaimOutcome;
    RunKeepsOver(Step(s, claim), during, n, Some(claim.id), 0);
    RunKeepsInv(Step(s, claim), during);
    IdsGrow(Step(s, claim), during);
    var s1 := Run(Step(s, claim), during);
    ConfirmedFinishEnds(s1, finish, n);
    StepKeepsInv(s1, finish);
    IdsGrow(s1, [finish]) by {
      assert [finish][1..] == [];
    }
    assert Run(s1, [finish]) == Step(s1, finish) by {
      assert [finish][1..] == [];
    }
    hide Step, Allowed;
    RunKeepsOver(Step(s1, finish), later, n, None, 1);
  }

  lemma {:induction false} IdsGrow(s: System, events: seq<Event>)
    requires AllowedRun(s, events)
    ensures s.book.nextId <= Run(s, events).book.nextId
    decreases |events|
  {
    if events != [] {
      assert s.book.nextId <= Step(s, events[0]).book.nextId by {
        hide Claimed, Restarted, Finished, Upserted, ProjectDeleted;
      }
      hide Step, Allowed;
      IdsGrow(Step(s, events[0]), events[1..]);
    }
  }
}
