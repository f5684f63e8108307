/** What each operation on the task table does, in the caller's terms, and exactly when it does it. */
module TaskEffects {
  import opened Wrappers
  import opened Schedules
  import opened Tasks
  import opened TaskSafety

  // ---------- edits ----------

  /** Every entry but one is as before. */
  ghost predicate OnlyTask(s: Table, s': Table, id: string) {
    && (forall k | k != id :: k in s'.tasks <==> k in s.tasks)
    && (forall k | k != id && k in s.tasks :: s'.tasks[k] == s.tasks[k])
  }

  /** A write of a task that is not accepted leaves everything; one that is stores it, marked if it is not confirmed. */
  ghost predicate Wrote(s: Table, s': Table, id: string, t: Task, io: WriteOutcome) {
    && id in s'.tasks && OnlyTask(s, s', id)
    && s'.tasks[id] == t.(unsaved := t.project.Some? && io == Unsynced)
    && s'.closed == s.closed
  }

  /** The file of a task that has one can be replaced. */
  predicate Writable(t: Task, io: WriteOutcome) {
    t.project.None? || io != Fails
  }

  lemma {:induction false} EditedWrites(s: Table, t: Task, io: WriteOutcome)
    ensures Edited(s, t, io).1.Ok? <==> Writable(t, io)
    ensures if Writable(t, io) then Wrote(s, Edited(s, t, io).0, t.id, t, io) else Edited(s, t, io).0 == s
  {
  }

  /** A task is added if and only if its schedule parses, its project is open, its id is new and its file is written. */
  lemma {:induction false} UpsertIff(s: Table, t: Task, io: WriteOutcome)
    ensures var (s', r) := Upserted(s, t, io);
      && (r.Ok? <==> Parses(t.schedule) && ProjectOpen(s, t) && t.id !in s.tasks && Writable(t, io))
      && (if r.Ok? then Wrote(s, s', t.id, t, io) else s' == s)
  {
    EditedWrites(s, t, io);
    ParseIff(t.schedule);
    hide Edited, ParseSchedule, Wrote;
  }

  /** The task can be edited now. */
  predicate Editable(s: Table, id: string) {
    id in s.tasks && (s.tasks[id].project.None? || s.tasks[id].project.value !in s.closed)
  }

  /**
   * An update is accepted if and only if the text parses, the task is there in an open project, a new text has an
   * occurrence to come, and the file is written. Then name, instruction and text are as asked, a new text gets its
   * first occurrence after now, an old one keeps its time, and nothing else of any task changes.
   */
  lemma {:induction false} UpdateIff(
    s: Table, id: string, name: string, instruction: string, schedule: ScheduleText, now: int, io: WriteOutcome
  )
    requires id in s.tasks ==> s.tasks[id].id == id
    ensures var (s', r) := Updated(s, id, name, instruction, schedule, now, io);
      && (r.Ok? <==>
           && Editable(s, id) && Parses(schedule) && Writable(s.tasks[id], io)
           && (schedule != s.tasks[id].schedule ==> !Fires(schedule, now, None)))
      && (r.Err? ==> s' == s)
      && (r.Ok? ==>
           exists next :: Wrote(s, s', id,
             s.tasks[id].(name := name, instruction := instruction, schedule := schedule, nextRun := next), io)
             && if schedule == s.tasks[id].schedule then next == s.tasks[id].nextRun else Fires(schedule, now, next))
  {
    ParseIff(schedule);
    if Parses(schedule) {
      NextAfterFires(schedule, now);
    }
    var r := UpdateOf(s, id, name, instruction, schedule, now);
    if r.Ok? {
      assert r.value ==
        s.tasks[id].(name := name, instruction := instruction, schedule := schedule, nextRun := r.value.nextRun);
      EditedWrites(s, r.value, io);
    }
    hide Edited, ParseSchedule, NextAfter, Fires, Wrote;
  }

  /**
   * Switching is accepted if and only if the task is there in an open project, one that is turned on has a text that
   * parses and an occurrence to come, and the file is written. Turning on starts over from now; nothing else changes.
   */
  lemma {:induction false} EnableIff(s: Table, id: string, enabled: bool, now: int, io: WriteOutcome)
    requires id in s.tasks ==> s.tasks[id].id == id
    ensures var (s', r) := EnabledSet(s, id, enabled, now, io);
      var starts := id in s.tasks && enabled && !s.tasks[id].enabled;
      && (r.Ok? <==>
           && Editable(s, id) && Writable(s.tasks[id], io)
           && (starts ==> Parses(s.tasks[id].schedule) && !Fires(s.tasks[id].schedule, now, None)))
      && (r.Err? ==> s' == s)
      && (r.Ok? ==>
           exists next :: Wrote(s, s', id, s.tasks[id].(enabled := enabled, nextRun := next), io)
             && if starts then Fires(s.tasks[id].schedule, now, next) else next == s.tasks[id].nextRun)
  {
    if id in s.tasks {
      ParseIff(s.tasks[id].schedule);
      if Parses(s.tasks[id].schedule) {
        NextAfterFires(s.tasks[id].schedule, now);
      }
    }
    var r := EnableOf(s, id, enabled, now);
    if r.Ok? {
      assert r.value == s.tasks[id].(enabled := enabled, nextRun := r.value.nextRun);
      EditedWrites(s, r.value, io);
    }
    hide Edited, ParseSchedule, NextAfter, Fires, Wrote;
  }

  // ---------- removal ----------

  /** A task is removed, with its file, unless its file cannot be; a missing one is no error. */
  lemma {:induction false} RemoveIff(s: Table, id: string, works: bool)
    ensures var (s', r) := Removed(s, id, works);
      && (r.Err? <==> id in s.tasks && s.tasks[id].project.Some? && !works)
      && (r.Err? || id !in s.tasks ==> s' == s)
      && (r.Ok? ==>
           && r.value == (if id in s.tasks then Some(s.tasks[id]) else None)
           && id !in s'.tasks && OnlyTask(s, s', id)
           && (id in s.tasks && s.tasks[id].project.Some? ==> id in s'.disk && s'.disk[id].visible.None?)
           && (id in s.tasks && s.tasks[id].project.None? ==> s'.disk == s.disk)
           && forall k | k != id && k in s.disk :: k in s'.disk && s'.disk[k] == s.disk[k])
  {
  }

  lemma {:induction false} InvalidatedAllKeepsTasks(s: Table, order: seq<string>)
    ensures InvalidatedAll(s, order).tasks == s.tasks
    decreases |order|
  {
    if order != [] {
      InvalidatedAllKeepsTasks(Invalidated(s, order[0]), order[1..]);
    }
  }

  /**
   * A deleted project has no task, no readable file and no entry any more, and takes no new task; a deletion that fails
   * keeps every task and leaves the project open. Tasks of other projects stay.
   */
  lemma {:induction false} DeleteProjectMeans(s: Table, project: string, order: seq<string>, io: DeleteOutcome)
    ensures var (s', r) := ProjectDeleted(s, project, order, io);
      && (r.Ok? <==> io.Deleted?)
      && (forall id :: id in s'.tasks <==> id in s.tasks && (r.Ok? ==> s.tasks[id].project != Some(project)))
      && (forall id | id in s'.tasks :: s'.tasks[id] == s.tasks[id])
      && (forall p :: p in s'.closed <==> if p == project then r.Ok? else p in s.closed)
      && (r.Ok? ==> forall id | id in s.tasks && s.tasks[id].project == Some(project) ::
           id in s'.disk && s'.disk[id].visible.None?)
      && (r.Ok? ==> forall t: Task, w | t.project == Some(project) :: Upserted(s', t, w).1.Err?)
  {
    InvalidatedAllKeepsTasks(s, order);
    hide InvalidatedAll, Edited, ParseSchedule;
  }

  // ---------- due tasks ----------

  /** The task waits for its next occurrence, and nothing stands in its way. */
  predicate Waits(s: Table, id: string, at: int) {
    && Editable(s, id) && s.tasks[id].enabled && s.tasks[id].active.None? && !s.tasks[id].unsaved && id !in s.pending
    && Parses(s.tasks[id].schedule) && s.tasks[id].nextRun == Some(at)
  }

  /** A task is due from its next occurrence on, not before; the entry names that occurrence and the generation. */
  lemma {:induction false} DueFrom(s: Table, id: string, now: int)
    ensures id in DueCandidates(s, now) <==> exists at | at <= now :: Waits(s, id, at)
    ensures forall at | at <= now && Waits(s, id, at) ::
      DueCandidates(s, now)[id] == Candidate(id, if id in s.generations then s.generations[id] else 0, at)
    ensures Collected(s, now).tasks == s.tasks && Collected(s, now).disk == s.disk
    ensures forall k :: k in Collected(s, now).pending <==> k in s.pending || k in DueCandidates(s, now)
    ensures forall k | k in s.pending :: Collected(s, now).pending[k] == s.pending[k]
  {
    if id in s.tasks {
      ParseIff(s.tasks[id].schedule);
      assert s.tasks[id].nextRun.Some? ==>
        (Waits(s, id, s.tasks[id].nextRun.value) ==> forall at | Waits(s, id, at) :: at == s.tasks[id].nextRun.value);
    }
    hide ParseSchedule;
  }

  // ---------- claims ----------

  /** What a claim asks of the task, and of the candidate it is made with. */
  predicate MayClaim(s: Table, id: string, from: Option<Candidate>, now: int) {
    && Editable(s, id) && s.tasks[id].active.None? && !s.tasks[id].unsaved && Parses(s.tasks[id].schedule)
    && (from.Some? ==>
         && id in s.pending && s.pending[id] == from.value
         && id in s.generations && s.generations[id] == from.value.generation
         && s.tasks[id].enabled && s.tasks[id].nextRun == Some(from.value.scheduledFor)
         && from.value.scheduledFor <= now)
  }

  /**
   * A claim hands out a run if and only if the task and the candidate allow it and the write is confirmed. The run is
   * the active one of the task from then on, a scheduled one moves the task to the first occurrence after now, a manual
   * one leaves the occurrence it waits for, and nothing else of any task changes.
   */
  lemma {:induction false} ClaimIff(s: System, e: Event)
    requires Inv(s) && Allowed(s, e) && e.Claim?
    ensures Hands(s, e) <==>
      MayClaim(s.table, e.id, e.from, e.now) && (s.table.tasks[e.id].project.None? || e.io == Durable)
    ensures Hands(s, e) ==>
      var (t, snapshot) := (s.table.tasks[e.id], ClaimOutcome(s, e).1.value.value);
      var (t', run) := (snapshot.task, snapshot.run);
      && run == ActiveRun(Generated(s.book.nextId), if e.from.Some? then OnSchedule else Manual,
        if e.from.Some? then Some(e.from.value.scheduledFor) else None, e.now)
      && t' == t.(active := Some(run), nextRun := t'.nextRun)
      && (if e.from.Some? then Fires(t.schedule, e.now, t'.nextRun) else t'.nextRun == t.nextRun)
      && Step(s, e).table.tasks == s.table.tasks[e.id := t']
  {
    hide TaskOk, FileOk, Fires;
    if e.id in s.table.tasks {
      ParseIff(s.table.tasks[e.id].schedule);
      if Parses(s.table.tasks[e.id].schedule) {
        NextAfterFires(s.table.tasks[e.id].schedule, e.now);
      }
    }
    hide ParseSchedule, NextAfter, Persisted;
  }

  /** A step that releases a candidate takes away the reservation of that very candidate, and changes nothing else. */
  lemma {:induction false} ReleaseMeans(s: System, c: Candidate)
    ensures var s' := Step(s, Release(c));
      && s' == s.(table := s.table.(pending := s'.table.pending))
      && forall id ::
           && (id in s'.table.pending <==> id in s.table.pending && !(id == c.id && s.table.pending[id] == c))
           && (id in s'.table.pending ==> s'.table.pending[id] == s.table.pending[id])
  {
  }

  // ---------- recovery ----------

  predicate FirstIs(runs: seq<TaskRun>, old_: seq<TaskRun>, run: TaskRun) {
    runs == ([run] + old_)[..if |old_| < 20 then |old_| + 1 else 20]
  }

  /** The record a startup writes for a run that was not finished. */
  predicate Interrupted(run: TaskRun, active: ActiveRun, now: int) {
    run.runId == Some(active.runId) && run.status == "error" && run.source == active.source && run.at == now
    && run.outTokens == 0
  }

  /** The record a startup writes for a one-shot that nobody started in time. */
  predicate MissedOnce(run: TaskRun, t: Task, at: int, now: int) {
    run.runId == Some(Missed(t.id, at)) && run.status == "skipped" && run.source == OnSchedule && run.at == now
    && run.outTokens == 0
  }

  /** The text is a one-shot, even if its time does not parse, and what the task waits for is over. */
  predicate OverdueOnce(t: Task, now: int) {
    (t.schedule.OnceText? || t.schedule == BadText(true)) && t.nextRun.Some? && t.nextRun.value <= now
  }

  /** Nothing is running, and the task is on and waits for an occurrence. */
  predicate Idle(t: Task) {
    t.active.None? && t.enabled && t.nextRun.Some?
  }

  /**
   * What a startup makes of a task. A run that was active is recorded as failed, and an overdue one-shot it belonged to
   * is not started again. Another overdue one-shot is recorded as skipped and waits for nothing. A cron task whose time
   * is not its next gets that. All else is as it was.
   */
  lemma {:induction false} RecoveryMeans(t: Task, now: int)
    requires t.active.Some? ==> !HasRun(t.runs, t.active.value.runId)
    requires t.nextRun.Some? ==> !HasRun(t.runs, Missed(t.id, t.nextRun.value))
    requires |t.runs| <= 20
    ensures var (t', changed) := Recovered(t, now);
      && t' == t.(active := None, unsaved := false, runs := t'.runs, nextRun := t'.nextRun,
                  lastStatus := t'.lastStatus, lastSummary := t'.lastSummary)
      && (t.active.Some? ==> changed && exists run ::
           Interrupted(run, t.active.value, now) && FirstIs(t'.runs, t.runs, run) && t'.lastStatus == Some("error"))
      && (t.active.Some? ==> t'.nextRun == if OverdueOnce(t, now) then None else t.nextRun)
      && (Idle(t) && t.schedule.OnceText? && t.nextRun.value <= now ==> changed && t'.nextRun.None? && exists run ::
           MissedOnce(run, t, t.nextRun.value, now) && FirstIs(t'.runs, t.runs, run)
           && t'.lastStatus == Some("skipped"))
      && (Idle(t) && t.schedule.CronText? ==>
           && t'.runs == t.runs && t'.lastStatus == t.lastStatus && t'.lastSummary == t.lastSummary
           && changed == CorrectedCron(t.schedule.instants, now, t.nextRun.value).Some?
           && t'.nextRun == if changed then CorrectedCron(t.schedule.instants, now, t.nextRun.value) else t.nextRun)
      && (t.active.None? && !(Idle(t) && (t.schedule.CronText? || (t.schedule.OnceText? && t.nextRun.value <= now))) ==>
           !changed && t' == t.(unsaved := false))
  {
    if t.active.Some? {
      var run := InterruptedRun(t.active.value, now);
      assert Interrupted(run, t.active.value, now);
      AppendedInFront(t.(unsaved := false, active := None), run);
    } else if Idle(t) && t.schedule.OnceText? && t.nextRun.value <= now {
      var run := MissedRun(t.(unsaved := false), t.nextRun.value, now);
      assert MissedOnce(run, t, t.nextRun.value, now);
      AppendedInFront(t.(unsaved := false), run);
    }
    hide Appended, HasRun, CorrectedCron;
  }

  lemma {:induction false} AppendedInFront(t: Task, run: TaskRun)
    requires run.runId.Some? && !HasRun(t.runs, run.runId.value) && |t.runs| <= 20
    ensures var t' := Appended(t, run);
      && FirstIs(t'.runs, t.runs, run) && t'.lastStatus == Some(run.status) && t'.lastSummary == Some(run.summary)
      && t' == t.(runs := t'.runs, lastStatus := t'.lastStatus, lastSummary := t'.lastSummary)
  {
    hide HasRun;
    assert |t.runs| < 20 ==> ([run] + t.runs)[..|t.runs| + 1] == [run] + t.runs;
  }
}
