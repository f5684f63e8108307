/**
 * What memory knows about the disk. A project task without an unsaved mark is the only content its file can have after
 * a power loss; two steps lose this, and both are named below. Which step makes a task exact again, and which one ends
 * that, is said for every step and so for every run.
 */
module TaskDurability {
  import opened Wrappers
  import opened Schedules
  import opened Tasks
  import opened TaskSafety

  predicate OnDisk(d: Disk, id: string, t: Task) {
    t.project.Some? && !t.unsaved ==> id in d && d[id].possible == {Some(t)}
  }

  /** The task, if there is one, is the only image of its file, or is marked unsaved. */
  predicate Synced(s: Table, id: string) {
    id in s.tasks ==> OnDisk(s.disk, id, s.tasks[id])
  }

  ghost predicate AllSynced(s: Table) {
    forall id :: Synced(s, id)
  }

  predicate HasFile(s: Table, id: string) {
    id in s.tasks && s.tasks[id].project.Some?
  }

  /** The task is saved, and nothing else can be found after a power loss. */
  predicate Exact(s: Table, id: string) {
    HasFile(s, id) && !s.tasks[id].unsaved && OnDisk(s.disk, id, s.tasks[id])
  }

  // ---------- what a step does to one file ----------

  predicate Grants(s: Table, id: string, from: Option<Candidate>, now: int) {
    Claimable(s, id) && (from.Some? ==> from.value.id == id && Entitled(s, from.value, now))
  }

  predicate Finishes(s: Table, id: string, runId: RunId) {
    Current(s, id).Ok? && s.tasks[id].active.Some? && s.tasks[id].active.value.runId == runId
  }

  /** How the write of the file of a task ends, if the step passes every check before it. */
  function FileWrite(s: System, e: Event, id: string): Option<WriteOutcome> {
    var t := s.table;
    match e
    case Upsert(task, io) =>
      if task.id == id && task.project.Some? && ParseSchedule(task.schedule).Some? && ProjectOpen(t, task)
        && id !in t.tasks
      then Some(io) else None
    case Update(k, name, instruction, schedule, now, io) =>
      if k == id && HasFile(t, id) && UpdateOf(t, id, name, instruction, schedule, now).Ok? then Some(io) else None
    case SetEnabled(k, enabled, now, io) =>
      if k == id && HasFile(t, id) && EnableOf(t, id, enabled, now).Ok? then Some(io) else None
    case Claim(k, from, now, io) => if k == id && HasFile(t, id) && Grants(t, id, from, now) then Some(io) else None
    case Finish(k, runId, _, io) => if k == id && HasFile(t, id) && Finishes(t, id, runId) then Some(io) else None
    case Retry(k, io) => if k == id && HasFile(t, id) && t.tasks[id].unsaved then Some(io) else None
    case _ => None
  }

  /** The step takes the task away with its file. */
  predicate Removes(s: System, e: Event, id: string) {
    HasFile(s.table, id) &&
    match e
    case Remove(k, works) => k == id && works
    case DeleteProject(project, _, Deleted) => id in TasksOf(s.table, project)
    case _ => false
  }

  /** A project deletion that fails has removed the file, and the task stays. */
  predicate DropsFile(s: System, e: Event, id: string) {
    e.DeleteProject? && e.outcome.DeleteFails? && id in e.outcome.gone && id in TasksOf(s.table, e.project)
  }

  /** A file that reads well but may be something else after a power loss, and is not rewritten at startup. */
  predicate TakenOnTrust(d: Disk, id: string, now: int) {
    id in Loadable(d) && d[id].possible != {d[id].visible} && !Recovered(d[id].visible.value, now).1
  }

  /** Startup reads the only image of the file, or rewrites it with confirmation. */
  predicate ReadsExact(d: Disk, id: string, now: int, ios: map<string, WriteOutcome>) {
    && id in Loadable(d)
    && if Recovered(d[id].visible.value, now).1 then OutcomeFor(ios, id).Durable? else !TakenOnTrust(d, id, now)
  }

  /** The steps after which memory is wrong about a file: of a saved task it has lost, or taken on trust. */
  predicate Weakens(s: System, e: Event, id: string) {
    || (DropsFile(s, e, id) && !s.table.tasks[id].unsaved)
    || (e.Restart? && TakenOnTrust(Survivors(s.table.disk, e.crash), id, e.now))
  }

  /**
   * The steps after which memory is right about a file, whatever came before: a write that replaces it or a result that
   * is kept in memory, a removal, or a restart that does not take it on trust.
   */
  predicate Settles(s: System, e: Event, id: string) {
    || (FileWrite(s, e, id).Some? && (FileWrite(s, e, id) != Some(Fails) || e.Finish?)) || Removes(s, e, id)
    || (e.Restart? && !TakenOnTrust(Survivors(s.table.disk, e.crash), id, e.now))
  }

  /** The steps after which a task is saved for good: a confirmed write, or a restart that reads it so. */
  predicate Confirms(s: System, e: Event, id: string) {
    || FileWrite(s, e, id) == Some(Durable)
    || (e.Restart? && ReadsExact(Survivors(s.table.disk, e.crash), id, e.now, e.ios))
  }

  /** The steps after which it is not. */
  predicate Disturbs(s: System, e: Event, id: string) {
    || FileWrite(s, e, id) == Some(Unsynced) || (e.Finish? && FileWrite(s, e, id) == Some(Fails))
    || Removes(s, e, id) || DropsFile(s, e, id)
    || (e.Restart? && !ReadsExact(Survivors(s.table.disk, e.crash), id, e.now, e.ios))
  }

  // ---------- operations ----------

  /** The entries of one id are untouched. */
  predicate Untouched(s: Table, s': Table, id: string) {
    && (id in s'.disk <==> id in s.disk) && (id in s.disk ==> s'.disk[id] == s.disk[id])
    && (id in s'.tasks <==> id in s.tasks) && (id in s.tasks ==> s'.tasks[id] == s.tasks[id])
  }

  /** What becomes of one task when a write of its file ends as given, or there is none. */
  predicate Follows(s: Table, s': Table, id: string, write: Option<WriteOutcome>) {
    match write
    case Some(Durable) => Exact(s', id)
    case Some(Unsynced) => HasFile(s', id) && s'.tasks[id].unsaved
    case _ => Untouched(s, s', id) || (!HasFile(s, id) && !HasFile(s', id))
  }

  lemma {:induction false} EditedFollows(s: Table, t: Task, io: WriteOutcome, id: string)
    requires t.id == id && t.project.None? ==> !HasFile(s, id)
    ensures Follows(s, Edited(s, t, io).0, id, if t.id == id && t.project.Some? then Some(io) else None)
  {
  }

  lemma {:induction false} EditsFollow(s: System, e: Event, id: string)
    requires Inv(s) && Allowed(s, e) && (e.Upsert? || e.Update? || e.SetEnabled?)
    ensures Follows(s.table, Step(s, e).table, id, FileWrite(s, e, id))
  {
    var t := s.table;
    forall x: Task, io | x.id == id && x.project.None? ==> !HasFile(t, id)
      ensures Follows(t, Edited(t, x, io).0, id, if x.id == id && x.project.Some? then Some(io) else None)
    {
      EditedFollows(t, x, io, id);
    }
    hide Edited, TaskOk, FileOk, Exact, OnDisk;
    match e
    case Upsert(x, _) =>
    case Update(k, name, instruction, schedule, now, _) =>
      EditsRework(t, k, name, instruction, schedule, true, now);
      hide UpdateOf;
    case SetEnabled(k, enabled, now, _) =>
      EditsRework(t, k, "", "", BadText(false), enabled, now);
      hide EnableOf;
  }

  lemma {:induction false} ClaimFollows(
    s: Table, id: string, from: Option<Candidate>, now: int, runId: RunId, io: WriteOutcome
  )
    requires (from.Some? ==> from.value.id == id) && (id in s.tasks ==> s.tasks[id].id == id)
    ensures Follows(s, Claimed(s, id, from, now, runId, io).0, id,
      if HasFile(s, id) && Grants(s, id, from, now) then Some(io) else None)
    ensures forall k | k != id :: Untouched(s, Claimed(s, id, from, now, runId, io).0, k)
  {
  }

  /** A result stays in memory when it cannot be written, and is marked. */
  lemma {:induction false} FinishFollows(s: Table, id: string, runId: RunId, run: TaskRun, io: WriteOutcome)
    requires id in s.tasks ==> s.tasks[id].id == id
    ensures var s' := Finished(s, id, runId, run, io).0;
      && Follows(s, s', id, if !HasFile(s, id) || !Finishes(s, id, runId) then None
                            else if io == Durable then Some(Durable) else Some(Unsynced))
      && forall k | k != id :: Untouched(s, s', k)
  {
    hide HasRun;
  }

  lemma {:induction false} RetryFollows(s: Table, id: string, io: WriteOutcome)
    requires id in s.tasks && s.tasks[id].id == id
    ensures var s' := RetriedOne(s, id, io);
      && Follows(s, s', id, if HasFile(s, id) && s.tasks[id].unsaved then Some(io) else None)
      && forall k | k != id :: Untouched(s, s', k)
  {
  }

  lemma {:induction false} InvalidatedAllFrame(s: Table, order: seq<string>)
    ensures var s' := InvalidatedAll(s, order); s'.tasks == s.tasks && s'.disk == s.disk && s'.closed == s.closed
    decreases |order|
  {
    if order != [] {
      InvalidatedAllFrame(Invalidated(s, order[0]), order[1..]);
    }
  }

  lemma {:induction false} RemovalsFollow(s: System, e: Event, id: string)
    requires Allowed(s, e) && (e.Remove? || e.DeleteProject?)
    ensures var (t, t') := (s.table, Step(s, e).table);
      if Removes(s, e, id) then id !in t'.tasks
      else if DropsFile(s, e, id) then
        HasFile(t', id) && t'.tasks[id] == t.tasks[id] && id in t'.disk && None in t'.disk[id].possible
      else Follows(t, t', id, None)
  {
    if e.DeleteProject? {
      InvalidatedAllFrame(s.table, e.order);
      hide InvalidatedAll;
    }
  }

  /** Every step but a restart: what becomes of one task is decided by the write of its file, or by its removal. */
  lemma {:induction false} StepFollows(s: System, e: Event, id: string)
    requires Inv(s) && Allowed(s, e) && !e.Restart? && !e.Remove? && !e.DeleteProject?
    ensures Follows(s.table, Step(s, e).table, id, Counted(s, e, id))
  {
    var t := s.table;
    hide TaskOk, FileOk, Exact, OnDisk;
    match e
    case Claim(k, from, now, io) =>
      ClaimFollows(t, k, from, now, Generated(s.book.nextId), io);
      hide Claimed, Grants;
    case Finish(k, runId, run, io) =>
      FinishFollows(t, k, runId, run, io);
      hide Finished, Finishes;
    case Retry(k, io) =>
      if k in t.tasks { RetryFollows(t, k, io); }
      hide RetriedOne;
    case Collect(_) =>
    case Release(_) =>
    case _ => EditsFollow(s, e, id);
  }

  // ---------- restart ----------

  /** What a restored file ends as, in terms of the file before. */
  lemma {:induction false} RestoredOneOnDisk(b: Book, s: Table, id: string, now: int, ios: map<string, WriteOutcome>)
    requires DiskOk(b, s.disk) && id in Loadable(s.disk)
    ensures var s' := RestoredOne(s, id, now, ios);
      id in s'.tasks && (OnDisk(s'.disk, id, s'.tasks[id]) <==> !TakenOnTrust(s.disk, id, now))
  {
    hide TaskOk;
    assert FileOk(b, id, s.disk[id]);
    var t := s.disk[id].visible.value;
    assert Recovered(t, now).0.id == t.id && Recovered(t, now).0.project == t.project;
    assert !Recovered(t, now).1 ==> Recovered(t, now).0 == t;
    hide Recovered;
  }

  lemma {:induction false} RestoredOneFrame(b: Book, s: Table, id: string, now: int, ios: map<string, WriteOutcome>)
    requires DiskOk(b, s.disk) && BookOk(b) && now >= b.clock
    ensures var s' := RestoredOne(s, id, now, ios);
      && DiskOk(b, s'.disk)
      && (forall k | k != id :: (k in s'.disk <==> k in s.disk) && (k in s.disk ==> s'.disk[k] == s.disk[k]))
      && s'.tasks.Keys == s.tasks.Keys + (if id in Loadable(s.disk) then {id} else {})
      && (forall k | k != id && k in s.tasks :: s'.tasks[k] == s.tasks[k])
  {
    if id in Loadable(s.disk) {
      assert FileOk(b, id, s.disk[id]);
      var t := s.disk[id].visible.value;
      RecoveredOk(b, t, now);
      PersistKeeps(b, s.disk, Recovered(t, now).0, OutcomeFor(ios, id));
      hide TaskOk, FileOk, Recovered;
    }
  }

  lemma {:induction false} RestoredOneElsewhere(
    s: Table, k: string, id: string, now: int, ios: map<string, WriteOutcome>
  )
    requires k != id && (k in Loadable(s.disk) ==> s.disk[k].visible.value.id == k)
    ensures Untouched(s, RestoredOne(s, k, now, ios), id)
  {
    if k in Loadable(s.disk) {
      assert Recovered(s.disk[k].visible.value, now).0.id == k;
      hide Recovered;
    }
  }

  lemma {:induction false} RestoredAllElsewhere(
    b: Book, s: Table, order: seq<string>, id: string, now: int, ios: map<string, WriteOutcome>
  )
    requires DiskOk(b, s.disk) && BookOk(b) && now >= b.clock && id !in order
    ensures Untouched(s, RestoredAll(s, order, now, ios), id)
    decreases |order|
  {
    if order != [] {
      RestoredOneFrame(b, s, order[0], now, ios);
      if order[0] in Loadable(s.disk) {
        assert FileOk(b, order[0], s.disk[order[0]]);
      }
      RestoredOneElsewhere(s, order[0], id, now, ios);
      hide RestoredOne, DiskOk, BookOk;
      RestoredAllElsewhere(b, RestoredOne(s, order[0], now, ios), order[1..], id, now, ios);
    }
  }

  lemma {:induction false} RestoredAllAt(
    b: Book, s: Table, order: seq<string>, id: string, now: int, ios: map<string, WriteOutcome>
  )
    requires DiskOk(b, s.disk) && BookOk(b) && now >= b.clock && id in order && id in Loadable(s.disk)
    requires forall i, j | 0 <= i < j < |order| :: order[i] != order[j]
    ensures var s' := RestoredAll(s, order, now, ios);
      && id in s'.tasks && (OnDisk(s'.disk, id, s'.tasks[id]) <==> !TakenOnTrust(s.disk, id, now))
      && s'.tasks[id] == RestoredTask(s.disk[id].visible.value, now, OutcomeFor(ios, id))
    decreases |order|
  {
    var s1 := RestoredOne(s, order[0], now, ios);
    RestoredOneFrame(b, s, order[0], now, ios);
    if order[0] == id {
      RestoredOneOnDisk(b, s, id, now, ios);
      hide RestoredOne, DiskOk, BookOk, Recovered, TakenOnTrust;
      RestoredAllElsewhere(b, s1, order[1..], id, now, ios);
    } else {
      if order[0] in Loadable(s.disk) {
        assert FileOk(b, order[0], s.disk[order[0]]);
      }
      RestoredOneElsewhere(s, order[0], id, now, ios);
      hide RestoredOne, DiskOk, BookOk, Recovered, OnDisk;
      RestoredAllAt(b, s1, order[1..], id, now, ios);
    }
  }

  /** Startup holds a task for exactly the files that read well. */
  lemma {:induction false} RestoredKeys(b: Book, s: Table, order: seq<string>, now: int, ios: map<string, WriteOutcome>)
    requires DiskOk(b, s.disk) && BookOk(b) && now >= b.clock
    ensures forall id | id in RestoredAll(s, order, now, ios).tasks :: id in s.tasks || id in order
    decreases |order|
  {
    if order != [] {
      RestoredOneFrame(b, s, order[0], now, ios);
      hide RestoredOne, DiskOk, BookOk;
      RestoredKeys(b, RestoredOne(s, order[0], now, ios), order[1..], now, ios);
    }
  }

  lemma {:induction false} RestartAt(
    b: Book, d: Disk, order: seq<string>, id: string, now: int, ios: map<string, WriteOutcome>
  )
    requires DiskOk(b, d) && BookOk(b) && now >= b.clock && Visits(order, Loadable(d))
    ensures var s' := Restarted(d, order, now, ios);
      && (Synced(s', id) <==> !TakenOnTrust(d, id, now)) && (Exact(s', id) <==> ReadsExact(d, id, now, ios))
  {
    var blank := Table(map[], map[], map[], {}, 0, d);
    RestoredKeys(b, blank, order, now, ios);
    assert id in order <==> id in Loadable(d);
    if id in order {
      RestoredAllAt(b, blank, order, id, now, ios);
      assert FileOk(b, id, d[id]);
    }
    hide RestoredAll, DiskOk, BookOk, TaskOk, OnDisk, Recovered;
  }

  // ---------- every step and every run ----------

  /** What `StepSynced` says of a step. */
  ghost predicate Decided(s: System, e: Event, id: string)
    requires Allowed(s, e)
  {
    && (Synced(Step(s, e).table, id) <==> Settles(s, e, id) || (Synced(s.table, id) && !Weakens(s, e, id)))
    && (Exact(Step(s, e).table, id) <==> Confirms(s, e, id) || (Exact(s.table, id) && !Disturbs(s, e, id)))
  }

  lemma {:induction false} RestartDecided(s: System, e: Event, id: string)
    requires Inv(s) && Allowed(s, e) && e.Restart?
    ensures Decided(s, e, id)
  {
    SurvivorsOk(s, e);
    RestartAt(s.book, Survivors(s.table.disk, e.crash), e.order, id, e.now, e.ios);
    hide Inv, Restarted, TakenOnTrust, ReadsExact, Synced, Exact, Survivors;
  }

  lemma {:induction false} FollowsDecides(s: Table, s': Table, id: string, w: Option<WriteOutcome>)
    requires Follows(s, s', id, w)
    ensures Synced(s', id) <==> w == Some(Durable) || w == Some(Unsynced) || Synced(s, id)
    ensures Exact(s', id) <==> w == Some(Durable) || (Exact(s, id) && w != Some(Unsynced))
  {
  }

  lemma {:induction false} RemovalDecides(s: Table, s': Table, id: string)
    ensures id !in s'.tasks ==> Synced(s', id) && !Exact(s', id)
    ensures (HasFile(s', id) && id in s.tasks && s'.tasks[id] == s.tasks[id] && id in s'.disk
      && None in s'.disk[id].possible) ==> (Synced(s', id) <==> s.tasks[id].unsaved) && !Exact(s', id)
    ensures id in s.tasks && s.tasks[id].unsaved ==> Synced(s, id)
  {
  }

  lemma {:induction false} RemovalDecided(s: System, e: Event, id: string)
    requires Inv(s) && Allowed(s, e) && (e.Remove? || e.DeleteProject?)
    ensures Decided(s, e, id)
  {
    RemovalsFollow(s, e, id);
    RemovalDecides(s.table, Step(s, e).table, id);
    assert FileWrite(s, e, id).None?;
    assert DropsFile(s, e, id) ==> id in s.table.tasks && !Removes(s, e, id);
    hide Inv, Step, Allowed, Synced, Exact, FileWrite, Removes, DropsFile, TakenOnTrust, ReadsExact, Survivors;
    if !Removes(s, e, id) && !DropsFile(s, e, id) {
      FollowsDecides(s.table, Step(s, e).table, id, None);
    }
    hide Follows;
  }

  /** How the write of a step counts: a result is kept in memory, marked, even when it cannot be written. */
  function Counted(s: System, e: Event, id: string): Option<WriteOutcome> {
    if e.Finish? && FileWrite(s, e, id) == Some(Fails) then Some(Unsynced) else FileWrite(s, e, id)
  }

  lemma {:induction false} WriteCounts(s: System, e: Event, id: string)
    requires !e.Restart? && !e.Remove? && !e.DeleteProject?
    ensures Settles(s, e, id) <==> Counted(s, e, id) == Some(Durable) || Counted(s, e, id) == Some(Unsynced)
    ensures Confirms(s, e, id) <==> Counted(s, e, id) == Some(Durable)
    ensures Disturbs(s, e, id) <==> Counted(s, e, id) == Some(Unsynced)
    ensures !Weakens(s, e, id)
  {
    assert !Removes(s, e, id) && !DropsFile(s, e, id);
    hide FileWrite, Removes, DropsFile;
    match FileWrite(s, e, id)
    case Some(Fails) =>
    case Some(Durable) =>
    case Some(Unsynced) =>
    case None =>
  }

  lemma {:induction false} WriteDecided(s: System, e: Event, id: string)
    requires Inv(s) && Allowed(s, e) && !e.Restart? && !e.Remove? && !e.DeleteProject?
    ensures Decided(s, e, id)
  {
    StepFollows(s, e, id);
    WriteCounts(s, e, id);
    hide Inv, Step, Allowed, Synced, Exact, Follows, Counted, Settles, Weakens, Confirms, Disturbs;
    FollowsDecides(s.table, Step(s, e).table, id, Counted(s, e, id));
  }

  /** After any step, exactly when memory is right about a file, and exactly when the task is saved for good. */
  lemma {:induction false} StepSynced(s: System, e: Event, id: string)
    requires Inv(s) && Allowed(s, e)
    ensures Synced(Step(s, e).table, id) <==> Settles(s, e, id) || (Synced(s.table, id) && !Weakens(s, e, id))
    ensures Exact(Step(s, e).table, id) <==> Confirms(s, e, id) || (Exact(s.table, id) && !Disturbs(s, e, id))
  {
    if e.Restart? {
      RestartDecided(s, e, id);
    } else if e.Remove? || e.DeleteProject? {
      RemovalDecided(s, e, id);
    } else {
      WriteDecided(s, e, id);
    }
    hide Inv, Step, Allowed, Synced, Exact, Settles, Weakens, Confirms, Disturbs;
  }

  /** Hence memory that is right about every file stays so, unless the step is one of the two that weaken it. */
  lemma {:induction false} StepAllSynced(s: System, e: Event)
    requires Inv(s) && AllSynced(s.table) && Allowed(s, e)
    ensures AllSynced(Step(s, e).table) <==> forall id :: !Weakens(s, e, id)
  {
    forall id ensures Synced(Step(s, e).table, id) <==> !Weakens(s, e, id) {
      StepSynced(s, e, id);
      assert Synced(s.table, id);
      assert Settles(s, e, id) ==> !Weakens(s, e, id);
    }
    hide Synced, Weakens, Step;
  }

  /** No step of the run is one of `off`. */
  ghost predicate Never(s: System, events: seq<Event>, off: (System, Event) -> bool)
    requires AllowedRun(s, events)
    decreases |events|
  {
    events == [] || (!off(s, events[0]) && Never(Step(s, events[0]), events[1..], off))
  }

  /** Some step of the run is one of `on`, and none after it is one of `off`. */
  ghost predicate Since(s: System, events: seq<Event>, on: (System, Event) -> bool, off: (System, Event) -> bool)
    requires AllowedRun(s, events)
    decreases |events|
  {
    events != [] &&
    var (s1, rest) := (Step(s, events[0]), events[1..]);
    Since(s1, rest, on, off) || (on(s, events[0]) && Never(s1, rest, off))
  }

  /** What steps switch on and off holds after a run if it was switched on last, or held and was never switched off. */
  lemma {:induction false} RunSwitches(
    s: System, events: seq<Event>, holds: System -> bool, on: (System, Event) -> bool, off: (System, Event) -> bool
  )
    requires Inv(s) && AllowedRun(s, events)
    requires forall x, e | Inv(x) && Allowed(x, e) :: holds(Step(x, e)) <==> on(x, e) || (holds(x) && !off(x, e))
    ensures holds(Run(s, events)) <==> Since(s, events, on, off) || (holds(s) && Never(s, events, off))
    decreases |events|
  {
    if events != [] {
      StepKeepsInv(s, events[0]);
      RunSwitches(Step(s, events[0]), events[1..], holds, on, off);
      hide Inv, Step, Allowed;
    }
  }

  /**
   * Over a whole run, with any crashes: memory is right about a file at the end if and only if some step settled it and
   * none since weakened it, or it was right at the start and no step weakened it.
   */
  lemma {:induction false} RunSynced(s: System, events: seq<Event>, id: string)
    requires Inv(s) && AllowedRun(s, events)
    ensures var (on, off) := ((x, e) => Settles(x, e, id), (x, e) => Weakens(x, e, id));
      Synced(Run(s, events).table, id) <==>
        Since(s, events, on, off) || (Synced(s.table, id) && Never(s, events, off))
  {
    var on: (System, Event) -> bool, off: (System, Event) -> bool :=
      (x, e) => Settles(x, e, id), (x, e) => Weakens(x, e, id);
    forall x, e | Inv(x) && Allowed(x, e)
      ensures Synced(Step(x, e).table, id) <==> on(x, e) || (Synced(x.table, id) && !off(x, e))
    {
      StepSynced(x, e, id);
    }
    hide Inv, Step, Allowed, Synced, Settles, Weakens;
    RunSwitches(s, events, (x: System) => Synced(x.table, id), on, off);
  }

  /**
   * And a task is saved for good at the end if and only if some edit, claim, result, retry or restart confirmed it and
   * nothing since disturbed it, or it was so at the start and nothing disturbed it.
   */
  lemma {:induction false} RunExact(s: System, events: seq<Event>, id: string)
    requires Inv(s) && AllowedRun(s, events)
    ensures var (on, off) := ((x, e) => Confirms(x, e, id), (x, e) => Disturbs(x, e, id));
      Exact(Run(s, events).table, id) <==>
        Since(s, events, on, off) || (Exact(s.table, id) && Never(s, events, off))
  {
    var on: (System, Event) -> bool, off: (System, Event) -> bool :=
      (x, e) => Confirms(x, e, id), (x, e) => Disturbs(x, e, id);
    forall x, e | Inv(x) && Allowed(x, e)
      ensures Exact(Step(x, e).table, id) <==> on(x, e) || (Exact(x.table, id) && !off(x, e))
    {
      StepSynced(x, e, id);
    }
    hide Inv, Step, Allowed, Exact, Confirms, Disturbs;
    RunSwitches(s, events, (x: System) => Exact(x.table, id), on, off);
  }

  /** A power loss settles every file, so the restart after it is exact whatever came before. */
  lemma {:induction false} PowerLossSettles(s: System, e: Event)
    requires Inv(s) && Allowed(s, e) && e.Restart? && e.crash.PowerLoss?
    ensures AllSynced(Step(s, e).table)
  {
    var d := Survivors(s.table.disk, e.crash);
    forall id ensures Synced(Step(s, e).table, id) {
      StepSynced(s, e, id);
      if id in d {
        assert d[id] == File(e.crash.survives[id], {e.crash.survives[id]});
      }
      hide Recovered, Step, Synced;
    }
    hide Synced, Step;
  }

  // ---------- unsaved tasks ----------

  predicate Unmarked(s: Table, s': Table, id: string) {
    id in s.tasks && s.tasks[id].unsaved && id in s'.tasks && !s'.tasks[id].unsaved
  }

  lemma {:induction false} EditsConfirm(s: Table, t: Task, io: WriteOutcome, id: string)
    requires Unmarked(s, Edited(s, t, io).0, id)
    ensures OnDisk(Edited(s, t, io).0.disk, id, Edited(s, t, io).0.tasks[id])
  {
  }

  lemma {:induction false} UpdatesConfirm(
    s: Table, id: string, name: string, instruction: string, schedule: ScheduleText, enabled: bool, now: int,
    io: WriteOutcome, k: string
  )
    ensures var s' := Updated(s, id, name, instruction, schedule, now, io).0;
      Unmarked(s, s', k) ==> OnDisk(s'.disk, k, s'.tasks[k])
    ensures var s' := EnabledSet(s, id, enabled, now, io).0;
      Unmarked(s, s', k) ==> OnDisk(s'.disk, k, s'.tasks[k])
  {
    forall t | Unmarked(s, Edited(s, t, io).0, k)
      ensures OnDisk(Edited(s, t, io).0.disk, k, Edited(s, t, io).0.tasks[k])
    {
      EditsConfirm(s, t, io, k);
    }
    hide Edited, OnDisk, UpdateOf, EnableOf;
  }

  lemma {:induction false} ResultsConfirm(s: Table, id: string, runId: RunId, run: TaskRun, io: WriteOutcome, k: string)
    requires id in s.tasks ==> s.tasks[id].id == id
    ensures var s' := Finished(s, id, runId, run, io).0;
      Unmarked(s, s', k) ==> OnDisk(s'.disk, k, s'.tasks[k])
    ensures id in s.tasks ==>
      var s' := RetriedOne(s, id, io);
      Unmarked(s, s', k) ==> OnDisk(s'.disk, k, s'.tasks[k])
  {
    hide HasRun;
  }

  lemma {:induction false} ClaimsDoNotUnmark(
    s: Table, id: string, from: Option<Candidate>, now: int, runId: RunId, io: WriteOutcome, k: string
  )
    requires from.Some? ==> from.value.id == id
    ensures !Unmarked(s, Claimed(s, id, from, now, runId, io).0, k)
  {
  }

  /** The mark only goes away with a write that was confirmed (or with the process). */
  lemma {:induction false} UnsavedUntilConfirmed(s: System, e: Event, id: string)
    requires Inv(s) && Allowed(s, e) && !e.Restart? && Unmarked(s.table, Step(s, e).table, id)
    ensures OnDisk(Step(s, e).table.disk, id, Step(s, e).table.tasks[id])
    ensures e.Update? || e.SetEnabled? || e.Finish? || e.Retry?
  {
    var t := s.table;
    hide TaskOk, FileOk, OnDisk;
    match e
    case Upsert(task, io) => assert false;
    case Update(k, name, instruction, schedule, now, io) =>
      UpdatesConfirm(t, k, name, instruction, schedule, true, now, io, id);
    case SetEnabled(k, enabled, now, io) => UpdatesConfirm(t, k, "", "", BadText(false), enabled, now, io, id);
    case DeleteProject(project, order, outcome) => InvalidatedAllFrame(t, order); assert false;
    case Claim(k, from, now, io) =>
      ClaimsDoNotUnmark(t, k, from, now, Generated(s.book.nextId), io, id);
      hide Claimed;
      assert false;
    case Finish(k, runId, run, io) => ResultsConfirm(t, k, runId, run, io, id);
    case Retry(k, io) =>
      if k in t.tasks { ResultsConfirm(t, k, Generated(0), TaskRun(None, 0, "", "", Manual, 0), io, id); }
    case _ =>
  }

  /** While it is there, the task is neither due nor handed out, and a claim changes no task and no file. */
  lemma {:induction false} UnsavedIsQuarantined(
    s: Table, c: Candidate, from: Option<Candidate>, now: int, runId: RunId, io: WriteOutcome
  )
    requires c.id in s.tasks && s.tasks[c.id].unsaved && (from.Some? ==> from.value.id == c.id)
    ensures c.id !in DueCandidates(s, now)
    ensures var (s', r) := Claimed(s, c.id, from, now, runId, io);
      s'.tasks == s.tasks && s'.disk == s.disk && (r.Err? || r.value.None?)
  {
  }

  /** A snapshot is handed out from a saved task, and its claim is by then the only image of the file. */
  lemma {:induction false} SnapshotIsDurable(s: System, e: Event)
    requires Inv(s) && Allowed(s, e) && e.Claim? && Hands(s, e) && Synced(s.table, e.id)
    ensures e.id in s.table.tasks && !s.table.tasks[e.id].unsaved && OnDisk(s.table.disk, e.id, s.table.tasks[e.id])
    ensures var t := ClaimOutcome(s, e).1.value.value.task;
      && t.active == Some(ClaimOutcome(s, e).1.value.value.run)
      && (t.project.Some? ==>
           e.id in Step(s, e).table.disk && Step(s, e).table.disk[e.id] == File(Some(t), {Some(t)}))
  {
    HandedOut(s, e);
    hide ClaimOutcome, Hands, Inv;
  }

  // ---------- the two steps do happen ----------

  const SAMPLE := Task("a", "", "", EveryText(1, "m"), Some(5), None, None, Some("p"), true, [], None, false, 0)

  lemma {:induction false} VisitsOne(id: string)
    ensures Visits([id], {id})
  {
    assert [id][0] == id;
  }

  /** Crash with an uncertain rename: the new process trusts what it reads, and two images remain. */
  lemma {:induction false} TrustedAfterProcessCrash()
    ensures var events := [Upsert(SAMPLE, Unsynced), Restart(ProcessOnly, ["a"], 0, map[])];
      && AllowedRun(EMPTY, events)
      && var t := Run(EMPTY, events).table;
        "a" in t.tasks && !t.tasks["a"].unsaved && "a" in t.disk && t.disk["a"].possible == {None, Some(t.tasks["a"])}
  {
    var e0, e1 := Upsert(SAMPLE, Unsynced), Restart(ProcessOnly, ["a"], 0, map[]);
    var s1 := Step(EMPTY, e0);
    assert SAMPLE.(birth := 0) == SAMPLE && FileOf(map[], "a").possible == {None};
    assert Persisted(map[], SAMPLE, Unsynced)["a"].possible == {None} + {Some(SAMPLE)} == {None, Some(SAMPLE)};
    assert s1.table.disk == map["a" := File(Some(SAMPLE), {None, Some(SAMPLE)})];
    assert Loadable(s1.table.disk) == {"a"};
    VisitsOne("a");
    assert [e0, e1][1..] == [e1] && [e1][1..] == [];
    assert Allowed(s1, e1);
    assert Recovered(SAMPLE, 0) == (SAMPLE, false);
    var blank := Table(map[], map[], map[], {}, 0, s1.table.disk);
    assert RestoredAll(blank, ["a"], 0, map[]) == RestoredOne(blank, "a", 0, map[]);
    assert Run(EMPTY, [e0, e1]) == Run(s1, [e1]) == Step(s1, e1);
  }

  /** A project deletion that fails half-way: the task stays, its file may be gone. */
  lemma {:induction false} FailedDeletionLosesFile()
    ensures var events := [Upsert(SAMPLE, Durable), DeleteProject("p", ["a"], DeleteFails({"a"}))];
      && AllowedRun(EMPTY, events)
      && var t := Run(EMPTY, events).table;
        "a" in t.tasks && !t.tasks["a"].unsaved && "a" in t.disk && t.disk["a"].visible == None
  {
    var e0, e1 := Upsert(SAMPLE, Durable), DeleteProject("p", ["a"], DeleteFails({"a"}));
    var s1 := Step(EMPTY, e0);
    assert s1.table.tasks == map["a" := SAMPLE];
    assert TasksOf(s1.table, "p") == {"a"};
    VisitsOne("a");
    assert [e0, e1][1..] == [e1] && [e1][1..] == [];
    assert Allowed(s1, e1);
    InvalidatedAllFrame(s1.table, ["a"]);
    assert Run(EMPTY, [e0, e1]) == Run(s1, [e1]) == Step(s1, e1);
  }
}
