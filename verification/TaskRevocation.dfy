/** A candidate is only an identity: any successful edit of its task takes it back for good. */
module TaskRevocation {
  import opened Wrappers
  import opened Schedules
  import opened Tasks
  import opened TaskSafety
  import opened TaskDurability

  /** The candidate was collected by this process. */
  predicate Collectible(s: Table, c: Candidate) {
    c.id in s.generations && c.generation <= s.generations[c.id]
  }

  predicate Revoked(s: Table, c: Candidate) {
    c.id in s.generations && c.generation < s.generations[c.id]
  }

  /**
   * The steps that take back what was collected for a task: successful edits, and any attempt to delete its project.
   */
  predicate Revokes(s: System, e: Event, id: string) {
    match e
    case Upsert(t, io) => t.id == id && Upserted(s.table, t.(birth := s.book.nextBirth), io).1.Ok?
    case Update(k, name, instruction, schedule, now, io) =>
      k == id && Updated(s.table, k, name, instruction, schedule, now, io).1.Ok?
    case SetEnabled(k, enabled, now, io) => k == id && EnabledSet(s.table, k, enabled, now, io).1.Ok?
    case Remove(k, works) => k == id && k in s.table.tasks && Removed(s.table, k, works).1.Ok?
    case DeleteProject(project, _, _) => id in TasksOf(s.table, project)
    case _ => false
  }

  /** The generation of a task moves up, or stays. */
  predicate GenerationMoves(s: Table, s': Table, id: string, up: bool) {
    id in s.generations ==>
      id in s'.generations
        && (if up then s.generations[id] < s'.generations[id] else s.generations[id] == s'.generations[id])
  }

  // ---------- every step ----------

  lemma {:induction false} InvalidatedMoves(
    b: Book, exec: Option<(string, RunId)>, s: Table, order: seq<string>, id: string
  )
    requires SoundTable(b, exec, s)
    ensures GenerationMoves(s, InvalidatedAll(s, order), id, id in order)
    decreases |order|
  {
    if order != [] {
      InvalidatedKeeps(b, exec, s, order[0]);
      assert id in order <==> id == order[0] || id in order[1..];
      assert GenerationMoves(s, Invalidated(s, order[0]), id, id == order[0]);
      hide SoundTable, Invalidated;
      InvalidatedMoves(b, exec, Invalidated(s, order[0]), order[1..], id);
    }
  }

  lemma {:induction false} EditMoves(
    b: Book, exec: Option<(string, RunId)>, s: Table, t: Task, io: WriteOutcome, id: string
  )
    requires SoundTable(b, exec, s)
    ensures GenerationMoves(s, Edited(s, t, io).0, id, t.id == id && Edited(s, t, io).1.Ok?)
  {
    hide TaskOk, FileOk;
  }

  lemma {:induction false} UpdatesMove(
    b: Book, exec: Option<(string, RunId)>, s: Table, id: string, name: string, instruction: string,
    schedule: ScheduleText, enabled: bool, now: int, io: WriteOutcome, k: string
  )
    requires SoundTable(b, exec, s)
    ensures var (s', r) := Updated(s, id, name, instruction, schedule, now, io);
      GenerationMoves(s, s', k, id == k && r.Ok?)
    ensures var (s', r) := EnabledSet(s, id, enabled, now, io); GenerationMoves(s, s', k, id == k && r.Ok?)
  {
    forall t: Task ensures GenerationMoves(s, Edited(s, t, io).0, k, t.id == k && Edited(s, t, io).1.Ok?) {
      EditMoves(b, exec, s, t, io, k);
    }
    assert GenerationMoves(s, s, k, false);
    EditsRework(s, id, name, instruction, schedule, enabled, now);
    hide Edited, SoundTable, UpdateOf, EnableOf, Reworked, GenerationMoves;
  }

  lemma {:induction false} DeleteMoves(
    b: Book, exec: Option<(string, RunId)>, s: Table, project: string, order: seq<string>, io: DeleteOutcome, id: string
  )
    requires SoundTable(b, exec, s) && Visits(order, TasksOf(s, project))
    ensures GenerationMoves(s, ProjectDeleted(s, project, order, io).0, id, id in TasksOf(s, project))
  {
    InvalidatedMoves(b, exec, s, order, id);
    assert id in order <==> id in TasksOf(s, project);
    hide SoundTable, InvalidatedAll;
  }

  lemma {:induction false} ResultsMove(
    s: Table, id: string, from: Option<Candidate>, now: int, runId: RunId, run: TaskRun, io: WriteOutcome
  )
    ensures Finished(s, id, runId, run, io).0.generations == s.generations
    ensures (from.Some? ==> from.value.id == id) ==> Claimed(s, id, from, now, runId, io).0.generations == s.generations
  {
  }

  /** Within one process the generation of a task goes up with exactly the steps that revoke, and else stays. */
  lemma {:induction false} StepMovesGeneration(s: System, e: Event, id: string)
    requires Inv(s) && Allowed(s, e) && !e.Restart?
    ensures GenerationMoves(s.table, Step(s, e).table, id, Revokes(s, e, id))
  {
    var b, exec, t := s.book, s.exec, s.table;
    hide TaskOk, FileOk;
    match e
    case Upsert(task, io) => EditMoves(b, exec, t, task.(birth := b.nextBirth), io, id);
    case Update(k, name, instruction, schedule, now, io) =>
      UpdatesMove(b, exec, t, k, name, instruction, schedule, true, now, io, id);
    case SetEnabled(k, enabled, now, io) => UpdatesMove(b, exec, t, k, "", "", BadText(false), enabled, now, io, id);
    case DeleteProject(project, order, outcome) => DeleteMoves(b, exec, t, project, order, outcome, id);
    case Claim(k, from, now, io) =>
      ResultsMove(t, k, from, now, Generated(b.nextId), TaskRun(None, 0, "", "", Manual, 0), io);
      hide Claimed;
    case Finish(k, runId, run, io) => ResultsMove(t, k, None, 0, runId, run, io);
    case _ =>
  }

  // ---------- runs without a restart ----------

  ghost predicate OneProcess(events: seq<Event>) {
    forall e | e in events :: !e.Restart?
  }

  lemma {:induction false} RunMovesGeneration(s: System, events: seq<Event>, c: Candidate)
    requires Inv(s) && AllowedRun(s, events) && OneProcess(events)
    ensures Revoked(s.table, c) ==> Revoked(Run(s, events).table, c)
    ensures Collectible(s.table, c) ==> Collectible(Run(s, events).table, c)
    decreases |events|
  {
    if events != [] {
      assert events[0] in events;
      assert forall e | e in events[1..] :: e in events;
      StepKeepsInv(s, events[0]);
      StepMovesGeneration(s, events[0], c.id);
      hide Inv, Allowed, Step, Revokes;
      RunMovesGeneration(Step(s, events[0]), events[1..], c);
    }
  }

  /** A revoked candidate is refused, and releasing it leaves the pending entry of the task alone. */
  lemma {:induction false} RevokedIsRefused(s: System, e: Event, c: Candidate)
    requires Inv(s) && Revoked(s.table, c)
    ensures Released(s.table, c) == s.table
    ensures e.Claim? && e.id == c.id && e.from == Some(c) ==>
      !Hands(s, e) && ClaimOutcome(s, e).0 == s.table
  {
    hide TaskOk, FileOk;
  }

  lemma {:induction false} PendingIsCollectible(s: System, id: string)
    requires Inv(s) && id in s.table.pending
    ensures s.table.pending[id].id == id && Collectible(s.table, s.table.pending[id])
  {
    hide TaskOk, FileOk;
  }

  lemma {:induction false} EditRevokes(s: System, edit: Event, c: Candidate)
    requires Inv(s) && Collectible(s.table, c) && Allowed(s, edit) && Revokes(s, edit, c.id)
    ensures Inv(Step(s, edit)) && Revoked(Step(s, edit).table, c)
  {
    StepKeepsInv(s, edit);
    assert !edit.Restart?;
    StepMovesGeneration(s, edit, c.id);
  }

  /**
   * Whatever is collected before a successful edit of its task (or an attempt to delete its project) is
   * never handed out after it, in this process, even if the task was deleted and created again with the same
   * time; and releasing it late drops nothing. `before` and `after` are any steps.
   */
  lemma {:induction false} RevokedForGood(
    s: System, before: seq<Event>, edit: Event, after: seq<Event>, c: Candidate, claim: Event
  )
    requires Inv(s) && c.id in s.table.pending && s.table.pending[c.id] == c
    requires AllowedRun(s, before) && OneProcess(before)
    requires Allowed(Run(s, before), edit) && Revokes(Run(s, before), edit, c.id)
    requires AllowedRun(Step(Run(s, before), edit), after) && OneProcess(after)
    requires claim.Claim? && claim.id == c.id && claim.from == Some(c)
    ensures var s2 := Run(Step(Run(s, before), edit), after);
      !Hands(s2, claim) && ClaimOutcome(s2, claim).0 == s2.table && Released(s2.table, c) == s2.table
  {
    PendingIsCollectible(s, c.id);
    RunKeepsInv(s, before);
    RunMovesGeneration(s, before, c);
    var s1 := Run(s, before);
    hide Inv, Revokes, Run, AllowedRun, ClaimOutcome, Hands, Allowed, Step, Released, Revoked, Collectible;
    EditRevokes(s1, edit, c);
    var s2 := Run(Step(s1, edit), after);
    RunKeepsInv(Step(s1, edit), after);
    RunMovesGeneration(Step(s1, edit), after, c);
    RevokedIsRefused(s2, claim, c);
  }

  // ---------- releases ----------

  /** A release drops a pending entry if and only if that entry is the same identity. */
  lemma {:induction false} ReleaseDropsOnlyItself(s: Table, c: Candidate, id: string)
    requires id in s.pending
    ensures id !in Released(s, c).pending <==> id == c.id && s.pending[id] == c
    ensures id in Released(s, c).pending ==> Released(s, c).pending[id] == s.pending[id]
    ensures Released(s, c).(pending := s.pending) == s
  {
  }

  /** The occurrence of the candidate has been handed out, and its task waits for a later one. */
  predicate Spent(s: System, c: Candidate) {
    && c.id in s.table.generations && s.table.generations[c.id] == c.generation && c.scheduledFor <= s.book.clock
    && (c.id in s.table.tasks && s.table.tasks[c.id].nextRun.Some? ==>
      s.table.tasks[c.id].nextRun.value > c.scheduledFor)
    && !Waiting(s.table, c)
  }

  predicate Waiting(s: Table, c: Candidate) {
    c.id in s.pending && s.pending[c.id] == c
  }

  lemma {:induction false} HandedOutIsSpent(s: System, e: Event)
    requires Inv(s) && Allowed(s, e) && e.Claim? && e.from.Some? && Hands(s, e)
    ensures Spent(Step(s, e), e.from.value)
  {
    HandedOut(s, e);
    EntitledWhenHanded(s, e);
    hide TaskOk, FileOk, Hands, ClaimedLocked;
  }

  lemma {:induction false} EntitledWhenHanded(s: System, e: Event)
    requires Inv(s) && Allowed(s, e) && e.Claim? && e.from.Some? && Hands(s, e)
    ensures e.id in s.table.generations && s.table.generations[e.id] == e.from.value.generation
    ensures ClaimOutcome(s, e).0.generations == s.table.generations && !Waiting(ClaimOutcome(s, e).0, e.from.value)
  {
    hide TaskOk, FileOk, Persisted;
  }

  lemma {:induction false} EditMovesNextRun(
    s: Table, k: string, name: string, instruction: string, schedule: ScheduleText, enabled: bool, now: int,
    io: WriteOutcome, id: string
  )
    requires k in s.tasks ==> s.tasks[k].id == k
    ensures var (s', r) := Updated(s, k, name, instruction, schedule, now, io);
      s'.tasks.Keys == s.tasks.Keys && (id in s.tasks && !(k == id && r.Ok?) ==> s'.tasks[id] == s.tasks[id])
    ensures var (s', r) := EnabledSet(s, k, enabled, now, io);
      s'.tasks.Keys == s.tasks.Keys && (id in s.tasks && !(k == id && r.Ok?) ==> s'.tasks[id] == s.tasks[id])
  {
    EditsRework(s, k, name, instruction, schedule, enabled, now);
    hide UpdateOf, EnableOf, Persisted, Reworked;
  }

  /** Without an edit the next occurrence of a task only changes with a claim, to one after the clock. */
  lemma {:induction false} NextRunMoves(s: System, e: Event, id: string)
    requires Inv(s) && Allowed(s, e) && !e.Restart? && !Revokes(s, e, id) && id in Step(s, e).table.tasks
    ensures id in s.table.tasks
    ensures var next, before := Step(s, e).table.tasks[id].nextRun, s.table.tasks[id].nextRun;
      next == before || next.None? || next.value > s.book.clock
  {
    var t := s.table;
    assert forall k | k in t.tasks :: t.tasks[k].id == k;
    hide Inv, Persisted, HasRun;
    match e
    case Upsert(task, io) => UpsertMovesNextRun(t, task.(birth := s.book.nextBirth), io, id); hide Upserted;
    case Update(k, name, instruction, schedule, now, io) =>
      EditMovesNextRun(t, k, name, instruction, schedule, true, now, io, id);
      hide Updated;
    case SetEnabled(k, enabled, now, io) =>
      EditMovesNextRun(t, k, "", "", BadText(false), enabled, now, io, id);
      hide EnabledSet;
    case DeleteProject(project, order, outcome) =>
      InvalidatedAllFrame(t, order);
      hide WithoutFiles, InvalidatedAll;
    case Claim(k, from, now, io) =>
      ClaimMovesNextRun(t, k, from, now, Generated(s.book.nextId), io, id);
      hide Claimed;
    case Finish(k, runId, run, io) => ResultsMoveNothing(t, k, runId, run, io, id); hide Finished;
    case Retry(k, io) => hide Effective;
    case _ => hide Due;
  }

  lemma {:induction false} UpsertMovesNextRun(s: Table, t: Task, io: WriteOutcome, id: string)
    ensures var (s', r) := Upserted(s, t, io);
      id in s'.tasks && !(t.id == id && r.Ok?) ==> id in s.tasks && s'.tasks[id] == s.tasks[id]
  {
    hide Persisted;
  }

  lemma {:induction false} ResultsMoveNothing(
    s: Table, k: string, runId: RunId, run: TaskRun, io: WriteOutcome, id: string
  )
    ensures var s' := Finished(s, k, runId, run, io).0;
      id in s'.tasks ==> id in s.tasks && s'.tasks[id].nextRun == s.tasks[id].nextRun
  {
    hide Persisted, HasRun;
  }

  lemma {:induction false} ClaimMovesNextRun(
    s: Table, k: string, from: Option<Candidate>, now: int, runId: RunId, io: WriteOutcome, id: string
  )
    requires from.Some? ==> from.value.id == k
    ensures var s' := Claimed(s, k, from, now, runId, io).0;
      && s'.tasks.Keys == s.tasks.Keys
      && (id in s.tasks ==>
           var next := s'.tasks[id].nextRun; next == s.tasks[id].nextRun || next.None? || next.value > now)
  {
    ClaimCases(s, k, from, now, runId, io);
    hide Persisted, ClaimedLocked;
  }

  /** A pending entry that a step brings is of the occurrence its task waits for. */
  lemma {:induction false} PendingMoves(s: System, e: Event, id: string)
    requires Inv(s) && Allowed(s, e) && !e.Restart? && id in Step(s, e).table.pending
    ensures (id in s.table.pending && s.table.pending[id] == Step(s, e).table.pending[id])
      || (id in s.table.tasks && s.table.tasks[id].nextRun == Some(Step(s, e).table.pending[id].scheduledFor))
  {
    var t := s.table;
    hide Inv, Persisted, HasRun, WithoutFiles;
    match e
    case Update(k, name, instruction, schedule, now, io) => hide UpdateOf;
    case SetEnabled(k, enabled, now, io) => hide EnableOf;
    case DeleteProject(project, order, outcome) =>
      InvalidatedAllPending(t, order, id);
      hide InvalidatedAll;
    case Claim(k, from, now, io) =>
      ClaimKeepsPending(t, k, from, now, Generated(s.book.nextId), io, id);
      hide Claimed;
    case _ =>
  }

  lemma {:induction false} ClaimKeepsPending(
    s: Table, k: string, from: Option<Candidate>, now: int, runId: RunId, io: WriteOutcome, id: string
  )
    requires from.Some? ==> from.value.id == k
    ensures var s' := Claimed(s, k, from, now, runId, io).0;
      id in s'.pending ==> id in s.pending && s'.pending[id] == s.pending[id]
  {
    ClaimCases(s, k, from, now, runId, io);
    hide Persisted, ClaimedLocked, ClaimOf;
  }

  lemma {:induction false} InvalidatedAllPending(s: Table, order: seq<string>, id: string)
    ensures var s' := InvalidatedAll(s, order); id in s'.pending ==> id in s.pending && s'.pending[id] == s.pending[id]
    decreases |order|
  {
    if order != [] {
      InvalidatedAllPending(Invalidated(s, order[0]), order[1..], id);
    }
  }

  lemma {:induction false} ClockMoves(s: System, e: Event)
    requires Allowed(s, e)
    ensures s.book.clock <= Step(s, e).book.clock
  {
    hide Claimed, Restarted, Finished, Upserted, ProjectDeleted, Updated, EnabledSet, Removed, Collected;
  }

  lemma {:induction false} StepKeepsSpent(s: System, e: Event, c: Candidate)
    requires Inv(s) && Allowed(s, e) && !e.Restart? && Spent(s, c)
    ensures if Revokes(s, e, c.id) then Revoked(Step(s, e).table, c) else Spent(Step(s, e), c)
  {
    StepMovesGeneration(s, e, c.id);
    if !Revokes(s, e, c.id) {
      ClockMoves(s, e);
      if c.id in Step(s, e).table.tasks {
        NextRunMoves(s, e, c.id);
      }
      if c.id in Step(s, e).table.pending {
        PendingMoves(s, e, c.id);
      }
    }
    hide Inv, Allowed, Step, Revokes;
  }

  lemma {:induction false} RunKeepsSpent(s: System, events: seq<Event>, c: Candidate)
    requires Inv(s) && AllowedRun(s, events) && OneProcess(events) && (Spent(s, c) || Revoked(s.table, c))
    ensures Inv(Run(s, events)) && !Waiting(Run(s, events).table, c)
    decreases |events|
  {
    if Revoked(s.table, c) {
      RevokedIsRefused(s, Collect(0), c);
    }
    if events != [] {
      assert events[0] in events;
      assert forall e | e in events[1..] :: e in events;
      StepKeepsInv(s, events[0]);
      StepMovesGeneration(s, events[0], c.id);
      if Spent(s, c) {
        StepKeepsSpent(s, events[0], c);
      }
      hide Inv, Allowed, Step, Revokes, Spent;
      RunKeepsSpent(Step(s, events[0]), events[1..], c);
    }
  }

  /**
   * An identity that has been revoked or handed out does not come back in this process. So a late release can drop only
   * an entry whose occurrence is still to be run, and costs no more than collecting it again.
   */
  lemma {:induction false} UsedIdentityNeverReturns(s: System, e: Event, later: seq<Event>, c: Candidate)
    requires Inv(s) && Collectible(s.table, c) && Allowed(s, e)
    requires Revokes(s, e, c.id) || (e.Claim? && e.from == Some(c) && Hands(s, e))
    requires AllowedRun(Step(s, e), later) && OneProcess(later)
    ensures var end := Run(Step(s, e), later).table;
      !Waiting(end, c) && Released(end, c) == end
  {
    if Revokes(s, e, c.id) {
      EditRevokes(s, e, c);
    } else {
      HandedOutIsSpent(s, e);
    }
    StepKeepsInv(s, e);
    hide Inv, Revokes, Hands, Spent, Revoked;
    RunKeepsSpent(Step(s, e), later, c);
    hide Run, AllowedRun, Step;
  }

  /** The only task is `t`, at generation 1, with this entry pending. */
  predicate Only(s: System, t: Task, pending: map<string, Candidate>) {
    && s.table.tasks == map["a" := t] && s.table.generations == map["a" := 1] && s.table.pending == pending
    && s.table.closed == {} && s.exec == None && s.book.clock <= 5
  }

  lemma {:induction false} DueOne(s: System, t: Task)
    requires t == SAMPLE && Only(s, t, map[])
    ensures Collected(s.table, 5).pending == map["a" := Candidate("a", 1, 5)]
  {
    assert Due(s.table, "a", 5);
    assert DueCandidates(s.table, 5) == map["a" := Candidate("a", 1, 5)];
  }

  lemma {:induction false} OnlyCollects(s: System, t: Task)
    requires t == SAMPLE && Only(s, t, map[])
    ensures Allowed(s, Collect(5)) && Only(Step(s, Collect(5)), t, map["a" := Candidate("a", 1, 5)])
  {
    DueOne(s, t);
    hide DueCandidates;
  }

  lemma {:induction false} OnlyQuarantines(s: System, t: Task, c: Candidate)
    requires t == SAMPLE && c == Candidate("a", 1, 5) && Only(s, t, map["a" := c])
    ensures var e := Claim("a", Some(c), 5, Unsynced);
      Allowed(s, e) && Only(Step(s, e), t.(unsaved := true), map[])
  {
    hide Persisted, ClaimedTask;
    assert Entitled(s.table, c, 5);
    assert map["a" := c] - {"a"} == map[];
  }

  lemma {:induction false} OnlyRetries(s: System, t: Task)
    requires t.id == "a" && !t.unsaved && Only(s, t.(unsaved := true), map[])
    ensures Allowed(s, Retry("a", Durable)) && Only(Step(s, Retry("a", Durable)), t, map[])
  {
    hide Persisted;
  }

  lemma {:induction false} OnlyUpserted()
    ensures Allowed(EMPTY, Upsert(SAMPLE, Durable)) && Only(Step(EMPTY, Upsert(SAMPLE, Durable)), SAMPLE, map[])
  {
    hide Persisted;
    assert SAMPLE.(birth := 0) == SAMPLE;
  }

  /**
   * The identity can come back: after a claim whose write stayed uncertain and a confirmed retry, the next
   * collection reserves an equal candidate, and the late release of the old one drops it.
   */
  lemma {:induction false} LateReleaseDropsEqualCandidate()
    ensures var c := Candidate("a", 1, 5);
      var events := [Upsert(SAMPLE, Durable), Collect(5), Claim("a", Some(c), 5, Unsynced), Retry("a", Durable)];
      && AllowedRun(EMPTY, events)
      && var s := Run(EMPTY, events);
      && s.table.pending == map[]
      && Collected(s.table, 5).pending == map["a" := c]
      && Released(Collected(s.table, 5), c).pending == map[]
  {
    var c := Candidate("a", 1, 5);
    var e0, e1, e2, e3 := Upsert(SAMPLE, Durable), Collect(5), Claim("a", Some(c), 5, Unsynced), Retry("a", Durable);
    OnlyUpserted();
    hide Step, Collected, Allowed;
    var s1 := Step(EMPTY, e0);
    OnlyCollects(s1, SAMPLE);
    var s2 := Step(s1, e1);
    OnlyQuarantines(s2, SAMPLE, c);
    var s3 := Step(s2, e2);
    OnlyRetries(s3, SAMPLE);
    DueOne(Step(s3, e3), SAMPLE);
    FourSteps(e0, e1, e2, e3);
    hide Run, AllowedRun;
  }

  lemma {:induction false} FirstStep(s: System, e: Event, events: seq<Event>)
    requires Allowed(s, e) && AllowedRun(Step(s, e), events)
    ensures AllowedRun(s, [e] + events) && Run(s, [e] + events) == Run(Step(s, e), events)
  {
    assert ([e] + events)[1..] == events;
  }

  lemma {:induction false} FourSteps(e0: Event, e1: Event, e2: Event, e3: Event)
    requires Allowed(EMPTY, e0) && Allowed(Step(EMPTY, e0), e1) && Allowed(Step(Step(EMPTY, e0), e1), e2)
    requires Allowed(Step(Step(Step(EMPTY, e0), e1), e2), e3)
    ensures AllowedRun(EMPTY, [e0, e1, e2, e3])
    ensures Run(EMPTY, [e0, e1, e2, e3]) == Step(Step(Step(Step(EMPTY, e0), e1), e2), e3)
  {
    hide Step, Allowed;
    FirstStep(Step(Step(Step(EMPTY, e0), e1), e2), e3, []);
    FirstStep(Step(Step(EMPTY, e0), e1), e2, [e3]);
    FirstStep(Step(EMPTY, e0), e1, [e2, e3]);
    FirstStep(EMPTY, e0, [e1, e2, e3]);
    hide AllowedRun, Run;
    assert [e0, e1, e2, e3] == [e0] + [e1, e2, e3] && [e1, e2, e3] == [e1] + [e2, e3] && [e2, e3] == [e2] + [e3];
    assert [e3] == [e3] + [];
  }
}
