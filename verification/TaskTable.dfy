/**
 * The table itself: fields updated in place, one method per operation, each proved against the function of the
 * state whose properties the other modules prove. An iteration order of a hash map is a parameter.
 */
module TaskTables {
  import opened Wrappers
  import opened Lists
  import opened Schedules
  import opened Tasks

  /** One tick of `retry_unsaved`, task by task. */
  function RetriedAll(s: Table, order: seq<string>, ios: map<string, WriteOutcome>): Table
    requires forall i | 0 <= i < |order| :: order[i] in s.tasks
    decreases |order|
  {
    if order == [] then s
    else RetriedAll(RetriedOne(s, order[0], OutcomeFor(ios, order[0])), order[1..], ios)
  }

  predicate AllIn(order: seq<string>, tasks: map<string, Task>) {
    forall i | 0 <= i < |order| :: order[i] in tasks
  }

  lemma {:induction false} RetriedTasksStay(s: Table, id: string, io: WriteOutcome)
    requires id in s.tasks && s.tasks[id].id == id
    ensures RetriedOne(s, id, io).tasks.Keys == s.tasks.Keys
    ensures forall k | k in s.tasks :: RetriedOne(s, id, io).tasks[k].id == s.tasks[k].id
  {
  }

  lemma {:induction false} InvalidatedNext(s: Table, order: seq<string>, i: nat)
    requires i < |order|
    ensures InvalidatedAll(s, order[..i + 1]) == Invalidated(InvalidatedAll(s, order[..i]), order[i])
    decreases i
  {
    if i == 0 {
      assert order[..1] == [order[0]] && order[..1][1..] == [];
      assert order[..0] == [];
    } else {
      var s1 := Invalidated(s, order[0]);
      assert order[..i + 1][1..] == order[1..][..i] && order[..i][1..] == order[1..][..i - 1];
      InvalidatedNext(s1, order[1..], i - 1);
      assert order[1..][..i - 1 + 1] == order[1..][..i];
    }
  }

  // ---------- one collection, task by task ----------

  function CollectedOne(s: Table, id: string, now: int): Table {
    if id in s.tasks && Due(s, id, now) then
      s.(pending := s.pending[id := Candidate(id, GenerationOf(s, id), s.tasks[id].nextRun.value)])
    else s
  }

  function CollectedIn(s: Table, order: seq<string>, now: int): Table
    decreases |order|
  {
    if order == [] then s else CollectedIn(CollectedOne(s, order[0], now), order[1..], now)
  }

  /** The list `collect_due` returns, in the order of iteration. */
  function DueIn(s: Table, order: seq<string>, now: int): seq<Candidate>
    decreases |order|
  {
    if order == [] then []
    else
      (if order[0] in s.tasks && Due(s, order[0], now)
       then [Candidate(order[0], GenerationOf(s, order[0]), s.tasks[order[0]].nextRun.value)] else [])
      + DueIn(CollectedOne(s, order[0], now), order[1..], now)
  }

  lemma {:induction false} NextIn(s: Table, order: seq<string>, i: nat, now: int)
    requires i < |order| && order[i] in s.tasks
    ensures CollectedIn(s, order[i..], now) == CollectedIn(CollectedOne(s, order[i], now), order[i + 1..], now)
    ensures DueIn(s, order[i..], now) ==
      (if Due(s, order[i], now) then [CollectedOne(s, order[i], now).pending[order[i]]] else [])
      + DueIn(CollectedOne(s, order[i], now), order[i + 1..], now)
  {
    assert order[i..][0] == order[i] && order[i..][1..] == order[i + 1..];
  }

  lemma {:induction false} NoneLeft(s: Table, order: seq<string>, now: int)
    ensures CollectedIn(s, order[|order|..], now) == s && DueIn(s, order[|order|..], now) == []
  {
  }

  /** Reserving one task does not change what is due for another. */
  lemma {:induction false} CollectedOneElsewhere(s: Table, k: string, id: string, now: int)
    requires k != id
    ensures var s' := CollectedOne(s, k, now);
      && (id in DueCandidates(s', now) <==> id in DueCandidates(s, now))
      && (id in DueCandidates(s, now) ==> DueCandidates(s', now)[id] == DueCandidates(s, now)[id])
      && (id in s'.pending <==> id in s.pending) && (id in s.pending ==> s'.pending[id] == s.pending[id])
  {
  }

  /** What the loop leaves for one id, and whether it listed it. */
  lemma {:induction false} CollectedInAt(s: Table, order: seq<string>, ids: set<string>, now: int, id: string)
    requires Visits(order, ids)
    ensures var (all, s') := (DueCandidates(s, now), CollectedIn(s, order, now));
      && s'.(pending := s.pending) == s
      && (id in s'.pending <==> id in s.pending || (id in ids && id in all))
      && (id in s.pending ==> s'.pending[id] == s.pending[id])
      && (id in ids && id in all ==> s'.pending[id] == all[id])
    ensures forall c: Candidate | c.id == id ::
      c in DueIn(s, order, now) <==> id in ids && id in DueCandidates(s, now) && DueCandidates(s, now)[id] == c
    decreases |order|
  {
    if order != [] {
      var k, rest := order[0], order[1..];
      assert order == [k] + rest;
      var s1 := CollectedOne(s, k, now);
      assert Visits(rest, ids - {k}) by { VisitsRest(order, ids); }
      CollectedInAt(s1, rest, ids - {k}, now, id);
      if k != id {
        CollectedOneElsewhere(s, k, id, now);
        hide CollectedOne, DueCandidates, Visits;
        assert forall c: Candidate | c.id == id :: c in DueIn(s, order, now) <==> c in DueIn(s1, rest, now);
      } else {
        hide Visits;
        assert id in DueCandidates(s, now) ==> s1.pending[id] == DueCandidates(s, now)[id];
      }
    }
  }

  lemma {:induction false} VisitsRest(order: seq<string>, ids: set<string>)
    requires Visits(order, ids) && order != []
    ensures Visits(order[1..], ids - {order[0]}) && order[0] in ids
  {
  }

  lemma {:induction false} IsUnion<K, V>(a: map<K, V>, b: map<K, V>, r: map<K, V>)
    requires forall k :: k in r <==> k in a || k in b
    requires forall k | k in b :: r[k] == b[k]
    requires forall k | k in a :: k !in b && r[k] == a[k]
    ensures r == a + b
  {
  }

  /** The loop reserves exactly the due candidates, and lists each of them. */
  lemma {:induction false} CollectedInIsCollected(s: Table, order: seq<string>, now: int)
    requires Visits(order, s.tasks.Keys)
    ensures CollectedIn(s, order, now) == Collected(s, now)
    ensures forall c :: c in DueIn(s, order, now) <==> c.id in DueCandidates(s, now) && DueCandidates(s, now)[c.id] == c
  {
    var all, s' := DueCandidates(s, now), CollectedIn(s, order, now);
    forall id: string
      ensures id in s'.pending <==> id in s.pending || id in all
      ensures id in all ==> s'.pending[id] == all[id]
      ensures id in s.pending ==> s'.pending[id] == s.pending[id]
      ensures forall c: Candidate | c.id == id :: c in DueIn(s, order, now) <==> id in all && all[id] == c
    {
      CollectedInAt(s, order, s.tasks.Keys, now, id);
    }
    CollectedInAt(s, order, s.tasks.Keys, now, "");
    assert all.Keys !! s.pending.Keys;
    hide DueCandidates, CollectedIn, DueIn, Visits;
    IsUnion(s.pending, all, s'.pending);
  }

  // ---------- the order of the result ----------

  /** By time and id. Ids differ within a result, so the generation never decides. */
  predicate CandidateLe(a: Candidate, b: Candidate) {
    if a.scheduledFor != b.scheduledFor then a.scheduledFor < b.scheduledFor
    else if a.id != b.id then StrLe(a.id, b.id)
    else a.generation <= b.generation
  }

  lemma {:induction false} CandidateOrder()
    ensures TotalOrder(CandidateLe) && Preorder(CandidateLe)
  {
    forall a, b, c
      ensures CandidateLe(a, b) || CandidateLe(b, a)
      ensures CandidateLe(a, b) && CandidateLe(b, a) ==> a == b
      ensures CandidateLe(a, b) && CandidateLe(b, c) ==> CandidateLe(a, c)
    {
      StrLeOrder(a.id, b.id, c.id);
      StrLeOrder(b.id, c.id, a.id);
      StrLeOrder(c.id, a.id, b.id);
      hide StrLe;
    }
  }

  lemma {:induction false} DueInDistinct(s: Table, order: seq<string>, now: int)
    requires forall i, j | 0 <= i < j < |order| :: order[i] != order[j]
    ensures NoDuplicates(DueIn(s, order, now)) && forall c | c in DueIn(s, order, now) :: c.id in order
    ensures forall c, d | c in DueIn(s, order, now) && d in DueIn(s, order, now) && c.id == d.id :: c == d
    decreases |order|
  {
    if order != [] {
      assert order == [order[0]] + order[1..];
      var rest := DueIn(CollectedOne(s, order[0], now), order[1..], now);
      DueInDistinct(CollectedOne(s, order[0], now), order[1..], now);
      forall c | c in rest ensures c.id != order[0] {
        var i :| 0 <= i < |order[1..]| && order[1..][i] == c.id;
        assert order[i + 1] == c.id;
      }
      hide CollectedOne, Due;
    }
  }

  /** The result is the due candidates, each once, by time and id, in whatever order the tasks are visited. */
  lemma {:induction false} ResultIsOrdered(s: Table, order: seq<string>, again: seq<string>, now: int)
    requires Visits(order, s.tasks.Keys) && Visits(again, s.tasks.Keys)
    ensures var due := SortBy(CandidateLe, DueIn(s, order, now));
      && Sorted(CandidateLe, due) && multiset(due) == multiset(DueIn(s, order, now))
      && due == SortBy(CandidateLe, DueIn(s, again, now))
  {
    CandidateOrder();
    SortBySorts(CandidateLe, DueIn(s, order, now));
    SortBySorts(CandidateLe, DueIn(s, again, now));
    CollectedInIsCollected(s, order, now);
    CollectedInIsCollected(s, again, now);
    DueInDistinct(s, order, now);
    DueInDistinct(s, again, now);
    hide DueIn, DueCandidates, CollectedIn, CandidateLe, SortBy, Visits;
    SameMembers(DueIn(s, order, now), DueIn(s, again, now));
    SortedUnique(CandidateLe, SortBy(CandidateLe, DueIn(s, order, now)), SortBy(CandidateLe, DueIn(s, again, now)));
  }

  class TaskTable {
    var tasks: map<string, Task>
    var generations: map<string, nat>
    var pending: map<string, Candidate>
    var closed: set<string>
    var serial: nat
    var disk: Disk

    ghost function Contents(): Table
      reads this
    {
      Table(tasks, generations, pending, closed, serial, disk)
    }

    /** A new process: every file that reads well is recovered and, if that changed it, written. */
    constructor (d: Disk, order: seq<string>, now: int, ios: map<string, WriteOutcome>)
      ensures Contents() == Restarted(d, order, now, ios)
    {
      tasks, generations, pending, closed, serial, disk := map[], map[], map[], {}, 0, d;
      new;
      var i := 0;
      while i < |order|
        invariant 0 <= i <= |order|
        invariant RestoredAll(Contents(), order[i..], now, ios) == Restarted(d, order, now, ios)
      {
        hide RestoredOne;
        assert order[i..][0] == order[i] && order[i..][1..] == order[i + 1..];
        Restore(order[i], now, ios);
        i := i + 1;
      }
    }

    /** One file of the startup scan. */
    method Restore(id: string, now: int, ios: map<string, WriteOutcome>)
      modifies this
      ensures Contents() == RestoredOne(old(Contents()), id, now, ios)
    {
      var image := FileOf(disk, id).visible;
      if image.Some? {
        var (t, changed) := Recovered(image.value, now);
        hide Recovered;
        if changed {
          var io := Persist(t, OutcomeFor(ios, id));
          t := t.(unsaved := io != Durable);
        }
        Invalidate(id);
        tasks := tasks[id := t];
      }
    }

    method Persist(t: Task, io: WriteOutcome) returns (result: WriteOutcome)
      modifies this`disk
      ensures result == Effective(t, io)
      ensures disk == Persisted(old(disk), t, io)
    {
      if t.project.None? {
        return Durable;
      }
      if io == Durable {
        disk := disk[t.id := File(Some(t), {Some(t)})];
      } else if io == Unsynced {
        disk := disk[t.id := File(Some(t), FileOf(disk, t.id).possible + {Some(t)})];
      }
      return io;
    }

    method Invalidate(id: string)
      modifies this`serial, this`generations, this`pending
      ensures Contents() == Invalidated(old(Contents()), id)
    {
      serial := serial + 1;
      generations := generations[id := serial];
      pending := pending - {id};
    }

    method CommitEdit(t: Task, io: WriteOutcome) returns (r: Result<Task, Error>)
      modifies this
      ensures (Contents(), r) == Edited(old(Contents()), t, io)
    {
      var saved := t.(unsaved := false);
      var result := Persist(saved, io);
      if result == Fails {
        return Err(WriteError);
      }
      saved := saved.(unsaved := result == Unsynced);
      Invalidate(t.id);
      tasks := tasks[t.id := saved];
      return Ok(saved);
    }

    method Upsert(t: Task, io: WriteOutcome) returns (r: Result<Task, Error>)
      modifies this
      ensures (Contents(), r) == Upserted(old(Contents()), t, io)
    {
      if ParseSchedule(t.schedule).None? {
        return Err(BadSchedule);
      }
      if t.project.Some? && t.project.value in closed {
        return Err(ProjectClosed);
      }
      if t.id in tasks {
        return Err(Exists);
      }
      r := CommitEdit(t, io);
    }

    method FindCurrent(id: string) returns (r: Result<Task, Error>)
      ensures r == Current(Contents(), id)
    {
      if id !in tasks {
        return Err(Missing);
      }
      var t := tasks[id];
      if t.project.Some? && t.project.value in closed {
        return Err(ProjectClosed);
      }
      return Ok(t);
    }

    method Update(id: string, name: string, instruction: string, schedule: ScheduleText, now: int, io: WriteOutcome)
      returns (r: Result<Task, Error>)
      modifies this
      ensures (Contents(), r) == Updated(old(Contents()), id, name, instruction, schedule, now, io)
    {
      var kind := ParseSchedule(schedule);
      if kind.None? {
        return Err(BadSchedule);
      }
      var found := FindCurrent(id);
      if found.Err? {
        return found;
      }
      var t := found.value;
      if t.schedule != schedule {
        var next := NextAfter(kind.value, now);
        if next.None? {
          return Err(Past);
        }
        t := t.(nextRun := next, schedule := schedule);
      }
      r := CommitEdit(t.(name := name, instruction := instruction), io);
    }

    method SetEnabled(id: string, enabled: bool, now: int, io: WriteOutcome) returns (r: Result<Task, Error>)
      modifies this
      ensures (Contents(), r) == EnabledSet(old(Contents()), id, enabled, now, io)
    {
      var found := FindCurrent(id);
      if found.Err? {
        return found;
      }
      var t := found.value;
      if enabled && !t.enabled {
        var kind := ParseSchedule(t.schedule);
        if kind.None? {
          return Err(BadSchedule);
        }
        var next := NextAfter(kind.value, now);
        if next.None? {
          return Err(Past);
        }
        t := t.(nextRun := next);
      }
      r := CommitEdit(t.(enabled := enabled), io);
    }

    method Remove(id: string, works: bool) returns (r: Result<Option<Task>, Error>)
      modifies this
      ensures (Contents(), r) == Removed(old(Contents()), id, works)
    {
      if id !in tasks {
        return Ok(None);
      }
      var t := tasks[id];
      if t.project.Some? {
        if !works {
          return Err(WriteError);
        }
        disk := FileRemoved(disk, id);
      }
      Invalidate(id);
      tasks := tasks - {id};
      return Ok(Some(t));
    }

    method DeleteProject(project: string, order: seq<string>, io: DeleteOutcome) returns (r: Result<(), Error>)
      requires Visits(order, TasksOf(Contents(), project))
      modifies this
      ensures (Contents(), r) == ProjectDeleted(old(Contents()), project, order, io)
    {
      ghost var start := Contents();
      closed := closed + {project};
      var i := 0;
      assert order[..0] == [];
      while i < |order|
        invariant 0 <= i <= |order|
        invariant Contents() == InvalidatedAll(start, order[..i]).(closed := start.closed + {project})
        invariant tasks == start.tasks && disk == start.disk
      {
        InvalidatedNext(start, order, i);
        Invalidate(order[i]);
        i := i + 1;
      }
      assert order[..i] == order;
      var ids := set id | id in tasks && tasks[id].project == Some(project);
      match io
      case DeleteFails(gone) =>
        closed := closed - {project};
        disk := WithoutFiles(disk, gone * ids);
        assert closed == start.closed - {project};
        return Err(WriteError);
      case Deleted =>
        disk := WithoutFiles(disk, ids);
        tasks := tasks - ids;
        return Ok(());
    }

    method CollectDue(now: int, order: seq<string>) returns (due: seq<Candidate>)
      requires Visits(order, tasks.Keys)
      modifies this`pending
      ensures Contents() == Collected(old(Contents()), now)
      ensures due == SortBy(CandidateLe, DueIn(old(Contents()), order, now))
    {
      CollectedInIsCollected(Contents(), order, now);
      assert AllIn(order, tasks) by {
        assert forall i | 0 <= i < |order| :: order[i] in set j | 0 <= j < |order| :: order[j];
      }
      hide Collected, CollectedIn, DueIn, Visits, SortBy, CandidateLe;
      due := ReserveAll(now, order);
      due := SortBy(CandidateLe, due);
    }

    method ReserveAll(now: int, order: seq<string>) returns (due: seq<Candidate>)
      requires AllIn(order, tasks)
      modifies this`pending
      ensures Contents() == CollectedIn(old(Contents()), order, now)
      ensures due == DueIn(old(Contents()), order, now)
    {
      ghost var start := Contents();
      due := [];
      var i := 0;
      assert order[0..] == order;
      hide CollectedIn, DueIn, CollectedOne, Due;
      while i < |order|
        invariant 0 <= i <= |order| && tasks == start.tasks
        invariant CollectedIn(Contents(), order[i..], now) == CollectedIn(start, order, now)
        invariant due + DueIn(Contents(), order[i..], now) == DueIn(start, order, now)
      {
        NextIn(Contents(), order, i, now);
        var c := Reserve(order[i], now);
        assert due + (c + DueIn(Contents(), order[i + 1..], now)) == (due + c) + DueIn(Contents(), order[i + 1..], now);
        due := due + c;
        i := i + 1;
      }
      NoneLeft(Contents(), order, now);
      assert due + [] == due;
    }

    method Reserve(id: string, now: int) returns (due: seq<Candidate>)
      requires id in tasks
      modifies this`pending
      ensures Contents() == CollectedOne(old(Contents()), id, now)
      ensures due == if Due(old(Contents()), id, now) then [pending[id]] else []
    {
      var t := tasks[id];
      if !t.enabled || t.active.Some? || t.unsaved || id in pending || (t.project.Some? && t.project.value in closed) {
        return [];
      }
      if ParseSchedule(t.schedule).None? || t.nextRun.None? || t.nextRun.value > now {
        return [];
      }
      pending := pending[id := Candidate(id, if id in generations then generations[id] else 0, t.nextRun.value)];
      return [pending[id]];
    }

    method ReleaseCandidate(c: Candidate)
      modifies this`pending
      ensures Contents() == Released(old(Contents()), c)
    {
      if c.id in pending && pending[c.id] == c {
        pending := pending - {c.id};
      }
    }

    /** The caller holds the execution lock. */
    method Claim(id: string, from: Option<Candidate>, now: int, runId: RunId, io: WriteOutcome)
      returns (r: Result<Option<Snapshot>, Error>)
      requires from.Some? ==> from.value.id == id
      modifies this
      ensures (Contents(), r) == Claimed(old(Contents()), id, from, now, runId, io)
    {
      r := ClaimUnderLock(id, from, now, runId, io);
      if from.Some? {
        ReleaseCandidate(from.value);
      }
    }

    method ClaimUnderLock(id: string, from: Option<Candidate>, now: int, runId: RunId, io: WriteOutcome)
      returns (r: Result<Option<Snapshot>, Error>)
      requires from.Some? ==> from.value.id == id
      modifies this
      ensures (Contents(), r) == ClaimedLocked(old(Contents()), id, from, now, runId, io)
    {
      if id !in tasks {
        return if from.Some? then Ok(None) else Err(Missing);
      }
      var t := tasks[id];
      if t.project.Some? && t.project.value in closed {
        return Err(ProjectClosed);
      }
      if t.active.Some? {
        return Err(AlreadyRunning);
      }
      if t.unsaved {
        return Err(ResultUnsaved);
      }
      if from.Some? {
        var c := from.value;
        if !(id in pending && pending[id] == c) || !(id in generations && generations[id] == c.generation)
          || !t.enabled || t.nextRun != Some(c.scheduledFor) || c.scheduledFor > now
        {
          return Ok(None);
        }
      }
      var kind := ParseSchedule(t.schedule);
      if kind.None? {
        return Err(BadSchedule);
      }
      var unexecuted := t;
      var run := ActiveRun(runId, if from.Some? then OnSchedule else Manual,
                           if from.Some? then Some(from.value.scheduledFor) else None, now);
      if from.Some? {
        t := t.(nextRun := NextAfter(kind.value, now));
      }
      t := t.(active := Some(run));
      var result := Persist(t, io);
      if result == Fails {
        return Err(WriteError);
      }
      if result == Unsynced {
        tasks := tasks[id := unexecuted.(unsaved := true)];
        return Err(WriteError);
      }
      tasks := tasks[id := t];
      return Ok(Some(Snapshot(t, run)));
    }

    method FinishRun(id: string, runId: RunId, run: TaskRun, io: WriteOutcome) returns (r: Result<(), Error>)
      modifies this
      ensures (Contents(), r) == Finished(old(Contents()), id, runId, run, io)
    {
      var found := FindCurrent(id);
      if found.Err? {
        return Ok(());
      }
      var t := found.value;
      if t.active.None? || t.active.value.runId != runId {
        return if HasRun(t.runs, runId) && t.unsaved then Err(ResultUnsaved) else Ok(());
      }
      t := Appended(t, run.(runId := Some(runId)));
      t := t.(active := None, unsaved := false);
      var result := Persist(t, io);
      tasks := tasks[id := t.(unsaved := result != Durable)];
      return if result == Durable then Ok(()) else Err(WriteError);
    }

    method RetryOne(id: string, io: WriteOutcome)
      requires id in tasks
      modifies this`tasks, this`disk
      ensures Contents() == RetriedOne(old(Contents()), id, io)
    {
      var t := tasks[id];
      if t.unsaved {
        t := t.(unsaved := false);
        var result := Persist(t, io);
        if result == Durable {
          tasks := tasks[id := t];
        }
      }
    }

    /** `order` visits the tasks marked unsaved. */
    method RetryUnsaved(order: seq<string>, ios: map<string, WriteOutcome>)
      requires AllIn(order, tasks) && forall id | id in tasks :: tasks[id].id == id
      modifies this`tasks, this`disk
      ensures Contents() == RetriedAll(old(Contents()), order, ios)
    {
      ghost var start := Contents();
      var i := 0;
      while i < |order|
        invariant 0 <= i <= |order|
        invariant AllIn(order[i..], tasks) && forall id | id in tasks :: tasks[id].id == id
        invariant RetriedAll(Contents(), order[i..], ios) == RetriedAll(start, order, ios)
      {
        hide RetriedOne;
        assert order[i..][0] == order[i] && order[i..][1..] == order[i + 1..];
        RetriedTasksStay(Contents(), order[i], OutcomeFor(ios, order[i]));
        RetryOne(order[i], OutcomeFor(ios, order[i]));
        i := i + 1;
      }
    }
  }
}
