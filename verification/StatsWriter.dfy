/** The background writer and its flush loop (src-tauri/src/core/stats.rs, lines 211-320). */
module StatsWriter {
  import opened Wrappers
  import opened Aggregates
  import L = Leases
  import F = StatsFlush

  /** The shared directory: the day files and the leases that guard them. */
  class StatsDirectory {
    var disk: Days
    const leases: L.InProcessCoordinator

    constructor (leases: L.InProcessCoordinator)
      ensures disk == map[] && this.leases == leases
    {
      disk, this.leases := map[], leases;
    }
  }

  /** Another holder has the lease of that day. */
  predicate Refused(t: L.Table, pid: string, date: string) {
    L.AcquireResult(t, F.DayRequest(pid, date)).Err?
  }

  function FlushedDates(pending: Days, t: L.Table, pid: string, failing: set<string>): set<string> {
    set date | date in pending && !Refused(t, pid, date) && date !in failing
  }

  /** What the flush puts in the file of one day. */
  function FlushedDay(pending: Days, disk: Days, unreadable: set<string>, date: string): DailyStats
    requires date in pending
  {
    if date in disk && date !in unreadable then MergeDays(pending[date], disk[date]) else pending[date]
  }

  function FlushedDisk(pending: Days, disk: Days, unreadable: set<string>, dates: set<string>): Days
    requires dates <= pending.Keys
  {
    map date | date in disk.Keys + dates ::
      if date in dates then FlushedDay(pending, disk, unreadable, date) else disk[date]
  }

  /** A day is refused if and only if its lease is with another process, or with another attempt of this one. */
  lemma {:induction false} RefusedIff(t: L.Table, pid: string, date: string)
    ensures Refused(t, pid, date) <==>
      var resource := "stats:" + date;
      resource in t.byResource && (t.byResource[resource].run != pid || t.byResource[resource].attempt != 0)
  {
    L.AcquireIff(t, F.DayRequest(pid, date));
  }

  /**
   * Figure by figure, what a flush leaves: a date of the backlog that is neither refused nor failing has the backlog's
   * figure in the file, on top of the old one if the file reads back; the others keep the file and the backlog.
   */
  lemma {:induction false} FlushedFigures(
    pending: Days, disk: Days, t: L.Table, pid: string, unreadable: set<string>, failing: set<string>, c: F.Cell
  )
    ensures var dates := FlushedDates(pending, t, pid, failing);
      var flushed := c.date in pending && !Refused(t, pid, c.date) && c.date !in failing;
      && F.Held(FlushedDisk(pending, disk, unreadable, dates), c)
           == (if flushed then F.Held(pending, c) else 0)
              + (if flushed && c.date in unreadable then 0 else F.Held(disk, c))
      && F.Held(pending - dates, c) == if flushed then 0 else F.Held(pending, c)
  {
    var dates := FlushedDates(pending, t, pid, failing);
    assert Pick(Read(NEW_DAY, c.bucket), c.field) == 0;
    if c.date in dates && c.date in disk {
      MergeDaysAdds(pending[c.date], disk[c.date], c.bucket, c.field);
    }
    hide MergeDays, Pick, Read, Refused;
  }

  /** The leases a flush of these days takes and gives back. */
  function OwnDays(t: L.Table, pid: string, dates: set<string>): set<string> {
    set date | date in dates && !Refused(t, pid, date) :: F.Resource(date)
  }

  class Writer {
    const pid: string
    var pending: Days

    constructor (pid: string)
      ensures pending == map[] && this.pid == pid
    {
      this.pid, pending := pid, map[];
    }

    /** The aggregation step: one record goes into all four tables of its day. */
    method Record(date: string, r: UsageRecord, t: UsageTiming)
      modifies this
      ensures pending == old(pending)[date := AddRecord(DayAt(old(pending), date), r, t)]
      ensures forall c: F.Cell ::
        F.Held(pending, c) ==
          F.Held(old(pending), c) + if c.date == date then Share(c.bucket, r, t, c.field) else 0
    {
      forall c: F.Cell | c.date == date
        ensures Pick(Read(AddRecord(DayAt(pending, date), r, t), c.bucket), c.field)
          == F.Held(pending, c) + Share(c.bucket, r, t, c.field)
      {
        AddRecordShares(DayAt(pending, date), r, t, c.bucket, c.field);
      }
      hide Share, Pick, Read, ModelAgg.Add;

      var day := DayAt(pending, date);
      var byModel := day.byModel[r.modelId := Lookup(day.byModel, r.modelId).Add(r, t)];
      var byWorkspace := day.byWorkspace[r.workspace := Lookup(day.byWorkspace, r.workspace).Add(r, t)];
      var byKind := day.byKind[r.kind := Lookup(day.byKind, r.kind).Add(r, t)];
      pending := pending[date := DailyStats(byModel, byWorkspace, byKind, day.total.Add(r, t))];
    }

    method MergeFile(day: DailyStats, old_: DailyStats) returns (merged: DailyStats)
      ensures merged == MergeDays(day, old_)
    {
      var byModel := MergeInto(day.byModel, old_.byModel);
      var byWorkspace := MergeInto(day.byWorkspace, old_.byWorkspace);
      var byKind := MergeInto(day.byKind, old_.byKind);
      merged := DailyStats(byModel, byWorkspace, byKind, day.total.Merge(old_.total));
    }

    /** One day: lease, read, merge, write, release. */
    method FlushDay(
      dir: StatsDirectory, date: string, unreadable: set<string>, failing: set<string>
    ) returns (written: bool)
      requires L.Inv(dir.leases.Contents()) && date in pending
      modifies dir, dir.leases
      ensures L.Inv(dir.leases.Contents())
      ensures var t := old(dir.leases.Contents());
        && written == (!Refused(t, pid, date) && date !in failing)
        && dir.leases.byResource
           == if Refused(t, pid, date) then t.byResource else t.byResource - {F.Resource(date)}
      ensures dir.disk == if written
        then old(dir.disk)[date := FlushedDay(pending, old(dir.disk), unreadable, date)] else old(dir.disk)
    {
      ghost var t, req := dir.leases.Contents(), F.DayRequest(pid, date);
      AcquireThenRelease(t, pid, date);
      hide L.Inv, L.Acquired, L.AcquireResult, L.Released, L.ReleaseResult, MergeDays;
      written := false;
      var acquired := dir.leases.Acquire(F.DayRequest(pid, date));
      if acquired.Err? {
        return;
      }
      var merged := pending[date];
      if date in dir.disk && date !in unreadable {
        merged := MergeFile(merged, dir.disk[date]);
      }
      if date !in failing {
        dir.disk := dir.disk[date := merged];
        written := true;
      }
      var released := dir.leases.Release(acquired.value);
    }

    /**
     * One flush that no other process interrupts. `unreadable` are the day files that do not read
     * back, `failing` the days whose file cannot be replaced. Refused and failing days stay pending.
     */
    method Flush(dir: StatsDirectory, unreadable: set<string>, failing: set<string>)
      requires L.Inv(dir.leases.Contents())
      modifies this, dir, dir.leases
      ensures var dates := FlushedDates(old(pending), old(dir.leases.Contents()), pid, failing);
        && pending == old(pending) - dates
        && dir.disk == FlushedDisk(old(pending), old(dir.disk), unreadable, dates)
      ensures dir.leases.byResource
        == old(dir.leases.byResource) - OwnDays(old(dir.leases.Contents()), pid, old(pending).Keys)
    {
      hide L.Inv, Refused, FlushedDay, Progress, FlushedDates, FlushedDisk, OwnDays;
      ghost var before := Before(pending, dir.disk, dir.leases.Contents(), pid, unreadable, failing);
      var committed: set<string> := {};
      var todo := pending.Keys;
      ProgressStart(before);
      while todo != {}
        invariant todo <= pending.Keys && pending == before.pending
        invariant L.Inv(dir.leases.Contents())
        invariant Progress(before, todo, committed, dir.disk, dir.leases.byResource)
        decreases |todo|
      {
        var date :| date in todo;
        ProgressStep(before, todo, committed, dir.disk, dir.leases.Contents(), date);
        var written := FlushDay(dir, date, unreadable, failing);
        todo := todo - {date};
        if written {
          committed := committed + {date};
        }
      }
      ProgressEnd(before, committed, dir.disk, dir.leases.byResource);
      pending := pending - committed;
    }
  }

  /** The situation when a flush begins. */
  datatype Before = Before(
    pending: Days, disk: Days, leases: L.Table, pid: string, unreadable: set<string>, failing: set<string>)

  /** The days outside `todo` are dealt with. */
  ghost predicate Progress(
    b: Before, todo: set<string>, committed: set<string>, disk: Days, held: map<string, L.Lease>
  ) {
    && todo <= b.pending.Keys
    && committed == FlushedDates(b.pending, b.leases, b.pid, b.failing) - todo
    && disk == FlushedDisk(b.pending, b.disk, b.unreadable, committed)
    && held == b.leases.byResource - OwnDays(b.leases, b.pid, b.pending.Keys - todo)
  }

  lemma {:induction false} ProgressStart(b: Before)
    ensures Progress(b, b.pending.Keys, {}, b.disk, b.leases.byResource)
  {
    hide MergeDays, Refused;
    assert b.pending.Keys - b.pending.Keys == {};
    assert OwnDays(b.leases, b.pid, {}) == {};
    assert FlushedDisk(b.pending, b.disk, b.unreadable, {}) == b.disk;
  }

  lemma {:induction false} ProgressStep(
    b: Before, todo: set<string>, committed: set<string>, disk: Days, t: L.Table, date: string
  )
    requires Progress(b, todo, committed, disk, t.byResource) && date in todo
    ensures Refused(t, b.pid, date) <==> Refused(b.leases, b.pid, date)
    ensures var day := FlushedDay(b.pending, disk, b.unreadable, date);
      if Refused(t, b.pid, date) then Progress(b, todo - {date}, committed, disk, t.byResource)
      else if date in b.failing then Progress(b, todo - {date}, committed, disk, t.byResource - {F.Resource(date)})
      else Progress(b, todo - {date}, committed + {date}, disk[date := day], t.byResource - {F.Resource(date)})
  {
    var seen := b.pending.Keys - todo;
    Untouched(b.leases, b.pid, seen, date);
    SameRefusal(b.leases, t, b.pid, date);
    hide MergeDays, Refused;
    OneMoreDay(b.leases, b.pid, seen, date);
    DiskGrows(b.pending, b.disk, b.unreadable, committed, date);
    assert b.pending.Keys - (todo - {date}) == seen + {date};
    hide FlushedDisk, FlushedDay, OwnDays;
  }

  lemma {:induction false} ProgressEnd(b: Before, committed: set<string>, disk: Days, held: map<string, L.Lease>)
    requires Progress(b, {}, committed, disk, held)
    ensures committed == FlushedDates(b.pending, b.leases, b.pid, b.failing)
    ensures disk == FlushedDisk(b.pending, b.disk, b.unreadable, committed)
    ensures held == b.leases.byResource - OwnDays(b.leases, b.pid, b.pending.Keys)
  {
    assert b.pending.Keys - {} == b.pending.Keys;
  }

  lemma {:induction false} AcquireThenRelease(t: L.Table, pid: string, date: string)
    requires L.Inv(t)
    ensures var req := F.DayRequest(pid, date);
      && L.Inv(L.Acquired(t, req))
      && (Refused(t, pid, date) <==> L.AcquireResult(t, req).Err?)
      && (Refused(t, pid, date) ==> L.Acquired(t, req).byResource == t.byResource)
      && (!Refused(t, pid, date) ==>
           var after := L.Released(L.Acquired(t, req), L.AcquireResult(t, req).value);
           L.Inv(after) && after.byResource == t.byResource - {F.Resource(date)})
  {
    var req := F.DayRequest(pid, date);
    L.StepKeepsInv(t, L.Acquire(req));
    if !Refused(t, pid, date) {
      L.StepKeepsInv(L.Acquired(t, req), L.Release(L.AcquireResult(t, req).value));
    }
  }

  lemma {:induction false} SameRefusal(t: L.Table, u: L.Table, pid: string, date: string)
    requires F.Resource(date) in t.byResource <==> F.Resource(date) in u.byResource
    requires F.Resource(date) in t.byResource ==> t.byResource[F.Resource(date)] == u.byResource[F.Resource(date)]
    ensures Refused(t, pid, date) <==> Refused(u, pid, date)
  {
  }

  lemma {:induction false} OneMoreDay(t: L.Table, pid: string, dates: set<string>, date: string)
    ensures OwnDays(t, pid, dates + {date}) ==
      OwnDays(t, pid, dates) + if Refused(t, pid, date) then {} else {F.Resource(date)}
  {
    hide Refused;
  }

  lemma {:induction false} DiskGrows(
    pending: Days, disk: Days, unreadable: set<string>, dates: set<string>, date: string
  )
    requires dates <= pending.Keys && date in pending && date !in dates
    ensures FlushedDay(pending, FlushedDisk(pending, disk, unreadable, dates), unreadable, date)
         == FlushedDay(pending, disk, unreadable, date)
    ensures FlushedDisk(pending, disk, unreadable, dates + {date})
         == FlushedDisk(pending, disk, unreadable, dates)[date := FlushedDay(pending, disk, unreadable, date)]
  {
    hide MergeDays;
  }

  /** Days have leases of their own. */
  lemma {:induction false} Untouched(t: L.Table, pid: string, dates: set<string>, date: string)
    requires date !in dates
    ensures F.Resource(date) !in OwnDays(t, pid, dates)
  {
    forall d | d in dates && F.Resource(d) == F.Resource(date) ensures false {
      F.ResourceInjective(d, date);
    }
  }
}
