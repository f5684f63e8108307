/**
 * Usage flushing by any number of processes that share one statistics directory
 * (src-tauri/src/core/stats.rs, lines 211-320), over the lease table of `Leases`.
 */
module StatsFlush {
  import opened Wrappers
  import opened Aggregates
  import L = Leases

  /** Where a process stands in `flush`. `committed` are the dates it will drop from `pending`. */
  datatype Stage =
    | Idle
    | Scanning(todo: set<string>, committed: set<string>)
    | Holding(todo: set<string>, committed: set<string>, date: string, lease: L.Lease)
    | Merged(todo: set<string>, committed: set<string>, date: string, lease: L.Lease,
             day: DailyStats, base: Option<DailyStats>)
    | Written(todo: set<string>, committed: set<string>, date: string, lease: L.Lease)

  datatype Process = Process(pending: Days, stage: Stage)

  /** `recorded` and `lost` are bookkeeping of the model: all usage so far, and usage that left no trace. */
  datatype System = System(
    disk: Days, leases: L.Table, processes: map<string, Process>, recorded: Days, lost: Days)

  datatype WriteOutcome = Stored | WriteFailed | NotSerialized

  datatype Event =
    | Record(pid: string, date: string, r: UsageRecord, t: UsageTiming)
    | StartFlush(pid: string)
    | AcquireDay(pid: string, date: string)
    | ReadDay(pid: string, readable: bool)
    | WriteDay(pid: string, outcome: WriteOutcome)
    | ReleaseDay(pid: string, works: bool)
    | EndFlush(pid: string)

  // ---------- steps ----------

  function Resource(date: string): string {
    "stats:" + date
  }

  function DayRequest(pid: string, date: string): L.AcquireRequest {
    L.AcquireRequest("stats", pid, Resource(date), 0, None)
  }

  function With(s: System, pid: string, p: Process): System {
    s.(processes := s.processes[pid := p])
  }

  function Acquiring(s: System, pid: string, p: Process, date: string): System
    requires p.stage.Scanning?
  {
    var Scanning(todo, committed) := p.stage;
    var req := DayRequest(pid, date);
    match L.AcquireResult(s.leases, req)
    case Err(_) => With(s, pid, p.(stage := Scanning(todo - {date}, committed)))
    case Ok(lease) =>
      With(s, pid, p.(stage := Holding(todo - {date}, committed, date, lease))).(leases := L.Acquired(s.leases, req))
  }

  /** An existing file that cannot be read or decoded counts as no file. */
  function Reading(s: System, pid: string, p: Process, readable: bool): System
    requires p.stage.Holding?
  {
    var Holding(todo, committed, date, lease) := p.stage;
    var base := if readable && date in s.disk then Some(s.disk[date]) else None;
    var day := DayAt(p.pending, date);
    var merged := if base.Some? then MergeDays(day, base.value) else day;
    With(s, pid, p.(stage := Merged(todo, committed, date, lease, merged, base)))
  }

  function Writing(s: System, pid: string, p: Process, outcome: WriteOutcome): System
    requires p.stage.Merged?
  {
    var Merged(todo, committed, date, lease, day, base) := p.stage;
    match outcome
    case WriteFailed => With(s, pid, p.(stage := Written(todo, committed, date, lease)))
    case Stored =>
      With(s, pid, p.(stage := Written(todo, committed + {date}, date, lease)))
        .(disk := s.disk[date := day],
          lost := if base.None? then s.lost[date := MergeDays(DayAt(s.lost, date), DayAt(s.disk, date))] else s.lost)
    case NotSerialized =>
      With(s, pid, p.(stage := Written(todo, committed + {date}, date, lease)))
        .(lost := s.lost[date := MergeDays(DayAt(s.lost, date), DayAt(p.pending, date))])
  }

  function Releasing(s: System, pid: string, p: Process, works: bool): System
    requires p.stage.Written?
  {
    With(s, pid, p.(stage := Scanning(p.stage.todo, p.stage.committed)))
      .(leases := if works then L.Released(s.leases, p.stage.lease) else s.leases)
  }

  function Recording(s: System, pid: string, p: Process, date: string, r: UsageRecord, t: UsageTiming): System {
    With(s, pid, p.(pending := p.pending[date := AddRecord(DayAt(p.pending, date), r, t)]))
      .(recorded := s.recorded[date := AddRecord(DayAt(s.recorded, date), r, t)])
  }

  /** An event that does not fit the stage of its process does nothing. */
  function Step(s: System, e: Event): System {
    if e.pid !in s.processes then s
    else
      var p := s.processes[e.pid];
      match e
      case Record(pid, date, r, t) => if p.stage.Idle? then Recording(s, pid, p, date, r, t) else s
      case StartFlush(pid) =>
        if p.stage.Idle? then With(s, pid, p.(stage := Scanning(p.pending.Keys, {}))) else s
      case AcquireDay(pid, date) =>
        if p.stage.Scanning? && date in p.stage.todo then Acquiring(s, pid, p, date) else s
      case ReadDay(pid, readable) => if p.stage.Holding? then Reading(s, pid, p, readable) else s
      case WriteDay(pid, outcome) => if p.stage.Merged? then Writing(s, pid, p, outcome) else s
      case ReleaseDay(pid, works) => if p.stage.Written? then Releasing(s, pid, p, works) else s
      case EndFlush(pid) =>
        if p.stage.Scanning? && p.stage.todo == {}
        then With(s, pid, Process(p.pending - p.stage.committed, Idle)) else s
  }

  function Run(s: System, events: seq<Event>): System
    decreases |events|
  {
    if events == [] then s else Run(Step(s, events[0]), events[1..])
  }

  function Fresh(pids: set<string>): System {
    System(map[], L.EMPTY, map pid | pid in pids :: Process(map[], Idle), map[], map[])
  }

  // ---------- conservation ----------

  function Committed(p: Process): set<string> {
    if p.stage.Idle? then {} else p.stage.committed
  }

  /** One counter of one figure: a date, a bucket of its breakdowns, a field. */
  datatype Cell = Cell(date: string, bucket: Bucket, field: Field)

  function Held(days: Days, c: Cell): nat {
    Amount(days, c.date, c.bucket, c.field)
  }

  /** What a process still has to write. */
  function Unwritten(p: Process, c: Cell): nat {
    if c.date in Committed(p) then 0 else Held(p.pending, c)
  }

  function UnwrittenBy(processes: map<string, Process>, c: Cell): map<string, nat> {
    map pid | pid in processes :: Unwritten(processes[pid], c)
  }

  ghost function TotalUnwritten(s: System, c: Cell): nat {
    SumOver(s.processes.Keys, UnwrittenBy(s.processes, c))
  }

  /** Everything recorded is on disk, still to be written, or was lost. */
  ghost predicate Conserves(s: System, c: Cell) {
    Held(s.recorded, c) == Held(s.disk, c) + TotalUnwritten(s, c) + Held(s.lost, c)
  }

  ghost predicate Conserved(s: System) {
    forall c :: Conserves(s, c)
  }

  // ---------- mutual exclusion ----------

  predicate Holds(s: System, pid: string, date: string, lease: L.Lease) {
    && lease.run == pid && lease.resource == Resource(date)
    && Resource(date) in s.leases.byResource
    && s.leases.byResource[Resource(date)] == lease
  }

  predicate HoldsDay(stage: Stage) {
    stage.Holding? || stage.Merged? || stage.Written?
  }

  /** A process in the critical section of a day owns its lease, and what it read is still there. */
  ghost predicate StageOk(s: System, pid: string, p: Process) {
    && (!p.stage.Idle? ==> p.stage.todo !! p.stage.committed && p.stage.todo + p.stage.committed <= p.pending.Keys)
    && (HoldsDay(p.stage) ==> Holds(s, pid, p.stage.date, p.stage.lease) && p.stage.date !in p.stage.todo)
    && (p.stage.Holding? || p.stage.Merged? ==> p.stage.date in p.pending && p.stage.date !in p.stage.committed)
    && (p.stage.Merged? ==>
      p.stage.day == match p.stage.base
        case Some(old_) => MergeDays(p.pending[p.stage.date], old_)
        case None => p.pending[p.stage.date])
    && (p.stage.Merged? && p.stage.base.Some? ==>
      p.stage.date in s.disk && s.disk[p.stage.date] == p.stage.base.value)
  }

  ghost predicate Inv(s: System) {
    && L.Inv(s.leases)
    && forall pid | pid in s.processes :: StageOk(s, pid, s.processes[pid])
  }

  lemma {:induction false} ResourceInjective(a: string, b: string)
    requires Resource(a) == Resource(b)
    ensures a == b
  {
    assert Resource(a)[6..] == a && Resource(b)[6..] == b;
  }

  /** No two processes are in the critical section of the same day. */
  lemma {:induction false} MutualExclusion(s: System, p: string, q: string)
    requires Inv(s) && p in s.processes && q in s.processes && p != q
    requires HoldsDay(s.processes[p].stage) && HoldsDay(s.processes[q].stage)
    ensures s.processes[p].stage.date != s.processes[q].stage.date
  {
    assert StageOk(s, p, s.processes[p]) && StageOk(s, q, s.processes[q]);
  }

  // What the step of one process leaves intact for the others.
  lemma {:induction false} OthersKeepLeases(s: System, e: Event, pid: string, date: string, lease: L.Lease)
    requires Inv(s) && e.pid in s.processes && pid != e.pid && Holds(s, pid, date, lease)
    ensures Holds(Step(s, e), pid, date, lease)
  {
    var p := s.processes[e.pid];
    if e.ReleaseDay? && p.stage.Written? {
      assert StageOk(s, e.pid, p);
      assert Resource(p.stage.date) != Resource(date);
    }
  }

  lemma {:induction false} OthersKeepDay(s: System, e: Event, pid: string)
    requires Inv(s) && e.pid in s.processes && pid in s.processes && pid != e.pid
    requires HoldsDay(s.processes[pid].stage)
    ensures var date := s.processes[pid].stage.date;
      (date in s.disk <==> date in Step(s, e).disk) && (date in s.disk ==> Step(s, e).disk[date] == s.disk[date])
  {
    if e.WriteDay? && s.processes[e.pid].stage.Merged? {
      MutualExclusion(s, e.pid, pid);
    }
  }

  lemma {:induction false} StageOkFrame(s: System, s': System, pid: string, p: Process)
    requires StageOk(s, pid, p)
    requires HoldsDay(p.stage) ==> Holds(s', pid, p.stage.date, p.stage.lease)
    requires HoldsDay(p.stage) && p.stage.date in s.disk ==>
      p.stage.date in s'.disk && s'.disk[p.stage.date] == s.disk[p.stage.date]
    ensures StageOk(s', pid, p)
  {
  }

  lemma {:induction false} OnlyOneMoves(s: System, e: Event)
    requires e.pid in s.processes
    ensures var s' := Step(s, e);
      s'.processes.Keys == s.processes.Keys && s'.processes == s.processes[e.pid := s'.processes[e.pid]]
  {
    hide AddRecord, MergeDays, L.AcquireResult, L.Acquired, L.Released;
  }

  lemma {:induction false} StepKeepsOther(s: System, e: Event, pid: string)
    requires Inv(s) && e.pid in s.processes && pid in s.processes && pid != e.pid
    ensures pid in Step(s, e).processes && Step(s, e).processes[pid] == s.processes[pid]
    ensures StageOk(Step(s, e), pid, s.processes[pid])
  {
    var p := s.processes[pid];
    OnlyOneMoves(s, e);
    assert StageOk(s, pid, p);
    hide StageOk, Step;
    if HoldsDay(p.stage) {
      assert Holds(s, pid, p.stage.date, p.stage.lease) by { StageHolds(s, pid, p); }
      OthersKeepLeases(s, e, pid, p.stage.date, p.stage.lease);
      OthersKeepDay(s, e, pid);
    }
    StageOkFrame(s, Step(s, e), pid, p);
  }

  lemma {:induction false} StageHolds(s: System, pid: string, p: Process)
    requires StageOk(s, pid, p) && HoldsDay(p.stage)
    ensures Holds(s, pid, p.stage.date, p.stage.lease)
  {
  }

  lemma {:induction false} AcquiringKeepsSelf(s: System, pid: string, p: Process, date: string)
    requires StageOk(s, pid, p) && p.stage.Scanning? && date in p.stage.todo
    requires L.Inv(s.leases)
    ensures var s' := Acquiring(s, pid, p, date); pid in s'.processes && StageOk(s', pid, s'.processes[pid])
  {
    var req := DayRequest(pid, date);
    if L.AcquireResult(s.leases, req).Ok? {
      var lease := L.AcquireResult(s.leases, req).value;
      assert L.Acquired(s.leases, req).byResource[Resource(date)] == lease;
    }
  }

  lemma {:induction false} WritingKeepsSelf(s: System, pid: string, p: Process, outcome: WriteOutcome)
    requires StageOk(s, pid, p) && p.stage.Merged?
    ensures var s' := Writing(s, pid, p, outcome); pid in s'.processes && StageOk(s', pid, s'.processes[pid])
  {
    hide MergeDays;
  }

  lemma {:induction false} ReadingKeepsSelf(s: System, pid: string, p: Process, readable: bool)
    requires StageOk(s, pid, p) && p.stage.Holding?
    ensures var s' := Reading(s, pid, p, readable); pid in s'.processes && StageOk(s', pid, s'.processes[pid])
  {
    hide MergeDays;
  }

  lemma {:induction false} StepKeepsSelf(s: System, e: Event)
    requires Inv(s) && e.pid in s.processes
    ensures var s' := Step(s, e); e.pid in s'.processes && StageOk(s', e.pid, s'.processes[e.pid])
  {
    var p := s.processes[e.pid];
    assert StageOk(s, e.pid, p);
    match e
    case AcquireDay(pid, date) =>
      if p.stage.Scanning? && date in p.stage.todo { AcquiringKeepsSelf(s, pid, p, date); }
    case ReadDay(pid, readable) =>
      if p.stage.Holding? { ReadingKeepsSelf(s, pid, p, readable); }
    case WriteDay(pid, outcome) =>
      if p.stage.Merged? { WritingKeepsSelf(s, pid, p, outcome); }
    case _ =>
  }

  lemma {:induction false} StepKeepsLeaseTable(s: System, e: Event)
    requires L.Inv(s.leases)
    ensures L.Inv(Step(s, e).leases)
  {
  }

  lemma {:induction false} StepKeepsInv(s: System, e: Event)
    requires Inv(s)
    ensures Inv(Step(s, e)) && Step(s, e).processes.Keys == s.processes.Keys
  {
    StepKeepsLeaseTable(s, e);
    if e.pid in s.processes {
      OnlyOneMoves(s, e);
      hide Step, StageOk;
      StepKeepsSelf(s, e);
      forall pid | pid in s.processes && pid != e.pid
        ensures pid in Step(s, e).processes && StageOk(Step(s, e), pid, Step(s, e).processes[pid])
      {
        StepKeepsOther(s, e, pid);
      }
    }
  }

  // ---------- every step conserves every figure ----------

  ghost function Rest(s: System, pid: string, c: Cell): nat {
    SumOver(s.processes.Keys - {pid}, UnwrittenBy(s.processes, c))
  }

  lemma {:induction false} TotalSplit(s: System, pid: string, c: Cell)
    requires pid in s.processes
    ensures TotalUnwritten(s, c) == Unwritten(s.processes[pid], c) + Rest(s, pid, c)
  {
    SumSplit(s.processes.Keys, UnwrittenBy(s.processes, c), pid);
  }

  lemma {:induction false} RestStays(s: System, e: Event, c: Cell)
    requires e.pid in s.processes
    ensures Rest(Step(s, e), e.pid, c) == Rest(s, e.pid, c)
  {
    OnlyOneMoves(s, e);
    hide Step, Unwritten;
    SumAgrees(s.processes.Keys - {e.pid}, UnwrittenBy(s.processes, c), UnwrittenBy(Step(s, e).processes, c));
  }

  lemma {:induction false} RecordBalance(
    s: System, pid: string, p: Process, date: string, r: UsageRecord, t: UsageTiming, c: Cell
  )
    requires p.stage.Idle?
    ensures var s', p' := Recording(s, pid, p, date, r, t), Recording(s, pid, p, date, r, t).processes[pid];
      Held(s'.recorded, c) - Held(s.recorded, c) == Unwritten(p', c) - Unwritten(p, c)
  {
    AddRecordShares(DayAt(p.pending, date), r, t, c.bucket, c.field);
    AddRecordShares(DayAt(s.recorded, date), r, t, c.bucket, c.field);
    hide AddRecord, Read, Share, Pick;
  }

  lemma {:induction false} HeldPut(days: Days, date: string, day: DailyStats, c: Cell)
    ensures Held(days[date := day], c) ==
      if c.date == date then Pick(Read(day, c.bucket), c.field) else Held(days, c)
    ensures Held(days, c) == Pick(Read(DayAt(days, c.date), c.bucket), c.field)
  {
    hide Pick, Read;
  }

  lemma {:induction false} HeldMerge(days: Days, date: string, a: DailyStats, b: DailyStats, c: Cell)
    ensures Held(days[date := MergeDays(a, b)], c) ==
      if c.date == date then Pick(Read(a, c.bucket), c.field) + Pick(Read(b, c.bucket), c.field) else Held(days, c)
  {
    HeldPut(days, date, MergeDays(a, b), c);
    MergeDaysAdds(a, b, c.bucket, c.field);
  }

  /** A stored day: the figures of the file and of the backlog are now in the file. */
  lemma {:induction false} StoreBalance(s: System, pid: string, p: Process, c: Cell)
    requires StageOk(s, pid, p) && p.stage.Merged?
    ensures var s' := Writing(s, pid, p, Stored);
      Held(s'.disk, c) + Held(s'.lost, c)
        == Held(s.disk, c) + Held(s.lost, c) + if c.date == p.stage.date then Held(p.pending, c) else 0
  {
    var date, base := p.stage.date, p.stage.base;
    HeldPut(p.pending, date, p.stage.day, c);
    HeldPut(s.disk, date, p.stage.day, c);
    hide MergeDays, Read, Pick, Held;
    if base.Some? {
      HeldMerge(s.disk, date, p.pending[date], base.value, c);
    } else {
      HeldMerge(s.lost, date, DayAt(s.lost, date), DayAt(s.disk, date), c);
      HeldPut(s.lost, date, p.stage.day, c);
    }
  }

  lemma {:induction false} WriteDropsBacklog(s: System, pid: string, p: Process, outcome: WriteOutcome, c: Cell)
    requires StageOk(s, pid, p) && p.stage.Merged?
    ensures var p' := Writing(s, pid, p, outcome).processes[pid];
      Unwritten(p, c) == Unwritten(p', c) + if c.date == p.stage.date && !outcome.WriteFailed? then Held(p.pending, c)
        else 0
  {
    assert p.stage.date !in Committed(p);
    hide MergeDays, Held;
  }

  lemma {:induction false} WriteBalance(s: System, pid: string, p: Process, outcome: WriteOutcome, c: Cell)
    requires StageOk(s, pid, p) && p.stage.Merged?
    ensures var s', p' := Writing(s, pid, p, outcome), Writing(s, pid, p, outcome).processes[pid];
      Held(s'.disk, c) + Unwritten(p', c) + Held(s'.lost, c) == Held(s.disk, c) + Unwritten(p, c) + Held(s.lost, c)
  {
    WriteDropsBacklog(s, pid, p, outcome, c);
    match outcome
    case WriteFailed =>
      hide MergeDays, Held, StageOk, Unwritten;
    case NotSerialized =>
      HeldPut(s.lost, p.stage.date, p.stage.day, c);
      HeldPut(p.pending, p.stage.date, p.stage.day, c);
      hide MergeDays, Read, Pick, Held, StageOk, Unwritten;
      HeldMerge(s.lost, p.stage.date, DayAt(s.lost, p.stage.date), DayAt(p.pending, p.stage.date), c);
    case Stored =>
      StoreBalance(s, pid, p, c);
      hide MergeDays, Held, StageOk, Unwritten;
  }

  lemma {:induction false} EndBalance(p: Process, c: Cell)
    requires p.stage.Scanning? && p.stage.todo == {}
    ensures Unwritten(Process(p.pending - p.stage.committed, Idle), c) == Unwritten(p, c)
  {
    assert Pick(Read(NEW_DAY, c.bucket), c.field) == 0;
    hide Pick, Read;
  }

  /** What enters the record enters the backlog; what leaves the backlog is on disk or lost. */
  lemma {:induction false} StepBalance(s: System, e: Event, c: Cell)
    requires Inv(s) && e.pid in s.processes
    ensures var s' := Step(s, e);
      && e.pid in s'.processes
      && Held(s'.recorded, c) - Held(s.recorded, c)
         == Held(s'.disk, c) - Held(s.disk, c) + Held(s'.lost, c) - Held(s.lost, c)
            + Unwritten(s'.processes[e.pid], c) - Unwritten(s.processes[e.pid], c)
  {
    var p := s.processes[e.pid];
    assert StageOk(s, e.pid, p);
    OnlyOneMoves(s, e);
    hide StageOk, MergeDays, AddRecord, Held, Amount, Inv;
    if e.Record? && p.stage.Idle? {
      RecordBalance(s, e.pid, p, e.date, e.r, e.t, c);
    } else if e.WriteDay? && p.stage.Merged? {
      WriteBalance(s, e.pid, p, e.outcome, c);
    } else if e.EndFlush? && p.stage.Scanning? && p.stage.todo == {} {
      EndBalance(p, c);
    } else {
      QuietStep(s, e);
      hide Step;
    }
  }

  /** The other steps move no figure. */
  lemma {:induction false} QuietStep(s: System, e: Event)
    requires e.pid in s.processes
    requires var p := s.processes[e.pid];
      !(e.Record? && p.stage.Idle?) && !(e.WriteDay? && p.stage.Merged?)
      && !(e.EndFlush? && p.stage.Scanning? && p.stage.todo == {})
    ensures var s' := Step(s, e);
      && e.pid in s'.processes
      && s'.disk == s.disk && s'.recorded == s.recorded && s'.lost == s.lost
      && s'.processes[e.pid].pending == s.processes[e.pid].pending
      && Committed(s'.processes[e.pid]) == Committed(s.processes[e.pid])
  {
    hide MergeDays, AddRecord, L.Acquired, L.AcquireResult, L.Released;
  }

  lemma {:induction false} StepConserves(s: System, e: Event, c: Cell)
    requires Inv(s) && Conserves(s, c)
    ensures Conserves(Step(s, e), c)
  {
    if e.pid in s.processes {
      StepBalance(s, e, c);
      TotalSplit(s, e.pid, c);
      TotalSplit(Step(s, e), e.pid, c);
      RestStays(s, e, c);
      hide Step, Held, Unwritten, TotalUnwritten, Rest, Inv;
    }
  }

  /** Over every run of any processes, whatever fails: nothing is counted twice and nothing vanishes unnoticed. */
  lemma {:induction false} RunConserves(s: System, events: seq<Event>)
    requires Inv(s) && Conserved(s)
    ensures Inv(Run(s, events)) && Conserved(Run(s, events))
    decreases |events|
  {
    if events != [] {
      StepKeepsInv(s, events[0]);
      forall c ensures Conserves(Step(s, events[0]), c) {
        StepConserves(s, events[0], c);
      }
      hide Step, Conserves, Inv;
      RunConserves(Step(s, events[0]), events[1..]);
    }
  }

  lemma {:induction false} FreshConserved(pids: set<string>)
    ensures Inv(Fresh(pids)) && Conserved(Fresh(pids))
  {
    var s := Fresh(pids);
    forall c ensures Conserves(s, c) {
      assert Held(map[], c) == 0;
      SumZero(s.processes.Keys, UnwrittenBy(s.processes, c));
    }
  }

  // ---------- every flush ends ----------

  /** The event fits the stage of its process. */
  predicate Fits(s: System, e: Event) {
    e.pid in s.processes &&
    var stage := s.processes[e.pid].stage;
    match e
    case Record(_, _, _, _) => stage.Idle?
    case StartFlush(_) => stage.Idle?
    case AcquireDay(_, date) => stage.Scanning? && date in stage.todo
    case ReadDay(_, _) => stage.Holding?
    case WriteDay(_, _) => stage.Merged?
    case ReleaseDay(_, _) => stage.Written?
    case EndFlush(_) => stage.Scanning? && stage.todo == {}
  }

  /** How many steps of its own a flush may still take. */
  function Work(stage: Stage): nat {
    match stage
    case Idle => 0
    case Scanning(todo, _) => 1 + 4 * |todo|
    case Holding(todo, _, _, _) => 4 + 4 * |todo|
    case Merged(todo, _, _, _, _, _) => 3 + 4 * |todo|
    case Written(todo, _, _, _) => 2 + 4 * |todo|
  }

  /** The dates the next end of the flush drops from the backlog, after an event. */
  function CommittedAfter(s: System, e: Event): set<string>
    requires Fits(s, e)
  {
    var p := s.processes[e.pid];
    match e
    case WriteDay(_, outcome) => Committed(p) + if outcome.WriteFailed? then {} else {p.stage.date}
    case EndFlush(_) => {}
    case _ => Committed(p)
  }

  /** An event that does not fit changes nothing. */
  lemma {:induction false} UnfitStepIdles(s: System, e: Event)
    requires !Fits(s, e)
    ensures Step(s, e) == s
  {
  }

  /** What a step of the flush makes of its process. */
  predicate Advanced(p: Process, e: Event, committed: set<string>, p': Process) {
    && Committed(p') == committed
    && (e.StartFlush? ==> p'.stage == Scanning(p.pending.Keys, {}) && p'.pending == p.pending)
    && (!e.StartFlush? ==> Work(p'.stage) < Work(p.stage))
    && (e.EndFlush? ==> p'.stage.Idle? && p'.pending == p.pending - Committed(p))
    && (!e.EndFlush? ==> p'.pending == p.pending && !p'.stage.Idle?)
  }

  lemma {:induction false} AcquireAdvances(s: System, e: Event)
    requires Fits(s, e) && e.AcquireDay?
    ensures e.pid in Step(s, e).processes
    ensures Advanced(s.processes[e.pid], e, CommittedAfter(s, e), Step(s, e).processes[e.pid])
  {
    var p := s.processes[e.pid];
    assert |p.stage.todo - {e.date}| == |p.stage.todo| - 1;
    hide MergeDays, L.AcquireResult, L.Acquired;
  }

  lemma {:induction false} ReadAdvances(s: System, e: Event)
    requires Fits(s, e) && e.ReadDay?
    ensures e.pid in Step(s, e).processes
    ensures Advanced(s.processes[e.pid], e, CommittedAfter(s, e), Step(s, e).processes[e.pid])
  {
    hide MergeDays;
  }

  lemma {:induction false} WriteAdvances(s: System, e: Event)
    requires Fits(s, e) && e.WriteDay?
    ensures e.pid in Step(s, e).processes
    ensures Advanced(s.processes[e.pid], e, CommittedAfter(s, e), Step(s, e).processes[e.pid])
  {
    var p := s.processes[e.pid];
    WriteLeaves(s, e.pid, p, e.outcome);
    assert Step(s, e) == Writing(s, e.pid, p, e.outcome);
    hide Writing, Step;
  }

  lemma {:induction false} WriteLeaves(s: System, pid: string, p: Process, outcome: WriteOutcome)
    requires p.stage.Merged?
    ensures var committed := p.stage.committed + if outcome.WriteFailed? then {} else {p.stage.date};
      Writing(s, pid, p, outcome).processes
        == s.processes[pid := p.(stage := Written(p.stage.todo, committed, p.stage.date, p.stage.lease))]
  {
    hide MergeDays, DayAt;
    assert p.stage.committed + {} == p.stage.committed;
  }

  lemma {:induction false} ReleaseAdvances(s: System, e: Event)
    requires Fits(s, e) && e.ReleaseDay?
    ensures e.pid in Step(s, e).processes
    ensures Advanced(s.processes[e.pid], e, CommittedAfter(s, e), Step(s, e).processes[e.pid])
  {
    hide L.Released;
  }

  lemma {:induction false} EdgeAdvances(s: System, e: Event)
    requires Fits(s, e) && (e.StartFlush? || e.EndFlush?)
    ensures e.pid in Step(s, e).processes
    ensures Advanced(s.processes[e.pid], e, CommittedAfter(s, e), Step(s, e).processes[e.pid])
  {
  }

  /**
   * A flush looks at every day of the backlog once, whatever is refused and whatever fails: it starts with all of them,
   * each of its steps leaves less to do, some step always fits, and a date is committed by its write alone. At the end
   * exactly the committed dates leave the backlog.
   */
  lemma {:induction false} FlushAdvances(s: System, e: Event)
    requires Fits(s, e) && !e.Record?
    ensures e.pid in Step(s, e).processes
    ensures Advanced(s.processes[e.pid], e, CommittedAfter(s, e), Step(s, e).processes[e.pid])
  {
    hide Step, Advanced;
    if e.AcquireDay? {
      AcquireAdvances(s, e);
    } else if e.StartFlush? || e.EndFlush? {
      EdgeAdvances(s, e);
    } else if e.ReadDay? {
      ReadAdvances(s, e);
    } else if e.WriteDay? {
      WriteAdvances(s, e);
    } else {
      ReleaseAdvances(s, e);
    }
  }

  /** A lease that is given back is free, and one that cannot be given back stays. */
  lemma {:induction false} ReleasedOrKept(s: System, e: Event)
    requires Inv(s) && Fits(s, e) && e.ReleaseDay?
    ensures e.works ==> Resource(s.processes[e.pid].stage.date) !in Step(s, e).leases.byResource
    ensures !e.works ==> Step(s, e).leases == s.leases
  {
    assert StageOk(s, e.pid, s.processes[e.pid]);
  }

  lemma {:induction false} SomeStepFits(s: System, pid: string)
    requires pid in s.processes && !s.processes[pid].stage.Idle?
    ensures exists e: Event :: e.pid == pid && Fits(s, e) && !e.Record? && !e.StartFlush?
  {
    match s.processes[pid].stage
    case Scanning(todo, _) =>
      if todo == {} {
        assert Fits(s, EndFlush(pid));
      } else {
        var date :| date in todo;
        assert Fits(s, AcquireDay(pid, date));
      }
    case Holding(_, _, _, _) => assert Fits(s, ReadDay(pid, true));
    case Merged(_, _, _, _, _, _) => assert Fits(s, WriteDay(pid, Stored));
    case Written(_, _, _, _) => assert Fits(s, ReleaseDay(pid, true));
  }

  // ---------- what was submitted ----------

  /** The record takes effect: its process exists and is not flushing. */
  predicate Enters(s: System, e: Event) {
    e.Record? && e.pid in s.processes && s.processes[e.pid].stage.Idle?
  }

  /** The sum of what the records of a run bring to one counter of one figure of one date. */
  function Submitted(s: System, events: seq<Event>, c: Cell): nat
    decreases |events|
  {
    if events == [] then 0
    else
      var e := events[0];
      (if Enters(s, e) && e.date == c.date then Share(c.bucket, e.r, e.t, c.field) else 0)
      + Submitted(Step(s, e), events[1..], c)
  }

  lemma {:induction false} OnlyRecordsEnter(s: System, e: Event)
    requires !Enters(s, e)
    ensures Step(s, e).recorded == s.recorded
  {
    hide AddRecord, MergeDays, L.Acquired, L.AcquireResult, L.Released;
  }

  lemma {:induction false} RecordEnters(s: System, e: Event, c: Cell)
    requires Enters(s, e)
    ensures Held(Step(s, e).recorded, c)
      == Held(s.recorded, c) + if e.date == c.date then Share(c.bucket, e.r, e.t, c.field) else 0
  {
    var day := AddRecord(DayAt(s.recorded, e.date), e.r, e.t);
    assert Step(s, e).recorded == s.recorded[e.date := day];
    HeldPut(s.recorded, e.date, day, c);
    AddRecordShares(DayAt(s.recorded, e.date), e.r, e.t, c.bucket, c.field);
    hide Step, AddRecord, Pick, Read, Share, Held;
  }

  lemma {:induction false} RecordedIsSubmitted(s: System, events: seq<Event>, c: Cell)
    ensures Held(Run(s, events).recorded, c) == Held(s.recorded, c) + Submitted(s, events, c)
    decreases |events|
  {
    if events != [] {
      if Enters(s, events[0]) {
        RecordEnters(s, events[0], c);
      } else {
        OnlyRecordsEnter(s, events[0]);
      }
      hide Step, Held, Enters, Share;
      RecordedIsSubmitted(Step(s, events[0]), events[1..], c);
    }
  }

  /**
   * From a fresh start, for every interleaving: the disk, the backlogs and the losses add up to what the records that
   * took effect brought, for each counter of each figure of each date.
   */
  lemma {:induction false} SubmittedIsAccounted(pids: set<string>, events: seq<Event>, c: Cell)
    ensures var s := Run(Fresh(pids), events);
      Held(s.disk, c) + TotalUnwritten(s, c) + Held(s.lost, c) == Submitted(Fresh(pids), events, c)
  {
    FreshConserved(pids);
    RunConserves(Fresh(pids), events);
    RecordedIsSubmitted(Fresh(pids), events, c);
    assert Conserves(Run(Fresh(pids), events), c);
    assert Held(Fresh(pids).recorded, c) == 0;
    hide Run, Held, TotalUnwritten, Submitted;
  }

  // ---------- when nothing is lost ----------

  /** The two ways to lose usage: overwriting a file that did not read back, or failing to serialize. */
  predicate Lossy(s: System, e: Event) {
    && e.WriteDay? && e.pid in s.processes && s.processes[e.pid].stage.Merged?
    && var stage := s.processes[e.pid].stage;
       (e.outcome.Stored? && stage.base.None? && stage.date in s.disk) || e.outcome.NotSerialized?
  }

  /** Disk and backlog together hold everything recorded. */
  ghost predicate NothingMissing(s: System, c: Cell) {
    Held(s.recorded, c) == Held(s.disk, c) + TotalUnwritten(s, c)
  }

  /** Only the write of a day can lose anything. */
  lemma {:induction false} OnlyWritesLose(s: System, e: Event)
    requires !(e.WriteDay? && e.pid in s.processes && s.processes[e.pid].stage.Merged?)
    ensures Step(s, e).lost == s.lost
  {
    hide AddRecord, MergeDays, L.Acquired, L.AcquireResult, L.Released;
  }

  lemma {:induction false} WriteLosesNothing(s: System, pid: string, p: Process, outcome: WriteOutcome, c: Cell)
    requires p.stage.Merged? && !outcome.NotSerialized?
    requires outcome.Stored? && p.stage.base.None? ==> p.stage.date !in s.disk
    ensures Held(Writing(s, pid, p, outcome).lost, c) == Held(s.lost, c)
  {
    var date := p.stage.date;
    HeldPut(s.lost, date, NEW_DAY, c);
    assert Pick(Read(NEW_DAY, c.bucket), c.field) == 0;
    hide MergeDays, Pick, Read, Held;
    HeldMerge(s.lost, date, DayAt(s.lost, date), NEW_DAY, c);
    assert Writing(s, pid, p, outcome).lost == s.lost
      || Writing(s, pid, p, outcome).lost == s.lost[date := MergeDays(DayAt(s.lost, date), NEW_DAY)];
  }

  lemma {:induction false} LosslessStep(s: System, e: Event, c: Cell)
    requires !Lossy(s, e)
    ensures Held(Step(s, e).lost, c) == Held(s.lost, c)
  {
    if e.WriteDay? && e.pid in s.processes && s.processes[e.pid].stage.Merged? {
      WriteLosesNothing(s, e.pid, s.processes[e.pid], e.outcome, c);
      hide Writing, Held;
    } else {
      OnlyWritesLose(s, e);
      hide Step, Held;
    }
  }

  ghost predicate LosslessRun(s: System, events: seq<Event>)
    decreases |events|
  {
    events == [] || (!Lossy(s, events[0]) && LosslessRun(Step(s, events[0]), events[1..]))
  }

  lemma {:induction false} LosslessRunLoses(s: System, events: seq<Event>, c: Cell)
    requires LosslessRun(s, events)
    ensures Held(Run(s, events).lost, c) == Held(s.lost, c)
    decreases |events|
  {
    if events != [] {
      LosslessStep(s, events[0], c);
      hide Step, Held, Lossy;
      LosslessRunLoses(Step(s, events[0]), events[1..], c);
    }
  }

  /** Lease refusals, write failures, failed releases and any interleaving lose nothing. */
  lemma {:induction false} NothingMissingAfter(pids: set<string>, events: seq<Event>, c: Cell)
    requires LosslessRun(Fresh(pids), events)
    ensures NothingMissing(Run(Fresh(pids), events), c)
  {
    var s := Fresh(pids);
    FreshConserved(pids);
    RunConserves(s, events);
    LosslessRunLoses(s, events, c);
    assert Held(s.lost, c) == 0;
    assert Conserves(Run(s, events), c);
    hide Run, Held, TotalUnwritten;
  }

  lemma {:induction false} MissingIffLost(s: System, events: seq<Event>, c: Cell)
    requires Inv(s) && Conserved(s)
    ensures var end := Run(s, events); NothingMissing(end, c) <==> Held(end.lost, c) == 0
  {
    RunConserves(s, events);
    assert Conserves(Run(s, events), c);
    hide Run, Held, TotalUnwritten;
  }

  /**
   * What a step destroys of a figure. A blind overwrite destroys what the file held, a failure to serialize the day's
   * backlog; figures of other dates, and all other steps, destroy nothing.
   */
  function Destroyed(s: System, e: Event, c: Cell): nat {
    if !Lossy(s, e) || c.date != s.processes[e.pid].stage.date then 0
    else if e.outcome.Stored? then Held(s.disk, c)
    else Held(s.processes[e.pid].pending, c)
  }

  lemma {:induction false} LossyStepLoses(s: System, e: Event, c: Cell)
    requires Inv(s) && Lossy(s, e)
    ensures Held(Step(s, e).lost, c) == Held(s.lost, c) + Destroyed(s, e, c)
  {
    var p := s.processes[e.pid];
    var date := p.stage.date;
    assert StageOk(s, e.pid, p);
    HeldPut(s.lost, date, NEW_DAY, c);
    HeldPut(s.disk, date, NEW_DAY, c);
    HeldPut(p.pending, date, NEW_DAY, c);
    hide MergeDays, Pick, Read, StageOk, Held, Inv;
    if e.outcome.Stored? {
      HeldMerge(s.lost, date, DayAt(s.lost, date), DayAt(s.disk, date), c);
    } else {
      HeldMerge(s.lost, date, DayAt(s.lost, date), DayAt(p.pending, date), c);
    }
  }

  /** Some step of the run overwrites or drops a figure that was not zero. */
  ghost predicate Destroys(s: System, events: seq<Event>, c: Cell)
    decreases |events|
  {
    events != [] && (Destroyed(s, events[0], c) > 0 || Destroys(Step(s, events[0]), events[1..], c))
  }

  lemma {:induction false} LostIffDestroyed(s: System, events: seq<Event>, c: Cell)
    requires Inv(s)
    ensures Held(Run(s, events).lost, c) >= Held(s.lost, c)
    ensures Held(Run(s, events).lost, c) == Held(s.lost, c) <==> !Destroys(s, events, c)
    decreases |events|
  {
    if events != [] {
      StepKeepsInv(s, events[0]);
      if Lossy(s, events[0]) {
        LossyStepLoses(s, events[0], c);
      } else {
        LosslessStep(s, events[0], c);
      }
      hide Step, Held, Lossy, Inv;
      LostIffDestroyed(Step(s, events[0]), events[1..], c);
    }
  }

  /**
   * From a fresh start, whatever the interleaving: a figure is complete on disk and in the backlogs if and only if no
   * write replaced a file it did not read while that file held some of it, nor dropped a backlog it could not
   * serialize.
   */
  lemma {:induction false} MissingIffDestroyed(pids: set<string>, events: seq<Event>, c: Cell)
    ensures NothingMissing(Run(Fresh(pids), events), c) <==> !Destroys(Fresh(pids), events, c)
  {
    FreshConserved(pids);
    MissingIffLost(Fresh(pids), events, c);
    LostIffDestroyed(Fresh(pids), events, c);
    assert Held(Fresh(pids).lost, c) == 0;
    hide Run, Held, NothingMissing, Destroys;
  }

  // ---------- such a run ----------

  /** What one process does alone with one day: record, and flush. */
  datatype Solo = Solo(pid: string, date: string, r: UsageRecord, t: UsageTiming)

  function Recorded(x: Solo): DailyStats {
    AddRecord(NEW_DAY, x.r, x.t)
  }

  function Round(x: Solo, readable: bool): seq<Event> {
    [Record(x.pid, x.date, x.r, x.t)] +
      ([StartFlush(x.pid)] + ([AcquireDay(x.pid, x.date)] + ([ReadDay(x.pid, readable)] + Ending(x))))
  }

  function Ending(x: Solo): seq<Event> {
    [WriteDay(x.pid, Stored)] + ([ReleaseDay(x.pid, true)] + ([EndFlush(x.pid)] + []))
  }

  function AfterRead(s: System, x: Solo, readable: bool): System {
    Step(Step(Step(Step(s, Record(x.pid, x.date, x.r, x.t)), StartFlush(x.pid)), AcquireDay(x.pid, x.date)),
      ReadDay(x.pid, readable))
  }

  function AfterEnding(s: System, x: Solo): System {
    Step(Step(Step(s, WriteDay(x.pid, Stored)), ReleaseDay(x.pid, true)), EndFlush(x.pid))
  }

  predicate Resting(s: System, x: Solo) {
    s.processes == map[x.pid := Process(map[], Idle)] && Resource(x.date) !in s.leases.byResource
  }

  /** The process is alone, with the day in its backlog and at the given stage. */
  predicate Alone(s: System, x: Solo, pending: Days, stage: Stage) {
    s.processes == map[x.pid := Process(pending, stage)] && pending.Keys == {x.date}
  }

  lemma {:induction false} RoundStarts(s: System, x: Solo)
    requires Resting(s, x)
    ensures var s2 := Step(Step(s, Record(x.pid, x.date, x.r, x.t)), StartFlush(x.pid));
      && s2.disk == s.disk && s2.leases == s.leases
      && Alone(s2, x, map[x.date := Recorded(x)], Scanning({x.date}, {}))
  {
    assert DayAt(map[], x.date) == NEW_DAY;
    hide AddRecord, MergeDays;
    var s1 := Step(s, Record(x.pid, x.date, x.r, x.t));
    assert s1.processes == map[x.pid := Process(map[x.date := Recorded(x)], Idle)];
    assert (map[x.date := Recorded(x)]).Keys == {x.date};
  }

  lemma {:induction false} RoundAcquires(s: System, x: Solo, pending: Days)
    requires Alone(s, x, pending, Scanning({x.date}, {})) && Resource(x.date) !in s.leases.byResource
    ensures var lease := L.NewLease(DayRequest(x.pid, x.date), s.leases.nextGeneration + 1);
      var s3 := Step(s, AcquireDay(x.pid, x.date));
      && s3.disk == s.disk && lease.resource == Resource(x.date)
      && s3.leases.byResource == s.leases.byResource[Resource(x.date) := lease]
      && Alone(s3, x, pending, Holding({}, {}, x.date, lease))
  {
    hide AddRecord, MergeDays, Resource;
    assert {x.date} - {x.date} == {};
  }

  lemma {:induction false} RoundMerges(s: System, x: Solo, pending: Days, lease: L.Lease, readable: bool)
    requires Alone(s, x, pending, Holding({}, {}, x.date, lease))
    ensures var s4 := Step(s, ReadDay(x.pid, readable));
      && s4.disk == s.disk && s4.leases == s.leases
      && exists day, base :: Alone(s4, x, pending, Merged({}, {}, x.date, lease, day, base))
           && (base.Some? <==> readable && x.date in s.disk) && (base.None? ==> day == pending[x.date])
  {
    hide AddRecord, MergeDays, Resource;
    var base := if readable && x.date in s.disk then Some(s.disk[x.date]) else None;
    var day := if base.Some? then MergeDays(pending[x.date], base.value) else pending[x.date];
    assert Alone(Step(s, ReadDay(x.pid, readable)), x, pending, Merged({}, {}, x.date, lease, day, base));
  }

  /** The steps after the merge. */
  lemma {:induction false} RoundWrites(
    s: System, x: Solo, lease: L.Lease, pending: Days, day: DailyStats, base: Option<DailyStats>
  )
    requires Alone(s, x, pending, Merged({}, {}, x.date, lease, day, base)) && lease.resource == Resource(x.date)
    requires lease.resource in s.leases.byResource && s.leases.byResource[lease.resource] == lease
    ensures Resting(AfterEnding(s, x), x) && AfterEnding(s, x).disk == s.disk[x.date := day]
  {
    hide AddRecord, MergeDays, Resource;
    var s1 := Step(s, WriteDay(x.pid, Stored));
    assert {} + {x.date} == {x.date};
    assert s1.processes == map[x.pid := Process(pending, Written({}, {x.date}, x.date, lease))];
    var s2 := Step(s1, ReleaseDay(x.pid, true));
    assert s2.processes == map[x.pid := Process(pending, Scanning({}, {x.date}))];
    assert pending - {x.date} == map[];
  }

  lemma {:induction false} RunCons(s: System, e: Event, events: seq<Event>, c: Cell)
    ensures Run(s, [e] + events) == Run(Step(s, e), events)
    ensures Destroyed(s, e, c) > 0 || Destroys(Step(s, e), events, c) ==> Destroys(s, [e] + events, c)
  {
    assert ([e] + events)[1..] == events;
  }

  lemma {:induction false} RunNone(s: System)
    ensures Run(s, []) == s
  {
  }

  lemma {:induction false} RoundRuns(s: System, x: Solo, readable: bool, c: Cell)
    ensures Run(s, Round(x, readable)) == AfterEnding(AfterRead(s, x, readable), x)
    ensures Destroyed(AfterRead(s, x, readable), WriteDay(x.pid, Stored), c) > 0 ==> Destroys(s, Round(x, readable), c)
  {
    hide Step, Destroyed;
    var s1 := Step(s, Record(x.pid, x.date, x.r, x.t));
    var s2 := Step(s1, StartFlush(x.pid));
    var s3 := Step(s2, AcquireDay(x.pid, x.date));
    var s4 := AfterRead(s, x, readable);
    var s5 := Step(s4, WriteDay(x.pid, Stored));
    var s6 := Step(s5, ReleaseDay(x.pid, true));
    var tail3 := [ReadDay(x.pid, readable)] + Ending(x);
    var tail2 := [AcquireDay(x.pid, x.date)] + tail3;
    hide Run, Destroys;
    RunCons(s6, EndFlush(x.pid), [], c);
    RunCons(s5, ReleaseDay(x.pid, true), [EndFlush(x.pid)] + [], c);
    RunCons(s4, WriteDay(x.pid, Stored), [ReleaseDay(x.pid, true)] + ([EndFlush(x.pid)] + []), c);
    RunCons(s3, ReadDay(x.pid, readable), Ending(x), c);
    RunCons(s2, AcquireDay(x.pid, x.date), tail3, c);
    RunCons(s1, StartFlush(x.pid), tail2, c);
    RunCons(s, Record(x.pid, x.date, x.r, x.t), [StartFlush(x.pid)] + tail2, c);
    RunNone(AfterEnding(s4, x));
  }

  /** The process has merged the day it holds the lease of. */
  ghost predicate ReadyToWrite(
    s: System, x: Solo, disk: Days, day: DailyStats, base: Option<DailyStats>, lease: L.Lease
  ) {
    && Alone(s, x, map[x.date := Recorded(x)], Merged({}, {}, x.date, lease, day, base))
    && s.disk == disk && lease.resource == Resource(x.date)
    && lease.resource in s.leases.byResource && s.leases.byResource[lease.resource] == lease
  }

  lemma {:induction false} RoundReads(
    s: System, x: Solo, readable: bool
  ) returns (day: DailyStats, base: Option<DailyStats>, lease: L.Lease)
    requires Resting(s, x)
    ensures ReadyToWrite(AfterRead(s, x, readable), x, s.disk, day, base, lease)
    ensures base.Some? <==> readable && x.date in s.disk
    ensures base.None? ==> day == Recorded(x)
  {
    RoundStarts(s, x);
    var pending := map[x.date := Recorded(x)];
    lease := L.NewLease(DayRequest(x.pid, x.date), s.leases.nextGeneration + 1);
    hide Step, Alone, Recorded, Resource, DayRequest, L.NewLease;
    var s2 := Step(Step(s, Record(x.pid, x.date, x.r, x.t)), StartFlush(x.pid));
    RoundAcquires(s2, x, pending);
    var s3 := Step(s2, AcquireDay(x.pid, x.date));
    RoundMerges(s3, x, pending, lease, readable);
    var s4 := Step(s3, ReadDay(x.pid, readable));
    day, base :| Alone(s4, x, pending, Merged({}, {}, x.date, lease, day, base))
      && (base.Some? <==> readable && x.date in s.disk) && (base.None? ==> day == pending[x.date]);
  }

  /** A round leaves the process resting; the first one puts the record into the file. */
  lemma {:induction false} RoundEnds(s: System, x: Solo, readable: bool)
    requires Resting(s, x)
    ensures var s' := Run(s, Round(x, readable));
      Resting(s', x) && x.date in s'.disk && (x.date !in s.disk ==> s'.disk[x.date] == Recorded(x))
  {
    var day, base, lease := RoundReads(s, x, readable);
    hide AfterRead, AfterEnding, Alone, Recorded, Resting, Run, Round, Resource;
    RoundRuns(s, x, readable, Cell("", Total, Input));
    RoundWrites(AfterRead(s, x, readable), x, lease, map[x.date := Recorded(x)], day, base);
  }

  /** A round that cannot read an existing file destroys what the file held. */
  lemma {:induction false} UnreadRoundDestroys(s: System, x: Solo, c: Cell)
    requires Resting(s, x) && x.date in s.disk && c.date == x.date && Held(s.disk, c) > 0
    ensures Destroys(s, Round(x, false), c)
  {
    var day, base, lease := RoundReads(s, x, false);
    hide AfterRead, Recorded, Resting, Run, Round, Resource, Destroys, Held;
    RoundRuns(s, x, false, c);
  }

  lemma {:induction false} RunAppends(s: System, a: seq<Event>, b: seq<Event>, c: Cell)
    ensures Run(s, a + b) == Run(Run(s, a), b)
    ensures Destroys(Run(s, a), b, c) ==> Destroys(s, a + b, c)
    decreases |a|
  {
    if a == [] {
      assert a + b == b;
    } else {
      assert (a + b)[0] == a[0] && (a + b)[1..] == a[1..] + b;
      hide Step, Destroyed;
      RunAppends(Step(s, a[0]), a[1..], b, c);
    }
  }

  /** From a fresh start: flush a record, then flush another one over the file, which this time does not read back. */
  lemma {:induction false} UnreadableFileIsLost(x: Solo, c: Cell)
    requires c.date == x.date && Pick(Read(Recorded(x), c.bucket), c.field) > 0
    ensures !NothingMissing(Run(Fresh({x.pid}), Round(x, true) + Round(x, false)), c)
  {
    var s0 := Fresh({x.pid});
    assert s0.processes == map[x.pid := Process(map[], Idle)];
    RoundEnds(s0, x, true);
    var s := Run(s0, Round(x, true));
    assert DayAt(s.disk, x.date) == Recorded(x);
    hide Step, Run, Round, Resting, Recorded, Pick, Read, NothingMissing, Destroys;
    UnreadRoundDestroys(s, x, c);
    RunAppends(s0, Round(x, true), Round(x, false), c);
    MissingIffDestroyed({x.pid}, Round(x, true) + Round(x, false), c);
  }

  // ---------- breakdowns add up ----------

  ghost predicate EverythingBalanced(s: System) {
    && AllBalanced(s.disk) && AllBalanced(s.recorded) && AllBalanced(s.lost)
    && forall pid | pid in s.processes :: BalancedProcess(s.processes[pid])
  }

  ghost predicate BalancedProcess(p: Process) {
    && AllBalanced(p.pending)
    && (p.stage.Merged? ==> Balanced(p.stage.day))
  }

  lemma {:induction false} NewDayBalanced()
    ensures Balanced(NEW_DAY)
  {
  }

  lemma {:induction false} RecordKeepsBalance(
    s: System, pid: string, p: Process, date: string, r: UsageRecord, t: UsageTiming
  )
    requires EverythingBalanced(s) && BalancedProcess(p) && p.stage.Idle?
    ensures EverythingBalanced(Recording(s, pid, p, date, r, t))
  {
    NewDayBalanced();
    hide Balanced;
    AddRecordBalanced(DayAt(p.pending, date), r, t);
    AddRecordBalanced(DayAt(s.recorded, date), r, t);
    hide AddRecord;
  }

  lemma {:induction false} ReadKeepsBalance(s: System, pid: string, p: Process, readable: bool)
    requires EverythingBalanced(s) && BalancedProcess(p) && p.stage.Holding? && p.stage.date in p.pending
    ensures EverythingBalanced(Reading(s, pid, p, readable))
  {
    hide Balanced;
    if p.stage.date in s.disk {
      MergeDaysBalanced(p.pending[p.stage.date], s.disk[p.stage.date]);
    }
    hide MergeDays;
  }

  lemma {:induction false} WriteKeepsBalance(s: System, pid: string, p: Process, outcome: WriteOutcome)
    requires EverythingBalanced(s) && BalancedProcess(p) && p.stage.Merged?
    ensures EverythingBalanced(Writing(s, pid, p, outcome))
  {
    NewDayBalanced();
    hide Balanced;
    MergeDaysBalanced(DayAt(s.lost, p.stage.date), DayAt(s.disk, p.stage.date));
    MergeDaysBalanced(DayAt(s.lost, p.stage.date), DayAt(p.pending, p.stage.date));
    hide MergeDays;
  }

  /** The steps that change no table of figures but what drops out of a backlog. */
  lemma {:induction false} OtherStepKeepsBalance(s: System, e: Event)
    requires EverythingBalanced(s) && e.pid in s.processes
    requires !e.Record? && !e.ReadDay? && !e.WriteDay?
    ensures EverythingBalanced(Step(s, e))
  {
    hide Balanced, L.Acquired, L.AcquireResult, L.Released;
  }

  lemma {:induction false} StepKeepsBalance(s: System, e: Event)
    requires Inv(s) && EverythingBalanced(s)
    ensures EverythingBalanced(Step(s, e))
  {
    if e.pid in s.processes {
      var p := s.processes[e.pid];
      assert StageOk(s, e.pid, p) && BalancedProcess(p);
      assert p.stage.Holding? ==> p.stage.date in p.pending;
      hide Balanced, StageOk, Inv, EverythingBalanced, BalancedProcess;
      if e.Record? {
        hide Recording;
        if p.stage.Idle? {
          RecordKeepsBalance(s, e.pid, p, e.date, e.r, e.t);
        }
      } else if e.ReadDay? {
        hide Reading;
        if p.stage.Holding? {
          ReadKeepsBalance(s, e.pid, p, e.readable);
        }
      } else if e.WriteDay? {
        hide Writing;
        if p.stage.Merged? {
          WriteKeepsBalance(s, e.pid, p, e.outcome);
        }
      } else {
        hide Step;
        OtherStepKeepsBalance(s, e);
      }
    }
  }

  lemma {:induction false} RunKeepsBalance(s: System, events: seq<Event>)
    requires Inv(s) && EverythingBalanced(s)
    ensures EverythingBalanced(Run(s, events))
    decreases |events|
  {
    if events != [] {
      StepKeepsInv(s, events[0]);
      StepKeepsBalance(s, events[0]);
      RunKeepsBalance(Step(s, events[0]), events[1..]);
    }
  }
}
