/**
 * Whole runs: any number of instances that share the stores, with crashes and restarts between and inside the calls.
 */
module ConfigSafety {
  import opened Wrappers
  import opened Credentials
  import opened ConfigModel
  import opened ConfigCommit
  import opened ConfigStores
  import opened ConfigAtomic
  import J = Journals

  /**
   * `starting` are the instances that have loaded the file and not yet attached to it, with what they loaded; `booted`
   * holds the boot ids used so far. Without coordination there is at most one instance at a time.
   */
  datatype World = World(
    coordinated: bool, stores: Stores, starting: map<string, Config>, instances: map<string, Memory>,
      booted: set<string>)

  datatype Event =
    | Load(boot: string, loaded: Config)
    | Attach(boot: string, readable: bool)
    | Exit(boot: string)
    | Commit(boot: string, patch: Patch, op: Option<J.OpId>, uuids: seq<string>, power: nat, faults: Faults)
    | Recover(boot: string, power: nat, faults: Faults)
    | Mark(boot: string, marked: J.OpId, power: nat, faults: Faults)

  /** What the tolerant startup load may give: the content of the file under the current format, or the default. */
  predicate MayLoad(s: Stores, loaded: Config) {
    loaded == Current(s).(schema := 2) || loaded == DEFAULT
  }

  /** The journal file has a format `read_journal` accepts, boot ids and UUIDs are new, and callers are running. */
  ghost predicate Allowed(w: World, e: Event) {
    J.WellFormed(w.stores.journal) &&
    match e
    case Load(boot, loaded) =>
      boot !in w.booted && MayLoad(w.stores, loaded) && (!w.coordinated ==> w.instances == map[] && w.starting == map[])
    case Attach(boot, _) => boot in w.starting
    case Exit(boot) => true
    case Commit(boot, patch, _, uuids, _, _) =>
      boot in w.instances && EnoughIds(w.instances[boot], patch, uuids)
        && FreshIds(w.stores, w.instances[boot].cfg, uuids)
    case Recover(boot, _, _) => boot in w.instances
    case Mark(boot, _, _, _) => boot in w.instances
  }

  /** Attaching records what is on disk by then; without coordination there is no such record. */
  function NewInstance(boot: string, loaded: Config, s: Stores, coordinated: bool, readable: bool): Memory {
    Memory(boot, 0, 0, map[], loaded, if coordinated && readable then s.config else None, false)
  }

  /** An instance that runs out of power is gone. */
  function After(w: World, boot: string, m: Memory, s: Stores): World {
    w.(stores := s, instances := if s.power == 0 then w.instances - {boot} else w.instances[boot := m])
  }

  function Outcome(w: World, e: Event): (Memory, Stores, Result<bool, Code>)
    requires e.Commit? && e.boot in w.instances && EnoughIds(w.instances[e.boot], e.patch, e.uuids)
    requires J.WellFormed(w.stores.journal)
  {
    Committed(w.instances[e.boot], w.stores.(power := e.power), e.patch, e.op, e.uuids, w.coordinated, e.faults)
  }

  function Step(w: World, e: Event): World
    requires Allowed(w, e)
  {
    match e
    case Load(boot, loaded) => w.(starting := w.starting[boot := loaded], booted := w.booted + {boot})
    case Attach(boot, readable) =>
      w.(starting := w.starting - {boot},
         instances := w.instances[boot := NewInstance(boot, w.starting[boot], w.stores, w.coordinated, readable)])
    case Exit(boot) => w.(starting := w.starting - {boot}, instances := w.instances - {boot})
    case Commit(boot, _, _, _, _, _) => After(w, boot, Outcome(w, e).0, Outcome(w, e).1)
    case Recover(boot, power, f) =>
      var (m, s, _) := Recovered(w.instances[boot], w.stores.(power := power), w.coordinated, f);
      After(w, boot, m, s)
    case Mark(boot, op, power, f) =>
      After(w, boot, w.instances[boot], Marked(w.stores.(power := power), op, w.coordinated, f).0)
  }

  predicate Present(w: World, b: string) {
    b in w.instances || b in w.starting
  }

  /** Nothing is demanded of what an instance holds in memory. */
  ghost predicate Inv(w: World) {
    && StoresOk(w.stores)
    && (forall b | b in w.instances :: b in w.booted && b !in w.starting && w.instances[b].boot == b)
    && (forall b | b in w.starting :: b in w.booted)
    && (!w.coordinated ==> forall b, c | Present(w, b) && Present(w, c) :: b == c)
  }

  ghost predicate AllowedRun(w: World, events: seq<Event>)
    decreases |events|
  {
    events == [] || (Allowed(w, events[0]) && AllowedRun(Step(w, events[0]), events[1..]))
  }

  function Run(w: World, events: seq<Event>): World
    requires AllowedRun(w, events)
    decreases |events|
  {
    if events == [] then w else Run(Step(w, events[0]), events[1..])
  }

  // ---------- every step ----------

  lemma {:induction false} PowerKeeps(s: Stores, power: nat)
    requires StoresOk(s)
    ensures StoresOk(s.(power := power))
  {
    hide J.Remembered;
  }

  predicate IsFirst(records: seq<J.Record>, i: nat, op: J.OpId)
    requires i < |records|
  {
    records[i].op == op && forall j | 0 <= j < i :: records[j].op != op
  }

  lemma {:induction false} IsFirstCons(records: seq<J.Record>, i: nat, op: J.OpId)
    requires 0 < i < |records| && records[0].op != op
    ensures IsFirst(records, i, op) <==> IsFirst(records[1..], i - 1, op)
  {
    if IsFirst(records[1..], i - 1, op) {
      forall j | 0 < j < i ensures records[j].op != op {
        assert records[1..][j - 1] == records[j];
      }
    }
  }

  /** The mark completes the first record of the operation and nothing else. */
  lemma {:induction false} CompletedSame(records: seq<J.Record>, op: J.OpId)
    ensures |Completed(records, op)| == |records|
    ensures forall i | 0 <= i < |records| ::
      Completed(records, op)[i] == if IsFirst(records, i, op) then records[i].(complete := true) else records[i]
  {
    if records != [] && records[0].op != op {
      CompletedSame(records[1..], op);
      forall i | 0 < i < |records| ensures IsFirst(records, i, op) <==> IsFirst(records[1..], i - 1, op) {
        IsFirstCons(records, i, op);
      }
    }
  }

  /** A journal with the same operations and accounts may replace another. */
  lemma {:induction false} SameContentsReplaces(s: Stores, records: seq<J.Record>)
    requires StoresOk(s) && SameOps(s.journal.records, records)
    requires forall i | 0 <= i < |records| :: records[i].accounts == s.journal.records[i].accounts
    ensures Replaces(s, s.journal.(records := records))
  {
    var j := s.journal.(records := records);
    assert J.DistinctRecords(records);
    hide J.Expired, J.DistinctRecords, PoolsKept, OncePerOperation;
    forall o | J.Remembered(s.journal, o) ensures J.Remembered(j, o) {
      if J.Listed(s.journal.records, o) {
        ListedSameOps(s.journal.records, records, o);
      }
    }
    forall a | IsListed(s.journal.records, a) ensures IsListed(records, a) {
      var i :| 0 <= i < |s.journal.records| && a in s.journal.records[i].accounts;
      assert records[i] in records;
    }
    hide J.Remembered, IsListed;
  }

  lemma {:induction false} MarkedKeeps(s: Stores, op: J.OpId, coordinated: bool, f: Faults)
    requires StoresOk(s)
    ensures var s' := Marked(s, op, coordinated, f).0;
      StoresOk(s') && s'.config == s.config && s'.ring == s.ring && s'.commits == s.commits && s'.shadow == s.shadow
  {
    var records := Completed(s.journal.records, op);
    CompletedSame(s.journal.records, op);
    assert SameOps(s.journal.records, records);
    hide StoresOk, Completed;
    SameContentsReplaces(s, records);
    hide Replaces, SameOps;
    JournalWriteKeeps(s, s.journal.(records := records), f.receipt);
  }

  /** Only a load brings a new instance. */
  lemma {:induction false} OnlyLoadsBringInstances(w: World, e: Event, b: string)
    requires Allowed(w, e) && Present(Step(w, e), b)
    ensures Present(w, b) || (e.Load? && e.boot == b)
    ensures b in Step(w, e).instances ==> b in w.instances || (e.Attach? && e.boot == b)
  {
    hide Committed, Recovered, Marked, FreshIds;
  }

  lemma {:induction false} CommitKeepsInv(w: World, e: Event)
    requires Inv(w) && Allowed(w, e) && e.Commit?
    ensures Inv(Step(w, e))
  {
    PowerKeeps(w.stores, e.power);
    var s := w.stores.(power := e.power);
    assert Current(s) == Current(w.stores);
    hide Committed, StoresOk, Refs, Delivers, NotCommitted;
    forall b | Present(Step(w, e), b) ensures Present(w, b) {
      OnlyLoadsBringInstances(w, e, b);
    }
    assert FreshIds(s, w.instances[e.boot].cfg, e.uuids);
    hide FreshIds;
    CommitIsAtomic(w.instances[e.boot], s, e.patch, e.op, e.uuids, w.coordinated, e.faults);
  }

  lemma {:induction false} StepKeepsInv(w: World, e: Event)
    requires Inv(w) && Allowed(w, e)
    ensures Inv(Step(w, e))
  {
    forall b | Present(Step(w, e), b) ensures Present(w, b) || (e.Load? && e.boot == b) {
      OnlyLoadsBringInstances(w, e, b);
    }
    match e
    case Load(_, _) => hide StoresOk;
    case Attach(_, _) => hide StoresOk;
    case Exit(_) => hide StoresOk;
    case Commit(_, _, _, _, _, _) => CommitKeepsInv(w, e);
    case Recover(boot, power, f) =>
      PowerKeeps(w.stores, power);
      RecoveryKeeps(w.instances[boot], w.stores.(power := power), w.coordinated, f);
      hide StoresOk, Recovered, Refs;
    case Mark(boot, op, power, f) =>
      PowerKeeps(w.stores, power);
      MarkedKeeps(w.stores.(power := power), op, w.coordinated, f);
      hide StoresOk, Marked;
  }

  lemma {:induction false} RunKeepsInv(w: World, events: seq<Event>)
    requires Inv(w) && AllowedRun(w, events)
    ensures Inv(Run(w, events))
    decreases |events|
  {
    if events != [] {
      StepKeepsInv(w, events[0]);
      hide Inv, Step, Allowed;
      RunKeepsInv(Step(w, events[0]), events[1..]);
    }
  }

  /** Any stores a host may start from: a readable journal within bounds, and nothing recorded yet. */
  ghost predicate Starts(w: World) {
    && JournalOk(w.stores.journal) && w.stores.shadow == w.stores.ring && w.stores.created == {}
      && w.stores.commits == []
    && w.instances == map[] && w.starting == map[]
  }

  /**
   * Every reachable state, whatever any instance holds in memory: the journal has at most 512 records, no two of them
   * of the same operation, each account the configuration on disk refers to holds the pool it held when that
   * configuration was written, no operation wrote the configuration twice, and every account a commit created and that
   * still exists is listed in the journal.
   */
  lemma {:induction false} EveryRunIsSafe(w: World, events: seq<Event>)
    requires Starts(w) && AllowedRun(w, events)
    ensures var s := Run(w, events).stores;
      && |s.journal.records| <= 512 && J.DistinctRecords(s.journal.records)
      && (forall a | a in Refs(Current(s)) :: Agree(s.ring, s.shadow, a))
      && DistinctOps(s.commits)
      && (forall a | a in s.created && a in s.ring :: IsListed(s.journal.records, a))
  {
    RunKeepsInv(w, events);
    hide Run, AllowedRun;
  }

  // ---------- at most once ----------

  /** The call writes the configuration. */
  ghost predicate Writes(w: World, e: Event)
    requires Allowed(w, e)
  {
    Step(w, e).stores.commits != w.stores.commits
  }

  /** The configuration is only ever written by a commit, for its own operation, and never for a remembered one. */
  lemma {:induction false} WritesAreCommits(w: World, e: Event)
    requires Inv(w) && Allowed(w, e)
    ensures Writes(w, e) ==>
      && e.Commit? && e.op.Some? && !J.Remembered(w.stores.journal, e.op.value)
      && Step(w, e).stores.commits == w.stores.commits + [e.op.value]
    ensures !Writes(w, e) ==> Step(w, e).stores.config == w.stores.config
  {
    match e
    case Commit(_, _, _, _, _, _) => CommitWrites(w, e);
    case Recover(boot, power, f) =>
      PowerKeeps(w.stores, power);
      hide StoresOk, Recovered, Refs;
      RecoveryKeeps(w.instances[boot], w.stores.(power := power), w.coordinated, f);
    case Mark(boot, op, power, f) =>
      PowerKeeps(w.stores, power);
      hide StoresOk, Marked;
      MarkedKeeps(w.stores.(power := power), op, w.coordinated, f);
    case _ =>
  }

  lemma {:induction false} CommitWrites(w: World, e: Event)
    requires Inv(w) && Allowed(w, e) && e.Commit?
    ensures Writes(w, e) ==>
      && e.op.Some? && !J.Remembered(w.stores.journal, e.op.value)
      && Step(w, e).stores.commits == w.stores.commits + [e.op.value]
    ensures !Writes(w, e) ==> Step(w, e).stores.config == w.stores.config
  {
    var m, s := w.instances[e.boot], w.stores.(power := e.power);
    PowerKeeps(w.stores, e.power);
    assert Current(s) == Current(w.stores);
    assert FreshIds(s, m.cfg, e.uuids);
    hide StoresOk, Refs, FreshIds, Delivers, J.Remembered, Planned, Executed;
    if e.op.Some? && Replay(m, s.journal, e.op.value) == Ok(false) {
      NotReplayed(m, s, e.op.value);
    }
    assert !Executes(m, s, e.patch, e.op, e.uuids, w.coordinated, e.faults) ==> Outcome(w, e).1 == s;
    hide Committed, Replay;
    CommitIsAtomic(m, s, e.patch, e.op, e.uuids, w.coordinated, e.faults);
  }

  /** A written configuration holds no key, only the marker that there is one in the keyring. */
  lemma {:induction false} WritesHoldNoKey(w: World, e: Event)
    requires Inv(w) && Allowed(w, e) && Writes(w, e)
    ensures Persistable(Current(Step(w, e).stores))
  {
    WritesAreCommits(w, e);
    var m, s := w.instances[e.boot], w.stores.(power := e.power);
    PowerKeeps(w.stores, e.power);
    assert Current(s) == Current(w.stores);
    CommitWritesPlan(m, s, e.patch, e.op, e.uuids, w.coordinated, e.faults);
    PlanParts(m, s.journal, s.ring, e.patch, e.op.value, e.uuids, e.faults.bad);
    hide Committed, Planned, StoresOk, FreshIds, Refs, Persistable, Validated, ProvidersFrom, Drafted;
  }

  /** From the first commit on, no key is ever in the file. */
  lemma {:induction false} NoKeyReachesTheFile(w: World, events: seq<Event>)
    requires Inv(w) && AllowedRun(w, events) && (w.stores.commits != [] ==> Persistable(Current(w.stores)))
    ensures Run(w, events).stores.commits != [] ==> Persistable(Current(Run(w, events).stores))
    decreases |events|
  {
    if events != [] {
      StepKeepsInv(w, events[0]);
      WritesAreCommits(w, events[0]);
      if Writes(w, events[0]) {
        WritesHoldNoKey(w, events[0]);
      }
      hide Inv, Step, Allowed, Persistable;
      NoKeyReachesTheFile(Step(w, events[0]), events[1..]);
    }
  }

  lemma {:induction false} RecoveryRemembers(m: Memory, s: Stores, coordinated: bool, f: Faults)
    requires StoresOk(s)
    ensures forall o | J.Remembered(s.journal, o) :: J.Remembered(Recovered(m, s, coordinated, f).1.journal, o)
  {
    RecoveredReplaces(s, f);
    RecordsRecoveredKeep(s, s.journal.records, Current(s).lastOp, Refs(Current(s)), f);
    hide StoresOk, J.Remembered, J.Compacted, RecordsRecovered, Refs, IsListed;
  }

  lemma {:induction false} MarkRemembers(s: Stores, op: J.OpId, coordinated: bool, f: Faults)
    requires StoresOk(s)
    ensures forall o | J.Remembered(s.journal, o) :: J.Remembered(Marked(s, op, coordinated, f).0.journal, o)
  {
    CompletedSame(s.journal.records, op);
    forall o | J.Listed(s.journal.records, o) ensures J.Listed(Completed(s.journal.records, op), o) {
      ListedSameOps(s.journal.records, Completed(s.journal.records, op), o);
    }
    hide J.Expired, Completed, J.Listed;
  }

  /** An id in the journal on disk, in a record or in the tombstones, stays there. */
  lemma {:induction false} StepRemembers(w: World, e: Event, op: J.OpId)
    requires Inv(w) && Allowed(w, e) && J.Remembered(w.stores.journal, op)
    ensures J.Remembered(Step(w, e).stores.journal, op)
  {
    match e
    case Commit(boot, patch, o, uuids, power, f) =>
      PowerKeeps(w.stores, power);
      assert Current(w.stores.(power := power)) == Current(w.stores);
      CommitRemembers(w.instances[boot], w.stores.(power := power), patch, o, uuids, w.coordinated, f);
      hide Committed, StoresOk, J.Remembered;
    case Recover(boot, power, f) =>
      PowerKeeps(w.stores, power);
      RecoveryRemembers(w.instances[boot], w.stores.(power := power), w.coordinated, f);
      hide Recovered, StoresOk, J.Remembered;
    case Mark(boot, o, power, f) =>
      PowerKeeps(w.stores, power);
      MarkRemembers(w.stores.(power := power), o, w.coordinated, f);
      hide Marked, StoresOk, J.Remembered;
    case _ =>
  }

  /** Executions of an operation so far. */
  function Times(ops: seq<J.OpId>, op: J.OpId): nat {
    if ops == [] then 0 else Times(ops[..|ops| - 1], op) + if ops[|ops| - 1] == op then 1 else 0
  }

  lemma {:induction false} TimesAppend(ops: seq<J.OpId>, o: J.OpId, op: J.OpId)
    ensures Times(ops + [o], op) == Times(ops, op) + if o == op then 1 else 0
  {
    assert (ops + [o])[..|ops + [o]| - 1] == ops;
  }

  /** Once an id has reached the journal, it is remembered for ever and its operation is not executed any more. */
  lemma {:induction false} NeverAgain(w: World, events: seq<Event>, op: J.OpId)
    requires Inv(w) && AllowedRun(w, events) && J.Remembered(w.stores.journal, op)
    ensures J.Remembered(Run(w, events).stores.journal, op)
    ensures Times(Run(w, events).stores.commits, op) == Times(w.stores.commits, op)
    decreases |events|
  {
    if events != [] {
      var w1 := Step(w, events[0]);
      StepRemembers(w, events[0], op);
      StepKeepsInv(w, events[0]);
      WritesAreCommits(w, events[0]);
      if Writes(w, events[0]) {
        TimesAppend(w.stores.commits, events[0].op.value, op);
      }
      hide Inv, Step, Allowed, J.Remembered, Times;
      NeverAgain(w1, events[1..], op);
    }
  }

  /** Nor does such a request get past the receipt check of any instance. */
  lemma {:induction false} RememberedIsRefused(w: World, m: Memory, op: J.OpId)
    requires J.Remembered(w.stores.journal, op)
    ensures Replay(m, w.stores.journal, op) != Ok(false)
  {
  }

  // ---------- old configurations ----------

  ghost predicate NoRecovery(events: seq<Event>) {
    forall e | e in events :: !e.Recover?
  }

  lemma {:induction false} StepKeepsAccounts(w: World, e: Event)
    requires Inv(w) && Allowed(w, e) && !e.Recover?
    ensures forall a | a in w.stores.ring :: Agree(w.stores.ring, Step(w, e).stores.ring, a)
  {
    match e
    case Commit(boot, patch, o, uuids, power, f) =>
      PowerKeeps(w.stores, power);
      assert Current(w.stores.(power := power)) == Current(w.stores);
      CommitKeepsAccounts(w.instances[boot], w.stores.(power := power), patch, o, uuids, w.coordinated, f);
      hide Committed, StoresOk;
    case Mark(boot, o, power, f) =>
      PowerKeeps(w.stores, power);
      MarkedKeeps(w.stores.(power := power), o, w.coordinated, f);
      hide Marked, StoresOk;
    case _ =>
  }

  /**
   * Until the next recovery every account stays as it is, whatever is committed, fails or dies. So a model that was
   * started with an earlier configuration still resolves its keys.
   */
  lemma {:induction false} EarlierConfigurationResolves(w: World, events: seq<Event>, p: Provider)
    requires Inv(w) && AllowedRun(w, events) && NoRecovery(events) && Resolved(w.stores.ring, {}, p).Some?
    ensures Resolved(Run(w, events).stores.ring, {}, p) == Resolved(w.stores.ring, {}, p)
    decreases |events|
  {
    if events != [] {
      assert events[0] in events && forall e | e in events[1..] :: e in events;
      var w1 := Step(w, events[0]);
      StepKeepsInv(w, events[0]);
      StepKeepsAccounts(w, events[0]);
      SameAccountSamePool(w.stores.ring, w1.stores.ring, p);
      hide Inv, Step, Allowed, PlainKeys, Extended;
      EarlierConfigurationResolves(w1, events[1..], p);
    }
  }

  // ---------- versions over a run ----------

  /** A boot id that is gone stays gone, and one that runs never starts again. */
  lemma {:induction false} StepPresence(w: World, e: Event, b: string)
    requires Inv(w) && Allowed(w, e) && b in w.booted
    ensures b in Step(w, e).booted
    ensures !Present(w, b) ==> !Present(Step(w, e), b)
    ensures b in w.instances ==> b !in Step(w, e).starting
  {
    hide StoresOk;
    if Present(Step(w, e), b) {
      OnlyLoadsBringInstances(w, e, b);
    }
    hide Committed, Recovered, Marked, FreshIds;
  }

  lemma {:induction false} CommitStepTells(w: World, e: Event, b: string)
    requires Inv(w) && Allowed(w, e) && e.Commit? && b in w.instances && b in Step(w, e).instances
    ensures VersionsTell(w.instances[b], Step(w, e).instances[b])
  {
    hide StoresOk, VersionsTell, FreshIds;
    if b == e.boot {
      var s := w.stores.(power := e.power);
      CommitTells(w.instances[b], s, e.patch, e.op, e.uuids, w.coordinated, e.faults);
    } else {
      SameTells(w.instances[b]);
    }
    hide Committed;
  }

  lemma {:induction false} StepTells(w: World, e: Event, b: string)
    requires Inv(w) && Allowed(w, e) && b in w.instances && b in Step(w, e).instances
    ensures VersionsTell(w.instances[b], Step(w, e).instances[b])
  {
    hide VersionsTell, FreshIds;
    SameTells(w.instances[b]);
    match e
    case Commit(_, _, _, _, _, _) => CommitStepTells(w, e, b);
    case Recover(boot, power, f) =>
      PowerKeeps(w.stores, power);
      RecoveryKeeps(w.instances[boot], w.stores.(power := power), w.coordinated, f);
      hide Recovered, StoresOk;
    case Mark(boot, op, power, f) => hide Marked, StoresOk;
    case _ => hide StoresOk;
  }

  lemma {:induction false} TellsTrans(a: Memory, b: Memory, c: Memory)
    requires VersionsTell(a, b) && VersionsTell(b, c)
    ensures VersionsTell(a, c)
  {
    hide Override, RoleVersion;
  }

  /** Within one boot, an equal page version means an equal page, and an equal role version an equal override. */
  lemma {:induction false} RunTells(w: World, events: seq<Event>, b: string)
    requires Inv(w) && AllowedRun(w, events) && b in w.booted
    ensures !Present(w, b) ==> !Present(Run(w, events), b)
    ensures b in w.instances && b in Run(w, events).instances ==>
      VersionsTell(w.instances[b], Run(w, events).instances[b])
    decreases |events|
  {
    if events == [] {
      if b in w.instances {
        SameTells(w.instances[b]);
      }
    } else {
      var w1 := Step(w, events[0]);
      StepPresence(w, events[0], b);
      StepKeepsInv(w, events[0]);
      RunTells(w1, events[1..], b);
      var w2 := Run(w1, events[1..]);
      if b in w.instances && b in w2.instances {
        assert Present(w1, b);
        StepTells(w, events[0], b);
        hide Inv, Step, Allowed, VersionsTell;
        TellsTrans(w.instances[b], w1.instances[b], w2.instances[b]);
      }
      hide Inv, Step, Allowed, VersionsTell;
    }
  }
}
