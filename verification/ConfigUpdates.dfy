/** Updates that are not lost, and exactly the startups after which they may be. */
module ConfigUpdates {
  import opened Wrappers
  import opened Credentials
  import opened ConfigModel
  import opened ConfigCommit
  import opened ConfigStores
  import opened ConfigAtomic
  import opened ConfigSafety
  import J = Journals

  // ---------- an instance that holds what it last saw goes on doing so ----------

  ghost predicate CoherentIn(w: World, b: string) {
    b in w.instances && Coherent(w.instances[b], w.stores, w.coordinated)
  }

  lemma {:induction false} CommitCoherent(
    m: Memory, s: Stores, patch: Patch, op: Option<J.OpId>, uuids: seq<string>, coordinated: bool, f: Faults
  )
    requires EnoughIds(m, patch, uuids) && StoresOk(s) && FreshIds(s, m.cfg, uuids) && Coherent(m, s, coordinated)
    ensures var (m', s', _) := Committed(m, s, patch, op, uuids, coordinated, f);
      s'.power > 0 ==> Coherent(m', s', coordinated)
  {
    CommitIsAtomic(m, s, patch, op, uuids, coordinated, f);
    hide Committed, StoresOk, Refs, FreshIds, Delivers;
  }

  lemma {:induction false} CommitKeepsCoherent(w: World, e: Event, b: string)
    requires Inv(w) && Allowed(w, e) && e.Commit? && CoherentIn(w, b) && b in Step(w, e).instances
    ensures CoherentIn(Step(w, e), b)
  {
    PowerKeeps(w.stores, e.power);
    var s := w.stores.(power := e.power);
    assert Current(s) == Current(w.stores);
    assert !w.coordinated ==> Present(w, b) && Present(w, e.boot) && b == e.boot;
    hide Committed, StoresOk, Refs, FreshIds;
    if b == e.boot {
      CommitCoherent(w.instances[b], s, e.patch, e.op, e.uuids, w.coordinated, e.faults);
    }
  }

  lemma {:induction false} RecoverKeepsCoherent(w: World, e: Event, b: string)
    requires Inv(w) && Allowed(w, e) && e.Recover? && CoherentIn(w, b) && b in Step(w, e).instances
    ensures CoherentIn(Step(w, e), b)
  {
    PowerKeeps(w.stores, e.power);
    hide StoresOk, Recovered, Refs;
    RecoveryKeeps(w.instances[e.boot], w.stores.(power := e.power), w.coordinated, e.faults);
  }

  lemma {:induction false} StepKeepsCoherent(w: World, e: Event, b: string)
    requires Inv(w) && Allowed(w, e) && CoherentIn(w, b) && b in Step(w, e).instances
    ensures CoherentIn(Step(w, e), b)
  {
    hide StoresOk, FreshIds;
    match e
    case Commit(_, _, _, _, _, _) => CommitKeepsCoherent(w, e, b);
    case Recover(_, _, _) => RecoverKeepsCoherent(w, e, b);
    case Mark(boot, op, power, f) =>
      PowerKeeps(w.stores, power);
      MarkedKeeps(w.stores.(power := power), op, w.coordinated, f);
      hide Marked;
    case _ =>
  }

  lemma {:induction false} RunKeepsCoherent(w: World, events: seq<Event>, b: string)
    requires Inv(w) && AllowedRun(w, events) && CoherentIn(w, b) && b in Run(w, events).instances
    ensures CoherentIn(Run(w, events), b)
    decreases |events|
  {
    if events != [] {
      var w1 := Step(w, events[0]);
      StepKeepsInv(w, events[0]);
      StepPresence(w, events[0], b);
      RunTells(w1, events[1..], b);
      assert Present(w1, b) && b in w1.instances;
      StepKeepsCoherent(w, events[0], b);
      hide Inv, Step, Allowed, Coherent;
      RunKeepsCoherent(w1, events[1..], b);
    }
  }

  // ---------- no lost updates ----------

  /** A written commit of a coherent instance replaces what the instance holds. */
  lemma {:induction false} WritesOverWhatItHolds(w: World, e: Event)
    requires Inv(w) && Allowed(w, e) && e.Commit? && Writes(w, e)
    ensures var m, s := w.instances[e.boot], w.stores.(power := e.power);
      && Current(w.stores) == Current(s) && StoresOk(s) && e.op.Some?
      && (Current(w.stores) == m.cfg <==> CoherentIn(w, e.boot)) && (w.coordinated ==> m.seen == w.stores.config)
      && Planned(m, s.journal, s.ring, e.patch, e.op.value, e.uuids, e.faults.bad).Ok?
      && Current(Step(w, e).stores) ==
        Planned(m, s.journal, s.ring, e.patch, e.op.value, e.uuids, e.faults.bad).value.config
  {
    var m, s := w.instances[e.boot], w.stores.(power := e.power);
    PowerKeeps(w.stores, e.power);
    assert Current(s) == Current(w.stores);
    CommitWritesPlan(m, s, e.patch, e.op, e.uuids, w.coordinated, e.faults);
    PassesWithWhatItHolds(m, s, w.coordinated, e.faults);
    hide Committed, Planned, StoresOk, Refs, FreshIds, Replay;
  }

  /**
   * No lost page update. A client took a snapshot of an instance; later, after any steps of any instance, its page
   * patch with the snapshot's version is written. Then the page it replaces is the page the client saw, and what is
   * committed apart from the page is kept at its newest.
   */
  lemma {:induction false} NoLostPageUpdate(w: World, events: seq<Event>, e: Event)
    requires Inv(w) && AllowedRun(w, events) && Allowed(Run(w, events), e)
    requires e.Commit? && CoherentIn(w, e.boot) && e.patch.Page?
    requires e.patch.expected == J.Version(e.boot, w.instances[e.boot].pageVersion)
    requires Writes(Run(w, events), e)
    ensures var (w', s') := (Run(w, events), Step(Run(w, events), e).stores);
      var (seen, replaced) := (w.instances[e.boot].cfg, Current(w'.stores));
      && replaced == w'.instances[e.boot].cfg
      && replaced.schema == seen.schema && replaced.providers == seen.providers
      && replaced.disabledSkills == seen.disabledSkills && replaced.allowlist == seen.allowlist
      && replaced.retention == seen.retention && replaced.rest == seen.rest
      && FieldsLand(replaced, e.patch, Current(s'))
      && Current(s').fonts == Current(w'.stores).fonts
      && (forall role :: Override(Current(s'), role) == Override(Current(w'.stores), role)
           || (Override(Current(s'), role).None?
               && Override(Current(w'.stores), role).value !in ModelIds(e.patch.config.providers)))
      && OverridesNameModels(Current(s'))
  {
    RunTells(w, events, e.boot);
    RunKeepsInv(w, events);
    RunKeepsCoherent(w, events, e.boot);
    var w' := Run(w, events);
    hide Run, AllowedRun, Coherent;
    WritesOverWhatItHolds(w', e);
    var m, s := w'.instances[e.boot], w'.stores.(power := e.power);
    PlannedPage(m, s.journal, s.ring, e.patch, e.op.value, e.uuids, e.faults.bad);
    PlannedFields(m, s.journal, s.ring, e.patch, e.op.value, e.uuids, e.faults.bad);
    PlannedOverrides(m, s.journal, s.ring, e.patch, e.op.value, e.uuids, e.faults.bad);
    hide Step, Planned, StoresOk, ModelIds, FreshIds, Refs, FieldsLand;
  }

  /** The same for the override of one role. */
  lemma {:induction false} NoLostRoleUpdate(w: World, events: seq<Event>, e: Event)
    requires Inv(w) && AllowedRun(w, events) && Allowed(Run(w, events), e)
    requires e.Commit? && CoherentIn(w, e.boot) && e.patch.Role? && e.patch.role in DELEGABLE_ROLES
    requires e.patch.expected == J.Version(e.boot, RoleVersion(w.instances[e.boot], e.patch.role))
    requires Writes(Run(w, events), e)
    ensures var (w', s') := (Run(w, events), Step(Run(w, events), e).stores);
      && Override(Current(w'.stores), e.patch.role) == Override(w.instances[e.boot].cfg, e.patch.role)
      && Override(Current(s'), e.patch.role) == e.patch.model
      && OverridesNameModels(Current(s'))
  {
    RunTells(w, events, e.boot);
    RunKeepsInv(w, events);
    RunKeepsCoherent(w, events, e.boot);
    var w' := Run(w, events);
    hide Run, AllowedRun, Coherent;
    WritesOverWhatItHolds(w', e);
    var m, s := w'.instances[e.boot], w'.stores.(power := e.power);
    PlannedRole(m, s.journal, s.ring, e.patch, e.op.value, e.uuids, e.faults.bad);
    PlannedOverrides(m, s.journal, s.ring, e.patch, e.op.value, e.uuids, e.faults.bad);
    hide Step, Planned, StoresOk, ModelIds, FreshIds, Refs, FieldsLand;
  }

  // ---------- the two reads of a startup ----------

  lemma {:induction false} StartingStays(w: World, events: seq<Event>, b: string)
    requires Inv(w) && AllowedRun(w, events) && b in w.starting && b in Run(w, events).starting
    ensures Run(w, events).starting[b] == w.starting[b]
    decreases |events|
  {
    if events != [] {
      var e, w1 := events[0], Step(w, events[0]);
      StepKeepsInv(w, e);
      StepPresence(w, e, b);
      if b !in w1.starting {
        NeverStartsAgain(w1, events[1..], b);
        assert false;
      }
      hide Committed, Recovered, Marked, StoresOk, FreshIds, Run;
      StartingStays(w1, events[1..], b);
    }
  }

  lemma {:induction false} NeverStartsAgain(w: World, events: seq<Event>, b: string)
    requires Inv(w) && AllowedRun(w, events) && b in w.booted && b !in w.starting
    ensures b !in Run(w, events).starting
    decreases |events|
  {
    if events != [] {
      StepKeepsInv(w, events[0]);
      StepPresence(w, events[0], b);
      hide Committed, Recovered, Marked, StoresOk, FreshIds;
      NeverStartsAgain(Step(w, events[0]), events[1..], b);
    }
  }

  /**
   * An instance holds what it saw if and only if what it loaded is what it attached to. So with an exact load somebody
   * has to change the file in between, and with an unchanged file the load has to fall back, for it not to.
   */
  lemma {:induction false} CoherentIffLoadedIsAttached(
    w: World, b: string, loaded: Config, starting: seq<Event>, readable: bool
  )
    requires Inv(w) && Allowed(w, Load(b, loaded)) && AllowedRun(Step(w, Load(b, loaded)), starting)
    requires Allowed(Run(Step(w, Load(b, loaded)), starting), Attach(b, readable))
    ensures var w1 := Run(Step(w, Load(b, loaded)), starting);
      var (w2, attached) := (Step(w1, Attach(b, readable)), Current(w1.stores));
      && w2.instances[b] == NewInstance(b, loaded, w1.stores, w.coordinated, readable)
      && (CoherentIn(w2, b) <==> loaded == if w.coordinated && !readable then DEFAULT else attached)
  {
    var w0 := Step(w, Load(b, loaded));
    StepKeepsInv(w, Load(b, loaded));
    StartingStays(w0, starting, b);
    SameMode(w0, starting);
    hide Run, AllowedRun, StoresOk;
  }

  lemma {:induction false} IdleStep(w: World, e: Event, b: string)
    requires Inv(w) && Allowed(w, e) && b in w.instances && b in Step(w, e).instances && !(e.Commit? && e.boot == b)
    ensures Step(w, e).instances[b].cfg == w.instances[b].cfg && Step(w, e).instances[b].seen == w.instances[b].seen
  {
    hide Committed, FreshIds;
    if e.Recover? {
      PowerKeeps(w.stores, e.power);
      RecoveryKeeps(w.instances[e.boot], w.stores.(power := e.power), w.coordinated, e.faults);
    }
    hide Recovered, Marked, StoresOk;
  }

  lemma {:induction false} IdleRun(w: World, events: seq<Event>, b: string)
    requires Inv(w) && AllowedRun(w, events) && b in w.instances && b in Run(w, events).instances
    requires forall e | e in events :: !(e.Commit? && e.boot == b)
    ensures Run(w, events).instances[b].cfg == w.instances[b].cfg
    ensures Run(w, events).instances[b].seen == w.instances[b].seen
    decreases |events|
  {
    if events != [] {
      var w1 := Step(w, events[0]);
      assert events[0] in events && forall e | e in events[1..] :: e in events;
      StepKeepsInv(w, events[0]);
      StepPresence(w, events[0], b);
      RunTells(w1, events[1..], b);
      assert Present(w1, b);
      IdleStep(w, events[0], b);
      hide Inv, Step, Allowed;
      IdleRun(w1, events[1..], b);
    }
  }

  lemma {:induction false} IdleFile(w: World, events: seq<Event>, b: string)
    requires Inv(w) && AllowedRun(w, events) && b in w.instances && b in Run(w, events).instances
    requires forall e | e in events :: !(e.Commit? && e.boot == b)
    ensures Run(w, events).stores.config.None? ==> w.stores.config.None?
    ensures !w.coordinated ==> Run(w, events).stores.config == w.stores.config
    decreases |events|
  {
    if events != [] {
      var w1 := Step(w, events[0]);
      assert events[0] in events && forall e | e in events[1..] :: e in events;
      StepKeepsInv(w, events[0]);
      StepPresence(w, events[0], b);
      RunTells(w1, events[1..], b);
      assert Present(w1, b);
      IdleStepFile(w, events[0], b);
      SameMode(w, [events[0]]);
      assert Run(w, [events[0]]) == w1;
      hide Inv, Step, Allowed;
      IdleFile(w1, events[1..], b);
    }
  }

  lemma {:induction false} IdleStepFile(w: World, e: Event, b: string)
    requires Inv(w) && Allowed(w, e) && b in w.instances && !(e.Commit? && e.boot == b)
    ensures Step(w, e).stores.config.None? ==> w.stores.config.None?
    ensures !w.coordinated ==> Step(w, e).stores.config == w.stores.config
  {
    WritesAreCommits(w, e);
    if Writes(w, e) {
      var m, s := w.instances[e.boot], w.stores.(power := e.power);
      PowerKeeps(w.stores, e.power);
      assert Current(s) == Current(w.stores);
      assert w.coordinated || (Present(w, b) && Present(w, e.boot));
      CommitWritesPlan(m, s, e.patch, e.op, e.uuids, w.coordinated, e.faults);
    }
    hide Committed, Recovered, Marked, Planned, StoresOk, FreshIds, Refs, Replay;
  }

  /**
   * Exactly when the first write of an instance builds on what is on disk: if and only if what it loaded is what it
   * attached to, with or without coordination, whether or not the file read back at the attachment, and whatever
   * happened in between. The file such a write replaces is the one of the attachment.
   */
  lemma {:induction false} FirstWriteBuildsOnDiskIff(
    w: World, b: string, loaded: Config, starting: seq<Event>, readable: bool, idle: seq<Event>, e: Event
  )
    requires Inv(w) && Allowed(w, Load(b, loaded)) && AllowedRun(Step(w, Load(b, loaded)), starting)
    requires Allowed(Run(Step(w, Load(b, loaded)), starting), Attach(b, readable))
    requires var w2 := Step(Run(Step(w, Load(b, loaded)), starting), Attach(b, readable));
      && AllowedRun(w2, idle) && (forall x | x in idle :: !(x.Commit? && x.boot == b))
      && Allowed(Run(w2, idle), e) && e.Commit? && e.boot == b && Writes(Run(w2, idle), e)
    ensures var w1 := Run(Step(w, Load(b, loaded)), starting);
      var w3 := Run(Step(w1, Attach(b, readable)), idle);
      && (Current(w3.stores) == w3.instances[b].cfg <==> loaded == Current(w1.stores))
      && Current(w3.stores) == Current(w1.stores)
  {
    var w0 := Step(w, Load(b, loaded));
    StepKeepsInv(w, Load(b, loaded));
    CoherentIffLoadedIsAttached(w, b, loaded, starting, readable);
    RunKeepsInv(w0, starting);
    var w1 := Run(w0, starting);
    StepKeepsInv(w1, Attach(b, readable));
    var w2 := Step(w1, Attach(b, readable));
    assert b in w2.instances && w2.stores == w1.stores && w2.coordinated == w.coordinated by {
      SameMode(w0, starting);
    }
    hide Inv, Run, AllowedRun, Allowed, Step, Writes;
    RunKeepsInv(w2, idle);
    IdleRun(w2, idle, b);
    IdleFile(w2, idle, b);
    SameMode(w2, idle);
    WritesOverWhatItHolds(Run(w2, idle), e);
    hide Planned;
  }

  lemma {:induction false} SameMode(w: World, events: seq<Event>)
    requires AllowedRun(w, events)
    ensures Run(w, events).coordinated == w.coordinated
    decreases |events|
  {
    if events != [] {
      hide Committed, Recovered, Marked;
      SameMode(Step(w, events[0]), events[1..]);
    }
  }

  // ---------- the two ways to fail ----------

  lemma {:induction false} FewRecordsStay(records: seq<J.Record>, from: nat)
    requires from <= |records| <= J.RECENT
    ensures J.KeptFrom(records, from) == records[from..] && J.DroppedFrom(records, from) == []
    decreases |records| - from
  {
    if from < |records| {
      FewRecordsStay(records, from + 1);
      assert records[from..] == [records[from]] + records[from + 1..];
    }
  }

  lemma {:induction false} FewRecordsCompact(j: J.Journal)
    requires j.expired == [] && |j.records| <= J.RECENT
    ensures J.Compacted(j) == Some(j)
  {
    FewRecordsStay(j.records, 0);
    assert j.records[0..] == j.records;
  }

  /** A draft without providers and overrides is assembled as it is. */
  lemma {:induction false} PlainAssembly(m: Memory, d: Draft, ring: Keyring)
    requires d.config.providers == [] && d.config.overrides == map[] && d.edits == map[]
    requires d.config.schema == 2 && d.config.fonts == DEFAULT_FONTS
    ensures Assembled(m, d, ring, {}, []) == Ok((d.config, []))
  {
    ValidatedMeans(d.config, d.edits);
    assert AllModelNames(d.config.providers) == [] && d.edits.Keys <= Ids(d.config.providers);
    assert Cleaned(d.config) == d.config;
    assert ProvidersFrom(m.cfg, d, ring, {}, [], 0) == Ok(([], []));
    assert Persistable(d.config);
    hide Validated, Cleaned, ProvidersFrom, Persistable;
  }

  lemma {:induction false} PlainPlan(m: Memory, s: Stores, patch: Patch, d: Draft, op: J.OpId)
    requires Drafted(m, patch) == Ok(d) && d.config.providers == [] && d.config.overrides == map[] && d.edits == map[]
    requires d.config.schema == 2 && d.config.fonts == DEFAULT_FONTS && m.cfg.providers == [] && !patch.Page?
    requires s.journal.expired == [] && |s.journal.records| <= J.RECENT
    ensures Planned(m, s.journal, s.ring, patch, op, [], {}).Ok?
    ensures Planned(m, s.journal, s.ring, patch, op, [], {}).value.config == d.config.(lastOp := Some(op))
    ensures Planned(m, s.journal, s.ring, patch, op, [], {}).value.prepared == []
  {
    FewRecordsCompact(s.journal);
    PlainAssembly(m, d, s.ring);
    hide J.Compacted, Assembled, Drafted, IntentRecord, Cleans;
  }

  const NO_FAULTS := Faults(true, true, true, true, {}, JournalWrite(true, true), map[], map[], true,
    JournalWrite(true, true))

  const FIRST_OP := J.OpId(1, (1, 1, 1, 1))
  const SECOND_OP := J.OpId(2, (2, 2, 2, 2))

  function StepTo(b: string, patch: Patch, op: J.OpId): Event {
    Commit(b, patch, Some(op), [], 9, NO_FAULTS)
  }

  /** A first commit over stores without records. */
  lemma {:induction false} FirstCommitLands(w: World, b: string)
    requires Inv(w) && b in w.instances && w.stores.journal == J.Journal([], [])
    requires w.instances[b] == Memory(b, 0, 0, map[], DEFAULT, None, false) && w.stores.config == None
    requires w.stores.ring == map[]
    ensures var e := StepTo(b, Skill("x", true), FIRST_OP);
      && Allowed(w, e)
      && var w' := Step(w, e);
      && w'.stores.config == Some(DEFAULT.(disabledSkills := ["x"], lastOp := Some(FIRST_OP)))
      && w'.starting == w.starting && w'.coordinated == w.coordinated && w'.booted == w.booted
      && w'.instances.Keys == w.instances.Keys
      && w'.stores.journal.expired == [] && |w'.stores.journal.records| == 1
        && w'.stores.journal.records[0].op == FIRST_OP
  {
    var m, s, patch := w.instances[b], w.stores.(power := 9), Skill("x", true);
    var d := Draft(DEFAULT.(disabledSkills := ["x"]), map[], true, false);
    assert Without([], "x") + ["x"] == ["x"];
    assert Refs(DEFAULT) == {};
    assert FreshIds(w.stores, m.cfg, []);
    PlainPlan(m, s, patch, d, FIRST_OP);
    FewRecordsCompact(s.journal);
    PowerKeeps(w.stores, 9);
    var plan := Planned(m, s.journal, s.ring, patch, FIRST_OP, [], {}).value;
    PlanParts(m, s.journal, s.ring, patch, FIRST_OP, [], {});
    assert Executed(m, s, plan, FIRST_OP, w.coordinated, NO_FAULTS).1.journal == Receipt(plan.journal, plan.cleanup);
    assert Replay(m, s.journal, FIRST_OP) == Ok(false);
    hide Planned, Receipt, PageView, BumpedRoles, StoresOk, Drafted;
  }

  lemma {:induction false} NotSeenBefore(m: Memory, j: J.Journal)
    requires j.expired == [] && |j.records| == 1 && j.records[0].op == FIRST_OP && m.cfg.lastOp == None
    ensures Replay(m, j, SECOND_OP) == Ok(false)
  {
    assert forall r | r in j.records :: r == j.records[0];
    assert !J.Expired(j.expired, SECOND_OP) && !J.Saturated(j.expired);
    hide J.Expired, J.Saturated;
  }

  lemma {:induction false} SecondPlan(m: Memory, s: Stores)
    requires m.cfg == DEFAULT && s.journal.expired == []
    requires |s.journal.records| == 1 && s.journal.records[0].op == FIRST_OP
    ensures var patch := AllowCommand("ls");
      && EnoughIds(m, patch, []) && FreshIds(s, m.cfg, []) && Replay(m, s.journal, SECOND_OP) == Ok(false)
      && var plan := Planned(m, s.journal, s.ring, patch, SECOND_OP, [], {});
        plan.Ok? && plan.value.prepared == []
          && plan.value.config == DEFAULT.(allowlist := ["ls"], lastOp := Some(SECOND_OP))
  {
    var patch, d := AllowCommand("ls"), Draft(DEFAULT.(allowlist := ["ls"]), map[], true, false);
    assert [] + ["ls"] == ["ls"];
    assert Drafted(m, patch) == Ok(d);
    NotSeenBefore(m, s.journal);
    hide Drafted, Replay, Planned;
    PlainPlan(m, s, patch, d, SECOND_OP);
  }

  lemma {:induction false} SecondLands(m: Memory, s: Stores, coordinated: bool)
    requires m.cfg == DEFAULT && s.journal.expired == []
    requires |s.journal.records| == 1 && s.journal.records[0].op == FIRST_OP
    requires StoresOk(s) && s.power == 9 && !m.blocked && (coordinated ==> m.seen == s.config)
    ensures EnoughIds(m, AllowCommand("ls"), []) && FreshIds(s, m.cfg, [])
    ensures Committed(m, s, AllowCommand("ls"), Some(SECOND_OP), [], coordinated, NO_FAULTS).1.config
      == Some(DEFAULT.(allowlist := ["ls"], lastOp := Some(SECOND_OP)))
  {
    SecondPlan(m, s);
    hide StoresOk, Planned, Committed, Drafted, Replay, FreshIds, EnoughIds, Refs;
    HealthyCommitLands(m, s, AllowCommand("ls"), Some(SECOND_OP), [], coordinated, NO_FAULTS);
  }

  /** A commit of an instance that still holds the default, over what has been written. */
  lemma {:induction false} SecondCommitLands(w: World, b: string)
    requires Inv(w) && b in w.instances && w.stores.config.Some?
    requires w.instances[b] == NewInstance(b, DEFAULT, w.stores, w.coordinated, true)
    requires w.stores.journal.expired == [] && |w.stores.journal.records| == 1
    requires w.stores.journal.records[0].op == FIRST_OP
    ensures var e := StepTo(b, AllowCommand("ls"), SECOND_OP);
      Allowed(w, e) && Step(w, e).stores.config == Some(DEFAULT.(allowlist := ["ls"], lastOp := Some(SECOND_OP)))
  {
    PowerKeeps(w.stores, 9);
    SecondLands(w.instances[b], w.stores.(power := 9), w.coordinated);
    hide StoresOk, Committed, EnoughIds;
  }

  lemma {:induction false} StepThenRun(w: World, e: Event, events: seq<Event>)
    requires Allowed(w, e) && AllowedRun(Step(w, e), events)
    ensures AllowedRun(w, [e] + events) && Run(w, [e] + events) == Run(Step(w, e), events)
  {
    hide Step, Allowed;
    assert ([e] + events)[1..] == events;
  }

  function Nothing(coordinated: bool): World {
    World(coordinated, Stores(None, J.Journal([], []), map[], 0, map[], {}, []), map[], map[], {})
  }

  const OVERTAKING :=
    [Load("a", DEFAULT), Load("b", DEFAULT), Attach("b", true), StepTo("b", Skill("x", true), FIRST_OP)]

  lemma {:induction false} FourSteps(w: World, e0: Event, e1: Event, e2: Event, e3: Event)
    requires Allowed(w, e0) && Allowed(Step(w, e0), e1) && Allowed(Step(Step(w, e0), e1), e2)
    requires Allowed(Step(Step(Step(w, e0), e1), e2), e3)
    ensures AllowedRun(w, [e0, e1, e2, e3])
    ensures Run(w, [e0, e1, e2, e3]) == Step(Step(Step(Step(w, e0), e1), e2), e3)
  {
    hide Step, Allowed;
    StepThenRun(Step(Step(Step(w, e0), e1), e2), e3, []);
    StepThenRun(Step(Step(w, e0), e1), e2, [e3]);
    StepThenRun(Step(w, e0), e1, [e2, e3]);
    StepThenRun(w, e0, [e1, e2, e3]);
    hide AllowedRun, Run;
    assert [e0, e1, e2, e3] == [e0] + [e1, e2, e3] && [e1, e2, e3] == [e1] + [e2, e3] && [e2, e3] == [e2] + [e3];
    assert [e3] == [e3] + [];
  }

  lemma {:induction false} TwoSteps(w: World, e0: Event, e1: Event)
    requires Allowed(w, e0) && Allowed(Step(w, e0), e1)
    ensures AllowedRun(w, [e0, e1]) && Run(w, [e0, e1]) == Step(Step(w, e0), e1)
  {
    hide Step, Allowed;
    StepThenRun(Step(w, e0), e1, []);
    StepThenRun(w, e0, [e1]);
    assert [e0, e1] == [e0] + [e1] && [e1] == [e1] + [];
  }

  lemma {:induction false} OvertakenWorld()
    ensures Starts(Nothing(true)) && AllowedRun(Nothing(true), OVERTAKING)
    ensures var w := Run(Nothing(true), OVERTAKING);
      && Inv(w) && w.coordinated && w.starting == map["a" := DEFAULT]
      && w.stores.config == Some(DEFAULT.(disabledSkills := ["x"], lastOp := Some(FIRST_OP)))
      && w.stores.journal.expired == [] && |w.stores.journal.records| == 1 && w.stores.journal.records[0].op == FIRST_OP
  {
    var w1 := Step(Nothing(true), Load("a", DEFAULT));
    var w2 := Step(w1, Load("b", DEFAULT));
    var w3 := Step(w2, Attach("b", true));
    assert Inv(Nothing(true));
    StepKeepsInv(Nothing(true), Load("a", DEFAULT));
    StepKeepsInv(w1, Load("b", DEFAULT));
    StepKeepsInv(w2, Attach("b", true));
    assert w3.starting == map["a" := DEFAULT];
    hide Inv;
    FirstCommitLands(w3, "b");
    StepKeepsInv(w3, OVERTAKING[3]);
    FourSteps(Nothing(true), OVERTAKING[0], OVERTAKING[1], OVERTAKING[2], OVERTAKING[3]);
    assert OVERTAKING == [OVERTAKING[0], OVERTAKING[1], OVERTAKING[2], OVERTAKING[3]];
    hide Run, AllowedRun;
  }

  /**
   * An instance that loads the file, is overtaken by the commit of another and attaches afterwards passes the check,
   * and its commit of something else takes the other one's setting back.
   */
  lemma {:induction false} OvertakenStartupOverwrites()
    ensures var late := [Attach("a", true), StepTo("a", AllowCommand("ls"), SECOND_OP)];
      && AllowedRun(Nothing(true), OVERTAKING) && AllowedRun(Run(Nothing(true), OVERTAKING), late)
      && Current(Run(Nothing(true), OVERTAKING).stores).disabledSkills == ["x"]
      && Current(Run(Run(Nothing(true), OVERTAKING), late).stores).disabledSkills == []
      && Current(Run(Run(Nothing(true), OVERTAKING), late).stores).allowlist == ["ls"]
  {
    OvertakenWorld();
    var w := Run(Nothing(true), OVERTAKING);
    hide Run, AllowedRun;
    var e, e' := Attach("a", true), StepTo("a", AllowCommand("ls"), SECOND_OP);
    StepKeepsInv(w, e);
    var w1 := Step(w, e);
    SecondCommitLands(w1, "a");
    TwoSteps(w, e, e');
  }

  lemma {:induction false} ThreeSteps(w: World, e0: Event, e1: Event, e2: Event)
    requires Allowed(w, e0) && Allowed(Step(w, e0), e1) && Allowed(Step(Step(w, e0), e1), e2)
    ensures AllowedRun(w, [e0, e1, e2]) && Run(w, [e0, e1, e2]) == Step(Step(Step(w, e0), e1), e2)
  {
    hide Step, Allowed;
    TwoSteps(Step(w, e0), e1, e2);
    StepThenRun(w, e0, [e1, e2]);
    assert [e0, e1, e2] == [e0] + [e1, e2];
  }

  lemma {:induction false} ExitLeaves(w: World, b: string)
    requires Inv(w) && J.WellFormed(w.stores.journal) && w.instances.Keys == {b} && w.starting == map[]
    ensures var e := Exit(b);
      Allowed(w, e) && Inv(Step(w, e)) && Step(w, e) == w.(instances := map[])
  {
    StepKeepsInv(w, Exit(b));
    assert w.starting - {b} == map[] && w.instances - {b} == map[];
    hide StoresOk;
  }

  const SETTLING := [Load("b", DEFAULT), Attach("b", true), StepTo("b", Skill("x", true), FIRST_OP), Exit("b")]

  lemma {:induction false} SettledWorld(coordinated: bool)
    ensures Starts(Nothing(coordinated)) && AllowedRun(Nothing(coordinated), SETTLING)
    ensures var w := Run(Nothing(coordinated), SETTLING);
      && Inv(w) && w.coordinated == coordinated && w.starting == map[] && w.instances == map[] && w.booted == {"b"}
      && w.stores.config == Some(DEFAULT.(disabledSkills := ["x"], lastOp := Some(FIRST_OP)))
      && w.stores.journal.expired == [] && |w.stores.journal.records| == 1 && w.stores.journal.records[0].op == FIRST_OP
  {
    var w0 := Nothing(coordinated);
    var w1 := Step(w0, Load("b", DEFAULT));
    var w2 := Step(w1, Attach("b", true));
    assert Inv(w0);
    StepKeepsInv(w0, Load("b", DEFAULT));
    StepKeepsInv(w1, Attach("b", true));
    assert w2.starting == map[] && w2.instances.Keys == {"b"};
    hide Inv;
    FirstCommitLands(w2, "b");
    StepKeepsInv(w2, SETTLING[2]);
    hide Committed, FreshIds;
    ExitLeaves(Step(w2, SETTLING[2]), "b");
    FourSteps(w0, SETTLING[0], SETTLING[1], SETTLING[2], SETTLING[3]);
    assert SETTLING == [SETTLING[0], SETTLING[1], SETTLING[2], SETTLING[3]];
    hide Run, AllowedRun;
  }

  /**
   * A load that falls back to the default, as it does for a file that cannot be read at that moment, has the same
   * effect without any other instance: the file reads back by the attachment, the check passes, and the commit of
   * something else replaces every setting by its default. Coordination makes no difference.
   */
  lemma {:induction false} TolerantStartupOverwrites(coordinated: bool)
    ensures var w := Nothing(coordinated);
      var alone := [Load("a", DEFAULT), Attach("a", true), StepTo("a", AllowCommand("ls"), SECOND_OP)];
      && AllowedRun(w, SETTLING) && AllowedRun(Run(w, SETTLING), alone)
      && Run(w, SETTLING).instances == map[] && Run(w, SETTLING).starting == map[]
      && Current(Run(w, SETTLING).stores).disabledSkills == ["x"]
      && Current(Run(Run(w, SETTLING), alone).stores).disabledSkills == []
      && Current(Run(Run(w, SETTLING), alone).stores).allowlist == ["ls"]
  {
    SettledWorld(coordinated);
    var w := Run(Nothing(coordinated), SETTLING);
    hide Run, AllowedRun;
    var e0, e1, e2 := Load("a", DEFAULT), Attach("a", true), StepTo("a", AllowCommand("ls"), SECOND_OP);
    StepKeepsInv(w, e0);
    var w1 := Step(w, e0);
    StepKeepsInv(w1, e1);
    SecondCommitLands(Step(w1, e1), "a");
    ThreeSteps(w, e0, e1, e2);
  }
}
