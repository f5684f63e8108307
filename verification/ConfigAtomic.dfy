/** One commit: all or nothing, at every point where it can fail or the process can die. */
module ConfigAtomic {
  import opened Wrappers
  import opened Credentials
  import opened CredentialMeaning
  import opened ConfigModel
  import opened ConfigCommit
  import opened ConfigStores
  import A = Accounts
  import J = Journals

  /** New UUIDs: no account in the keyring, in the configuration on disk or in memory was generated with one of them. */
  ghost predicate FreshIds(s: Stores, current: Config, uuids: seq<string>) {
    && (forall i | 0 <= i < |uuids| :: A.Hyphenated(uuids[i]))
    && (forall i, j | 0 <= i < j < |uuids| :: uuids[i] != uuids[j])
    && forall p, i | 0 <= i < |uuids| ::
         A.Generated(p, uuids[i]) !in Refs(Current(s)) && A.Generated(p, uuids[i]) !in Refs(current)
           && A.Generated(p, uuids[i]) !in s.ring
  }

  /** What an instance believes about the file: what it last saw, or, when it is the only one, what is there. */
  predicate Coherent(m: Memory, s: Stores, coordinated: bool) {
    m.cfg == if coordinated then m.seen.GetOr(DEFAULT) else Current(s)
  }

  // ---------- the prepared accounts ----------

  lemma {:induction false} PreparedAccount(
    current: Config, d: Draft, ring: Keyring, bad: set<string>, uuids: seq<string>, i: nat, x: Prepared
  )
      returns (j: nat)
    requires i <= |d.config.providers| <= |uuids| && ProvidersFrom(current, d, ring, bad, uuids, i).Ok?
    requires x in ProvidersFrom(current, d, ring, bad, uuids, i).value.1
    ensures i <= j < |d.config.providers| && x.account == A.Generated(d.config.providers[j].id, uuids[j])
    ensures StepAt(current, d, ring, bad, uuids, j).Ok? && StepAt(current, d, ring, bad, uuids, j).value.1 == Some(x)
  {
    j := PreparedComesFrom(current, d, ring, bad, uuids, i, x);
    var p := d.config.providers[j];
    ReferencesAreAssigned(Find(current.providers, p.id), p, EditOf(d.edits, p.id), d.pageInput, ring, bad, uuids[j]);
    hide ProvidersFrom, ProviderStep;
  }

  lemma {:induction false} FirstIsNew(
    s: Stores, current: Config, d: Draft, ring: Keyring, bad: set<string>, uuids: seq<string>, i: nat, first: Prepared,
    x: Prepared
  )
    requires i < |d.config.providers| <= |uuids| && ProvidersFrom(current, d, ring, bad, uuids, i).Ok?
    requires FreshIds(s, current, uuids)
    requires StepAt(current, d, ring, bad, uuids, i).Ok?
    requires StepAt(current, d, ring, bad, uuids, i).value.1 == Some(first)
    requires ProvidersFrom(current, d, ring, bad, uuids, i + 1).Ok?
    requires x in ProvidersFrom(current, d, ring, bad, uuids, i + 1).value.1
    ensures x.account != first.account
  {
    var p := d.config.providers[i];
    ReferencesAreAssigned(Find(current.providers, p.id), p, EditOf(d.edits, p.id), d.pageInput, ring, bad, uuids[i]);
    assert first.account == A.Generated(p.id, uuids[i]);
    var j := PreparedAccount(current, d, ring, bad, uuids, i + 1, x);
    assert uuids[i] != uuids[j] && A.Hyphenated(uuids[i]) && A.Hyphenated(uuids[j]);
    hide StepAt, ProvidersFrom, A.Generated, FreshIds, A.Hyphenated;
    if x.account == first.account {
      A.GeneratedInjective(p.id, uuids[i], d.config.providers[j].id, uuids[j]);
    }
  }

  lemma {:induction false} PreparedDistinct(
    s: Stores, current: Config, d: Draft, ring: Keyring, bad: set<string>, uuids: seq<string>, i: nat
  )
    requires i <= |d.config.providers| <= |uuids| && ProvidersFrom(current, d, ring, bad, uuids, i).Ok?
    requires FreshIds(s, current, uuids)
    ensures DistinctAccounts(ProvidersFrom(current, d, ring, bad, uuids, i).value.1)
    decreases |d.config.providers| - i
  {
    hide StepAt, FreshIds;
    if i < |d.config.providers| {
      PreparedDistinct(s, current, d, ring, bad, uuids, i + 1);
      var more := ProvidersFrom(current, d, ring, bad, uuids, i + 1).value.1;
      var first := StepAt(current, d, ring, bad, uuids, i).value.1;
      if first.Some? {
        forall x | x in more ensures x.account != first.value.account {
          FirstIsNew(s, current, d, ring, bad, uuids, i, first.value, x);
        }
      }
    }
  }

  /** Accounts in use are not touched, and what is created may be collected later. */
  lemma {:induction false} PreparedFresh(
    s: Stores, current: Config, d: Draft, ring: Keyring, bad: set<string>, uuids: seq<string>, x: Prepared
  )
    requires |d.config.providers| <= |uuids| && ProvidersFrom(current, d, ring, bad, uuids, 0).Ok?
      && FreshIds(s, current, uuids)
    requires Validated(d.config, d.edits).Ok? && x in ProvidersFrom(current, d, ring, bad, uuids, 0).value.1
    ensures x.account !in Refs(Current(s)) && x.account !in Refs(current) && x.account !in s.ring
    ensures A.ValidCleanup(x.account)
  {
    var j := PreparedAccount(current, d, ring, bad, uuids, 0, x);
    ValidatedMeans(d.config, d.edits);
    assert d.config.providers[j] in d.config.providers;
    A.GeneratedEligible(d.config.providers[j].id, uuids[j]);
  }

  // ---------- the intent ----------

  lemma {:induction false} AccountsOfHas(prepared: seq<Prepared>, x: Prepared)
    requires x in prepared
    ensures x.account in AccountsOf(prepared)
  {
    if prepared[0] != x {
      AccountsOfHas(prepared[1..], x);
    }
  }

  /** Registration adds references in use that the new configuration drops, and nothing else. */
  lemma {:induction false} RetiredExactly(
    accounts: seq<string>, ps: seq<Provider>, next: set<string>, listed: set<string>
  )
    ensures var r := WithRetired(accounts, ps, next, listed);
      && accounts <= r
      && forall a :: a in r <==> (
           a in accounts
           || (a !in next && A.ValidCleanup(a) && a !in listed && exists p | p in ps :: ProviderAccount(p) == Some(a)))
    decreases |ps|
  {
    if ps != [] {
      var a := ProviderAccount(ps[0]);
      var retired := a.Some? && a.value !in next && A.ValidCleanup(a.value) && a.value !in listed
        && a.value !in accounts;
      RetiredExactly(if retired then accounts + [a.value] else accounts, ps[1..], next, listed);
      assert ps == [ps[0]] + ps[1..];
      hide A.ValidCleanup, ProviderAccount;
    }
  }

  lemma {:induction false} IntentReplaces(s: Stores, j: J.Journal, r: J.Record)
    requires Replaces(s, j) && |j.records| < J.MAX_RECORDS && !J.Listed(j.records, r.op)
    ensures Replaces(s, j.(records := j.records + [r]))
    ensures J.Listed(j.records + [r], r.op)
    ensures forall a | a in r.accounts :: IsListed(j.records + [r], a)
  {
    var j' := j.(records := j.records + [r]);
    assert (j.records + [r])[|j.records|] == r;
    forall op | J.Remembered(j, op) ensures J.Remembered(j', op) {
      if J.Listed(j.records, op) {
        var x :| x in j.records && x.op == op;
        assert x in j'.records;
      }
      hide J.Expired;
    }
    forall a | IsListed(j.records, a) ensures IsListed(j'.records, a) {
      var x :| x in j.records && a in x.accounts;
      assert x in j'.records;
    }
    assert J.DistinctRecords(j'.records) by {
      assert forall i | 0 <= i < |j.records| :: j'.records[i] in j.records;
    }
    hide J.Remembered, J.DistinctRecords;
  }

  /** A compacted journal lists no other operations. */
  lemma {:induction false} CompactedNotListed(j: J.Journal, op: J.OpId)
    requires J.WellFormed(j) && J.Compacted(j).Some? && !J.Listed(j.records, op)
    ensures !J.Listed(J.Compacted(j).value.records, op)
  {
    J.CompactionForgetsNothing(j);
    hide J.Compacted, J.Remembered, J.Expired;
  }

  /** A plan is safe to execute. */
  ghost predicate PlanOk(s: Stores, plan: Plan, op: J.OpId) {
    && Replaces(s, plan.journal) && plan.journal.records != [] && J.Listed(plan.journal.records, op)
    && plan.journal.records[|plan.journal.records| - 1].op == op
    && DistinctAccounts(plan.prepared)
    && (forall x | x in plan.prepared ::
          x.account !in Refs(Current(s)) && A.ValidCleanup(x.account) && IsListed(plan.journal.records, x.account))
  }

  /** The draft behind a plan. */
  lemma {:induction false} PlanParts(
    m: Memory, j: J.Journal, ring: Keyring, patch: Patch, op: J.OpId, uuids: seq<string>, bad: set<string>
  )
    requires EnoughIds(m, patch, uuids) && J.WellFormed(j) && Planned(m, j, ring, patch, op, uuids, bad).Ok?
    ensures var plan := Planned(m, j, ring, patch, op, uuids, bad).value;
      && Drafted(m, patch).Ok? && J.Compacted(j).Some?
      && var (d, j') := (Drafted(m, patch).value, J.Compacted(j).value);
      && |d.config.providers| <= |uuids| && Validated(d.config, d.edits).Ok?
      && ProvidersFrom(m.cfg, d, ring, bad, uuids, 0).Ok?
      && plan.prepared == ProvidersFrom(m.cfg, d, ring, bad, uuids, 0).value.1
      && plan.config == Cleaned(d.config).(providers := ProvidersFrom(m.cfg, d, ring, bad, uuids, 0).value.0,
        lastOp := Some(op))
      && Persistable(plan.config)
      && |j'.records| < J.MAX_RECORDS
      && plan.journal == j'.(records := j'.records + [IntentRecord(m, plan.config, plan.prepared, j'.records, op)])
  {
    hide Validated, ProvidersFrom, J.Compacted, Cleaned, Refs;
    assert Drafted(m, patch).Ok? ==> |Drafted(m, patch).value.config.providers| <= |uuids|;
    hide Drafted;
    assert forall c: Config, l :: Refs(c.(lastOp := l)) == Refs(c) by {
      SameRefs();
    }
  }

  lemma {:induction false} SameRefs()
    ensures forall c: Config, l :: Refs(c.(lastOp := l)) == Refs(c)
  {
  }

  lemma {:induction false} PlannedOk(
    m: Memory, s: Stores, patch: Patch, op: J.OpId, uuids: seq<string>, bad: set<string>
  )
    requires EnoughIds(m, patch, uuids) && StoresOk(s) && FreshIds(s, m.cfg, uuids) && !J.Remembered(s.journal, op)
    requires Planned(m, s.journal, s.ring, patch, op, uuids, bad).Ok?
    ensures PlanOk(s, Planned(m, s.journal, s.ring, patch, op, uuids, bad).value, op)
    ensures Planned(m, s.journal, s.ring, patch, op, uuids, bad).value.journal.records != []
  {
    PlanParts(m, s.journal, s.ring, patch, op, uuids, bad);
    var plan := Planned(m, s.journal, s.ring, patch, op, uuids, bad).value;
    var d, j := Drafted(m, patch).value, J.Compacted(s.journal).value;
    var r := IntentRecord(m, plan.config, plan.prepared, j.records, op);
    CompactedReplaces(s, s.journal);
    CompactedNotListed(s.journal, op);
    IntentReplaces(s, j, r);
    PreparedDistinct(s, m.cfg, d, s.ring, bad, uuids, 0);
    RetiredExactly(AccountsOf(plan.prepared), m.cfg.providers, Refs(plan.config), ListedAccounts(j.records));
    hide Planned, StoresOk, FreshIds, J.Compacted, Replaces, DistinctAccounts, IsListed;
    forall x | x in plan.prepared
      ensures x.account !in Refs(Current(s)) && A.ValidCleanup(x.account) && IsListed(plan.journal.records, x.account)
    {
      PreparedFresh(s, m.cfg, d, s.ring, bad, uuids, x);
      AccountsOfHas(plan.prepared, x);
      assert x.account in r.accounts;
    }
  }

  // ---------- the execution ----------

  /** The old configuration is still the one on disk, and all its pools are as they were. */
  ghost predicate NotCommitted(s: Stores, s': Stores) {
    && s'.config == s.config && s'.commits == s.commits && s'.shadow == s.shadow
    && forall a | a in Refs(Current(s)) :: Agree(s.ring, s'.ring, a)
  }

  /** The new configuration is on disk, all its new pools are stored, and no other account was touched. */
  ghost predicate Landed(s: Stores, s': Stores, plan: Plan, op: J.OpId) {
    && s'.config == Some(plan.config) && s'.commits == s.commits + [op] && s'.shadow == s'.ring
    && (forall x | x in plan.prepared :: x.account in s'.ring && s'.ring[x.account] == x.pool)
    && forall a | (forall x | x in plan.prepared :: x.account != a) :: Agree(s.ring, s'.ring, a)
  }

  /** Up to the commit point: the intent, the pools, and, when one fails, their removal. */
  lemma {:induction false} PreparationKeeps(s: Stores, plan: Plan, op: J.OpId, f: Faults)
    requires StoresOk(s) && PlanOk(s, plan, op)
    ensures var s1 := JournalWritten(s, plan.journal, f.intent).0;
      StoresOk(s1) && NotCommitted(s, s1) && Refs(Current(s1)) == Refs(Current(s))
    ensures var (s1, intended) := JournalWritten(s, plan.journal, f.intent);
      intended ==>
        var s2 := KeysWritten(s1, plan.prepared, f).0;
        && StoresOk(s2) && NotCommitted(s, s2) && Refs(Current(s2)) == Refs(Current(s)) && OnlyKeys(s1, s2)
        && (s1.power > 0 ==> s1.journal == plan.journal)
  {
    JournalWriteKeeps(s, plan.journal, f.intent);
    var (s1, intended) := JournalWritten(s, plan.journal, f.intent);
    hide StoresOk, Refs, IsListed, A.ValidCleanup, DistinctAccounts, Replaces, J.Listed;
    if intended {
      KeysWrittenKeep(s1, plan.prepared, f);
    }
  }

  lemma {:induction false} DiscardKeeps(s: Stores, s2: Stores, plan: Plan, op: J.OpId, f: Faults)
    requires StoresOk(s2) && PlanOk(s, plan, op) && NotCommitted(s, s2)
    ensures StoresOk(Discarded(s2, plan.prepared, f)) && NotCommitted(s, Discarded(s2, plan.prepared, f))
  {
    assert Current(s2) == Current(s);
    hide StoresOk, Refs;
    DiscardedKeep(s2, plan.prepared, f);
  }

  lemma {:induction false} ListedMarked(j: J.Journal, cleanup: bool)
    requires j.records != []
    ensures var j' := Receipt(j, cleanup);
      && |j'.records| == |j.records| && j'.expired == j.expired
      && (forall op | J.Remembered(j, op) :: J.Remembered(j', op))
      && (forall a | IsListed(j.records, a) :: IsListed(j'.records, a))
  {
    var j' := Receipt(j, cleanup);
    assert forall i | 0 <= i < |j.records| ::
      j'.records[i].op == j.records[i].op && j'.records[i].accounts == j.records[i].accounts;
    hide J.Expired;
    forall op | J.Listed(j.records, op) ensures J.Listed(j'.records, op) {
      ListedSameOps(j.records, j'.records, op);
    }
    forall a | IsListed(j.records, a) ensures IsListed(j'.records, a) {
      var i :| 0 <= i < |j.records| && a in j.records[i].accounts;
      assert j'.records[i] in j'.records;
    }
  }

  lemma {:induction false} ReceiptReplaces(s: Stores, j: J.Journal, cleanup: bool)
    requires StoresOk(s) && j.records != [] && (s.power > 0 ==> s.journal == j)
    ensures StoresOk(JournalWritten(s, Receipt(j, cleanup), JournalWrite(true, true)).0)
    ensures forall w :: StoresOk(JournalWritten(s, Receipt(j, cleanup), w).0)
  {
    if s.power > 0 {
      ListedMarked(j, cleanup);
      hide J.Remembered, IsListed, PoolsKept, OncePerOperation;
      assert Replaces(s, Receipt(j, cleanup));
      forall w ensures StoresOk(JournalWritten(s, Receipt(j, cleanup), w).0) {
        JournalWriteKeeps(s, Receipt(j, cleanup), w);
      }
    }
  }

  /** The commit point itself: with the process alive it is reached only with every pool in place. */
  lemma {:induction false} CommitPoint(s: Stores, plan: Plan, op: J.OpId, f: Faults)
    requires StoresOk(s) && PlanOk(s, plan, op) && op !in s.commits
    requires JournalWritten(s, plan.journal, f.intent).1
    requires KeysWritten(JournalWritten(s, plan.journal, f.intent).0, plan.prepared, f).1
    ensures var s2 := KeysWritten(JournalWritten(s, plan.journal, f.intent).0, plan.prepared, f).0;
      var s3 := ConfigWritten(s2, plan.config, op, f.configStored);
      && StoresOk(s3)
      && (if s2.power > 0 && f.configStored then Landed(s, s3, plan, op) && s3.journal == plan.journal
        else NotCommitted(s, s3))
  {
    PreparationKeeps(s, plan, op, f);
    var s1 := JournalWritten(s, plan.journal, f.intent).0;
    var (s2, stored) := KeysWritten(s1, plan.prepared, f);
    assert s2.power > 0 ==> J.Remembered(s2.journal, op);
    assert s2.commits == s.commits;
    hide J.Remembered, StoresOk, PlanOk, Refs;
    ConfigWriteKeeps(s2, plan.config, op, f.configStored);
    if s2.power > 0 {
      assert DistinctAccounts(plan.prepared) by { PlanIsDistinct(s, plan, op); }
      VerifiedPoolsAreStored(s1, plan.prepared, f);
      assert s1.ring == s.ring;
    }
  }

  lemma {:induction false} PlanIsDistinct(s: Stores, plan: Plan, op: J.OpId)
    requires PlanOk(s, plan, op)
    ensures DistinctAccounts(plan.prepared)
  {
  }

  /**
   * Whatever fails and wherever the process dies: the old configuration with its pools, or the new one with its own.
   */
  lemma {:induction false} ExecutionIsAtomic(m: Memory, s: Stores, plan: Plan, op: J.OpId, coordinated: bool, f: Faults)
    requires StoresOk(s) && PlanOk(s, plan, op) && op !in s.commits
    ensures var (m', s', r) := Executed(m, s, plan, op, coordinated, f);
      && StoresOk(s')
      && (NotCommitted(s, s') || Landed(s, s', plan, op))
      && (r.Err? ==> NotCommitted(s, s'))
      && (r.Ok? ==> !r.value && (s'.power > 0 ==> Landed(s, s', plan, op)))
  {
    PreparationKeeps(s, plan, op, f);
    var (s1, intended) := JournalWritten(s, plan.journal, f.intent);
    hide StoresOk, Refs, KeysWritten, Discarded, PageView, Receipt, Published, ConfigWritten, JournalWritten;
    if intended {
      var (s2, stored) := KeysWritten(s1, plan.prepared, f);
      if stored {
        CommitIsFinished(s, plan, op, f);
      } else {
        DiscardKeeps(s, s2, plan, op, f);
      }
    }
  }

  /** From the verified pools on. */
  lemma {:induction false} CommitIsFinished(s: Stores, plan: Plan, op: J.OpId, f: Faults)
    requires StoresOk(s) && PlanOk(s, plan, op) && op !in s.commits
    requires JournalWritten(s, plan.journal, f.intent).1
    requires KeysWritten(JournalWritten(s, plan.journal, f.intent).0, plan.prepared, f).1
    ensures var s2 := KeysWritten(JournalWritten(s, plan.journal, f.intent).0, plan.prepared, f).0;
      var s3 := ConfigWritten(s2, plan.config, op, f.configStored);
      if f.configStored then
        var s4 := JournalWritten(s3, Receipt(plan.journal, plan.cleanup), f.receipt).0;
        && StoresOk(s4) && (NotCommitted(s, s4) || Landed(s, s4, plan, op))
        && (s4.power > 0 ==> Landed(s, s4, plan, op))
      else
        var s4 := Discarded(s3, plan.prepared, f);
        StoresOk(s4) && NotCommitted(s, s4)
  {
    CommitPoint(s, plan, op, f);
    var s2 := KeysWritten(JournalWritten(s, plan.journal, f.intent).0, plan.prepared, f).0;
    var s3 := ConfigWritten(s2, plan.config, op, f.configStored);
    assert s3.power > 0 ==> s2.power > 0;
    if f.configStored {
      ReceiptReplaces(s3, plan.journal, plan.cleanup);
      hide StoresOk, Refs, KeysWritten, Discarded, Receipt, ConfigWritten;
      ReceiptFrame(s, s3, plan, op, Receipt(plan.journal, plan.cleanup), f.receipt);
    } else {
      hide StoresOk, Refs, KeysWritten, Discarded, ConfigWritten;
      DiscardKeeps(s, s3, plan, op, f);
    }
  }

  lemma {:induction false} ReceiptFrame(s: Stores, s3: Stores, plan: Plan, op: J.OpId, j: J.Journal, w: JournalWrite)
    ensures var s4 := JournalWritten(s3, j, w).0;
      && (NotCommitted(s, s3) ==> NotCommitted(s, s4)) && (Landed(s, s3, plan, op) ==> Landed(s, s4, plan, op))
      && s4.power <= s3.power
  {
    hide Refs;
  }

  /** Memory follows the outcome: published on success, untouched by a failure. */
  lemma {:induction false} ExecutionMemory(m: Memory, s: Stores, plan: Plan, op: J.OpId, coordinated: bool, f: Faults)
    requires plan.journal.records != []
    ensures var (m', s', r) := Executed(m, s, plan, op, coordinated, f);
      && (r.Err? ==> m' == m) && (r.Ok? ==> m'.cfg == plan.config)
      && m'.boot == m.boot && m'.seen == (if r.Ok? && coordinated then Some(plan.config) else m.seen)
  {
    hide KeysWritten, Discarded, PageView, Receipt, BumpedRoles, JournalWritten, ConfigWritten;
  }

  // ---------- the whole call ----------

  /** The checks read the file and what was last seen of it, never what the instance holds. */
  lemma {:induction false} PassesWithWhatItHolds(m: Memory, s: Stores, coordinated: bool, f: Faults)
    requires Guarded(m, s, coordinated, true, f).1.Ok?
    ensures m.cfg == Current(s) <==> Coherent(m, s, coordinated)
    ensures forall c :: Guarded(m.(cfg := c), s, coordinated, true, f).1.Ok?
  {
  }

  lemma {:induction false} NotReplayed(m: Memory, s: Stores, op: J.OpId)
    requires StoresOk(s) && Replay(m, s.journal, op) == Ok(false)
    ensures !J.Remembered(s.journal, op) && op !in s.commits
  {
  }

  /** The call gets as far as executing a plan. */
  predicate Executes(
    m: Memory, s: Stores, patch: Patch, op: Option<J.OpId>, uuids: seq<string>, coordinated: bool, f: Faults
  )
    requires EnoughIds(m, patch, uuids) && J.WellFormed(s.journal)
  {
    && op.Some? && Guarded(m, s, coordinated, true, f).1.Ok? && Replay(m, s.journal, op.value) == Ok(false)
    && Planned(m, s.journal, s.ring, patch, op.value, uuids, f.bad).Ok?
  }

  /** A call executes its plan, or changes no store. */
  lemma {:induction false} CommittedIs(
    m: Memory, s: Stores, patch: Patch, op: Option<J.OpId>, uuids: seq<string>, coordinated: bool, f: Faults
  )
    requires EnoughIds(m, patch, uuids) && J.WellFormed(s.journal)
    ensures var (m', s', r) := Committed(m, s, patch, op, uuids, coordinated, f);
      if Executes(m, s, patch, op, uuids, coordinated, f) then
        var plan := Planned(m, s.journal, s.ring, patch, op.value, uuids, f.bad).value;
        plan.journal.records != [] && (m', s', r) == Executed(m, s, plan, op.value, coordinated, f)
      else
        s' == s && m' == m.(blocked := m'.blocked) && (r.Ok? ==> r.value && m' == m)
  {
    hide Executed, Replay, Drafted, Assembled, J.Compacted, IntentRecord, Cleans;
  }

  /** The pool each provider of the plan is meant to have, from what was saved and the edit. */
  function IntendedAt(m: Memory, s: Stores, patch: Patch, i: nat): Option<Pool>
    requires Drafted(m, patch).Ok? && i < |Drafted(m, patch).value.config.providers|
  {
    var d := Drafted(m, patch).value;
    var p := d.config.providers[i];
    var before := Find(m.cfg.providers, p.id);
    match EditFor(before, p, EditOf(d.edits, p.id), d.pageInput)
    case Err(_) => None
    case Ok(edit) => Intended(before, p, edit, s.ring)
  }

  lemma {:induction false} FindHas(ps: seq<Provider>, id: string)
    requires Find(ps, id).Some?
    ensures Find(ps, id).value in ps && Find(ps, id).value.id == id
  {
    if ps[0].id != id {
      FindHas(ps[1..], id);
    }
  }

  /** An account a kept provider uses is none of the new ones. */
  lemma {:induction false} KeptAccountIsOld(
    m: Memory, s: Stores, d: Draft, bad: set<string>, uuids: seq<string>, i: nat, x: Prepared
  )
    requires i < |d.config.providers| <= |uuids| && FreshIds(s, m.cfg, uuids) && Validated(d.config, d.edits).Ok?
    requires ProvidersFrom(m.cfg, d, s.ring, bad, uuids, 0).Ok?
    requires x in ProvidersFrom(m.cfg, d, s.ring, bad, uuids, 0).value.1
    requires StepAt(m.cfg, d, s.ring, bad, uuids, i).Ok? && StepAt(m.cfg, d, s.ring, bad, uuids, i).value.1.None?
    ensures var p' := StepAt(m.cfg, d, s.ring, bad, uuids, i).value.0;
      PLACEHOLDER in p'.keys ==> x.account != AccountOf(p')
  {
    var p := d.config.providers[i];
    var before := Find(m.cfg.providers, p.id);
    if before.Some? {
      FindHas(m.cfg.providers, p.id);
    }
    KeptReference(before, p, EditOf(d.edits, p.id), d.pageInput, s.ring, bad, uuids[i]);
    var j := PreparedAccount(m.cfg, d, s.ring, bad, uuids, 0, x);
    A.GeneratedHasMarker(d.config.providers[j].id, uuids[j]);
    ValidatedMeans(d.config, d.edits);
    assert p in d.config.providers && !A.HasMarker(p.id);
    PreparedFresh(s, m.cfg, d, s.ring, bad, uuids, x);
    hide ProviderStep, Validated, ProvidersFrom, A.HasMarker, A.Generated, FreshIds;
  }

  /** Once the new configuration has landed, each of its providers resolves to the pool it was meant to have. */
  lemma {:induction false} ProviderLands(
    m: Memory, s: Stores, s': Stores, patch: Patch, op: J.OpId, uuids: seq<string>, bad: set<string>, i: nat
  )
    requires EnoughIds(m, patch, uuids) && StoresOk(s) && FreshIds(s, m.cfg, uuids)
    requires Planned(m, s.journal, s.ring, patch, op, uuids, bad).Ok?
    requires Landed(s, s', Planned(m, s.journal, s.ring, patch, op, uuids, bad).value, op)
    requires i < |Planned(m, s.journal, s.ring, patch, op, uuids, bad).value.config.providers|
    ensures var plan := Planned(m, s.journal, s.ring, patch, op, uuids, bad).value;
      && Drafted(m, patch).Ok? && |plan.config.providers| == |Drafted(m, patch).value.config.providers|
      && Resolved(s'.ring, {}, plan.config.providers[i]) == IntendedAt(m, s, patch, i)
  {
    assert J.WellFormed(s.journal);
    hide StoresOk, Cleaned, FreshIds, Validated, ProvidersFrom, Persistable, Refs;
    PlanParts(m, s.journal, s.ring, patch, op, uuids, bad);
    var plan, d := Planned(m, s.journal, s.ring, patch, op, uuids, bad).value, Drafted(m, patch).value;
    hide Planned, Drafted;
    ProvidersFromSize(m.cfg, d, s.ring, bad, uuids, 0);
    ProvidersFromAt(m.cfg, d, s.ring, bad, uuids, 0, i);
    var (p', prepared) := StepAt(m.cfg, d, s.ring, bad, uuids, i).value;
    hide EditFor, IntendedAt, Resolved, Intended;
    if prepared.None? && PLACEHOLDER in p'.keys {
      forall x | x in plan.prepared ensures x.account != AccountOf(p') {
        KeptAccountIsOld(m, s, d, bad, uuids, i, x);
      }
      assert Agree(s.ring, s'.ring, AccountOf(p'));
    }
    hide Landed;
    StepLands(m, s, s'.ring, patch, d, bad, uuids, i);
  }

  lemma {:induction false} StepLands(
    m: Memory, s: Stores, ring': Keyring, patch: Patch, d: Draft, bad: set<string>, uuids: seq<string>, i: nat
  )
    requires Drafted(m, patch) == Ok(d) && i < |d.config.providers| <= |uuids|
    requires StepAt(m.cfg, d, s.ring, bad, uuids, i).Ok?
    requires var (p', prepared) := StepAt(m.cfg, d, s.ring, bad, uuids, i).value;
      if prepared.Some? then prepared.value.account in ring' && ring'[prepared.value.account] == prepared.value.pool
      else PLACEHOLDER in p'.keys ==> Agree(s.ring, ring', AccountOf(p'))
    ensures Resolved(ring', {}, StepAt(m.cfg, d, s.ring, bad, uuids, i).value.0) == IntendedAt(m, s, patch, i)
  {
    hide Drafted, Resolved, Intended, PoolFor, Placed;
    var p := d.config.providers[i];
    var before := Find(m.cfg.providers, p.id);
    if before.Some? {
      FindHas(m.cfg.providers, p.id);
    }
    ProviderResolves(before, p, EditOf(d.edits, p.id), d.pageInput, s.ring, bad, uuids[i], ring');
  }

  // ---------- what the patch asked for ----------

  /** A provider as submitted, but for its keys, reference and count. */
  predicate SameButKeys(written: Provider, p: Provider) {
    written.id == p.id && written.settings == p.settings && written.headersOk == p.headersOk
    && written.models == p.models
  }

  /** The pool is the one a page asks for a provider. */
  ghost predicate PageGives(
    m: Memory, ring: Keyring, p: Provider, edits: map<string, Edit>, pool: Option<Pool>
  ) {
    var before := Find(m.cfg.providers, p.id);
    exists edit :: Asked(before, p, edits, edit) && Gives(before, p, edit, ring, pool)
  }

  /**
   * The providers of the configuration on disk. After a page patch they are the submitted ones, and each resolves to
   * the pool the page asks for; after any other patch they are those from before, with the pools from before.
   */
  ghost predicate ProvidersLand(m: Memory, s: Stores, s': Stores, patch: Patch)
    requires s'.config.Some?
  {
    var written := s'.config.value.providers;
    var submitted := if patch.Page? then patch.config.providers else m.cfg.providers;
    && |written| == |submitted|
    && forall i | 0 <= i < |written| ::
         && SameButKeys(written[i], submitted[i])
         && if patch.Page?
            then PageGives(m, s.ring, submitted[i], patch.edits, Resolved(s'.ring, {}, written[i]))
            else Resolved(s'.ring, {}, written[i]) == Resolved(s.ring, {}, submitted[i])
  }

  /** Overrides stay, but those that name a model that is not there any more are dropped. */
  ghost predicate OverridesStay(before: Config, c: Config, providers: seq<Provider>, role: string) {
    var saved := Override(before, role);
    Override(c, role) == if saved.Some? && saved.value !in ModelIds(providers) then None else saved
  }

  ghost predicate AllOverridesStay(before: Config, c: Config, providers: seq<Provider>) {
    forall role :: OverridesStay(before, c, providers, role)
  }

  /** A skill is disabled or not as asked, and every other one as before. */
  ghost predicate SkillSet(before: seq<string>, after: seq<string>, name: string, disabled: bool) {
    forall x :: x in after <==> if x == name then disabled else x in before
  }

  /** Every other field of the configuration on disk: the submitted value if the patch is about it, else the old one. */
  ghost predicate FieldsLand(before: Config, patch: Patch, c: Config) {
    match patch
    case Page(p, _, _, _) =>
      && c.schema == p.schema && c.disabledSkills == p.disabledSkills && c.allowlist == p.allowlist
      && c.retention == p.retention && c.rest == p.rest && c.fonts == before.fonts
      && AllOverridesStay(before, c, p.providers)
    case Role(role, model, _) =>
      && c.schema == before.schema && c.disabledSkills == before.disabledSkills && c.allowlist == before.allowlist
      && c.retention == before.retention && c.rest == before.rest && c.fonts == before.fonts
      && Override(c, role) == model && forall r | r != role :: OverridesStay(before, c, before.providers, r)
    case SetFonts(fonts) =>
      && c.schema == before.schema && c.disabledSkills == before.disabledSkills && c.allowlist == before.allowlist
      && c.retention == before.retention && c.rest == before.rest && AllOverridesStay(before, c, before.providers)
      && TrimOf(fonts.sans, c.fonts.sans) && TrimOf(fonts.content, c.fonts.content)
      && TrimOf(fonts.mono, c.fonts.mono) && c.fonts.sizeSans == fonts.sizeSans
      && c.fonts.sizeContent == fonts.sizeContent && c.fonts.sizeMono == fonts.sizeMono
    case Skill(name, disabled) =>
      && c.schema == before.schema && c.allowlist == before.allowlist
      && c.retention == before.retention && c.rest == before.rest && c.fonts == before.fonts
      && AllOverridesStay(before, c, before.providers)
      && SkillSet(before.disabledSkills, c.disabledSkills, name, disabled)
    case AllowCommand(command) =>
      && c.schema == before.schema && c.disabledSkills == before.disabledSkills
      && c.retention == before.retention && c.rest == before.rest && c.fonts == before.fonts
      && AllOverridesStay(before, c, before.providers)
      && c.allowlist == before.allowlist + if command in before.allowlist then [] else [command]
    case SecureExisting =>
      && SamePage(before.(providers := c.providers), c) && c.fonts == before.fonts
      && AllOverridesStay(before, c, before.providers)
  }

  /** The configuration on disk is what the patch asked for, and every provider has the pool that was asked for. */
  ghost predicate Delivers(m: Memory, s: Stores, s': Stores, patch: Patch) {
    s'.config.Some? && ProvidersLand(m, s, s', patch) && FieldsLand(m.cfg, patch, s'.config.value)
  }

  lemma {:induction false} StepAsks(
    m: Memory, s: Stores, patch: Patch, d: Draft, bad: set<string>, uuids: seq<string>, i: nat, pool: Option<Pool>
  )
    requires Drafted(m, patch) == Ok(d) && patch.Page? && i < |d.config.providers| <= |uuids|
    requires StepAt(m.cfg, d, s.ring, bad, uuids, i).Ok? && pool == IntendedAt(m, s, patch, i)
    ensures d.config.providers == patch.config.providers
    ensures PageGives(m, s.ring, d.config.providers[i], patch.edits, pool)
  {
    var p := d.config.providers[i];
    var before := Find(m.cfg.providers, p.id);
    assert d.edits == patch.edits && d.pageInput && d.config.providers == patch.config.providers;
    hide Drafted, Intended, PoolFor, Placed, EditFor, Asked, Gives;
    var edit := EditFor(before, p, EditOf(d.edits, p.id), d.pageInput).value;
    EditForAsked(before, p, patch.edits);
    IntendedGives(before, p, edit, s.ring, bad);
    assert Asked(before, p, patch.edits, edit) && Gives(before, p, edit, s.ring, pool);
  }

  lemma {:induction false} FindsItself(ps: seq<Provider>, i: nat)
    requires DistinctIds(ps) && i < |ps|
    ensures Find(ps, ps[i].id) == Some(ps[i])
  {
    if i > 0 {
      assert ps[0].id != ps[i].id;
      assert forall j, k | 0 <= j < k < |ps[1..]| :: ps[1..][j] == ps[j + 1] && ps[1..][k] == ps[k + 1];
      FindsItself(ps[1..], i - 1);
      assert ps[1..][i - 1] == ps[i];
    }
  }

  lemma {:induction false} StepKeeps(
    m: Memory, s: Stores, patch: Patch, d: Draft, bad: set<string>, uuids: seq<string>, i: nat
  )
    requires Drafted(m, patch) == Ok(d) && !patch.Page? && i < |d.config.providers| <= |uuids|
    requires Validated(d.config, d.edits).Ok?
    ensures d.config.providers == m.cfg.providers
    ensures IntendedAt(m, s, patch, i) == Resolved(s.ring, {}, m.cfg.providers[i])
  {
    assert d.config.providers == m.cfg.providers && d.edits == map[] && !d.pageInput;
    ValidatedMeans(d.config, d.edits);
    hide Drafted, Validated, A.HasMarker, ModelNames;
    FindsItself(m.cfg.providers, i);
    NothingAsked(Some(m.cfg.providers[i]), m.cfg.providers[i]);
    hide Resolved, EditFor;
  }

  /** The provider written at one place, from what was drafted. */
  lemma {:induction false} WrittenAt(
    m: Memory, s: Stores, s': Stores, patch: Patch, d: Draft, bad: set<string>, uuids: seq<string>, i: nat
  )
    requires Drafted(m, patch) == Ok(d) && Validated(d.config, d.edits).Ok? && i < |d.config.providers| <= |uuids|
    requires ProvidersFrom(m.cfg, d, s.ring, bad, uuids, 0).Ok?
    requires var written := ProvidersFrom(m.cfg, d, s.ring, bad, uuids, 0).value.0;
      |written| == |d.config.providers| && Resolved(s'.ring, {}, written[i]) == IntendedAt(m, s, patch, i)
    ensures var written := ProvidersFrom(m.cfg, d, s.ring, bad, uuids, 0).value.0;
      var submitted := if patch.Page? then patch.config.providers else m.cfg.providers;
      && d.config.providers == submitted && SameButKeys(written[i], submitted[i])
      && if patch.Page?
         then PageGives(m, s.ring, submitted[i], patch.edits, Resolved(s'.ring, {}, written[i]))
         else Resolved(s'.ring, {}, written[i]) == Resolved(s.ring, {}, submitted[i])
  {
    hide Drafted, Validated, IntendedAt, Resolved, PageGives, SameButKeys;
    ProvidersFromAt(m.cfg, d, s.ring, bad, uuids, 0, i);
    hide ProvidersFrom;
    StepSame(m.cfg, d, s.ring, bad, uuids, i);
    hide StepAt;
    if patch.Page? {
      StepAsks(m, s, patch, d, bad, uuids, i, IntendedAt(m, s, patch, i));
    } else {
      StepKeeps(m, s, patch, d, bad, uuids, i);
    }
  }

  lemma {:induction false} LandsAt(
    m: Memory, s: Stores, s': Stores, patch: Patch, op: J.OpId, uuids: seq<string>, bad: set<string>, i: nat
  )
    requires EnoughIds(m, patch, uuids) && StoresOk(s) && FreshIds(s, m.cfg, uuids)
    requires Planned(m, s.journal, s.ring, patch, op, uuids, bad).Ok?
    requires Landed(s, s', Planned(m, s.journal, s.ring, patch, op, uuids, bad).value, op)
    requires i < |Planned(m, s.journal, s.ring, patch, op, uuids, bad).value.config.providers|
    ensures var written := Planned(m, s.journal, s.ring, patch, op, uuids, bad).value.config.providers;
      var submitted := if patch.Page? then patch.config.providers else m.cfg.providers;
      && |written| == |submitted| && SameButKeys(written[i], submitted[i])
      && if patch.Page?
         then PageGives(m, s.ring, submitted[i], patch.edits, Resolved(s'.ring, {}, written[i]))
         else Resolved(s'.ring, {}, written[i]) == Resolved(s.ring, {}, submitted[i])
  {
    assert J.WellFormed(s.journal);
    hide StoresOk, FreshIds, Refs, Landed, Planned, Cleaned, Persistable, IntendedAt, Resolved, PageGives, Drafted,
      Validated, SameButKeys, ProvidersFrom, J.Compacted, IntentRecord, J.WellFormed;
    ProviderLands(m, s, s', patch, op, uuids, bad, i);
    PlanParts(m, s.journal, s.ring, patch, op, uuids, bad);
    WrittenAt(m, s, s', patch, Drafted(m, patch).value, bad, uuids, i);
  }

  lemma {:induction false} StepSame(
    current: Config, d: Draft, ring: Keyring, bad: set<string>, uuids: seq<string>, i: nat
  )
    requires i < |d.config.providers| <= |uuids| && StepAt(current, d, ring, bad, uuids, i).Ok?
    ensures SameButKeys(StepAt(current, d, ring, bad, uuids, i).value.0, d.config.providers[i])
  {
    var p := d.config.providers[i];
    ReferencesAreAssigned(Find(current.providers, p.id), p, EditOf(d.edits, p.id), d.pageInput, ring, bad, uuids[i]);
    hide ProviderStep;
  }

  lemma {:induction false} CleanedStay(before: Config, c: Config, ps: seq<Provider>, role: string)
    requires role in c.overrides <==> role in before.overrides
    requires role in before.overrides ==> c.overrides[role] == before.overrides[role]
    ensures OverridesStay(before, Cleaned(c).(providers := ps), c.providers, role)
    ensures forall l :: OverridesStay(before, Cleaned(c).(providers := ps, lastOp := l), c.providers, role)
  {
    hide ModelIds;
  }

  /** A draft has the fields the patch asked for once its overrides are cleaned. */
  lemma {:induction false} DraftedFields(m: Memory, patch: Patch, ps: seq<Provider>, l: Option<J.OpId>)
    requires Drafted(m, patch).Ok?
    ensures FieldsLand(m.cfg, patch, Cleaned(Drafted(m, patch).value.config).(providers := ps, lastOp := l))
  {
    var d := Drafted(m, patch).value.config;
    var c := Cleaned(d).(providers := ps, lastOp := l);
    forall role | patch.Role? ==> role != patch.role ensures OverridesStay(m.cfg, c, d.providers, role) {
      CleanedStay(m.cfg, d, ps, role);
    }
    match patch
    case Skill(name, disabled) =>
      forall x ensures x in Without(m.cfg.disabledSkills, name) <==> x in m.cfg.disabledSkills && x != name {
        WithoutHas(m.cfg.disabledSkills, name, x);
      }
      hide Without, Cleaned, OverridesStay;
      assert c.disabledSkills == Without(m.cfg.disabledSkills, name) + if disabled then [name] else [];
    case SetFonts(fonts) =>
      TrimTrims(fonts.sans);
      TrimTrims(fonts.content);
      TrimTrims(fonts.mono);
      hide Trim, TrimOf, Cleaned, OverridesStay;
    case Role(_, _, _) => hide OverridesStay, ModelIds;
    case _ => hide Cleaned, OverridesStay;
  }

  /** A planned configuration has the fields the patch asked for. */
  lemma {:induction false} PlannedFields(
    m: Memory, j: J.Journal, ring: Keyring, patch: Patch, op: J.OpId, uuids: seq<string>, bad: set<string>
  )
    requires EnoughIds(m, patch, uuids) && J.WellFormed(j) && Planned(m, j, ring, patch, op, uuids, bad).Ok?
    ensures FieldsLand(m.cfg, patch, Planned(m, j, ring, patch, op, uuids, bad).value.config)
  {
    PlanParts(m, j, ring, patch, op, uuids, bad);
    hide Planned, ProvidersFrom, Validated, Drafted, Cleaned, FieldsLand, Persistable, J.Compacted, IntentRecord;
    DraftedFields(m, patch, ProvidersFrom(m.cfg, Drafted(m, patch).value, ring, bad, uuids, 0).value.0, Some(op));
  }

  /** Once the new configuration has landed, it is what the patch asked for. */
  lemma {:induction false} LandedDelivers(
    m: Memory, s: Stores, s': Stores, patch: Patch, op: J.OpId, uuids: seq<string>, bad: set<string>
  )
    requires EnoughIds(m, patch, uuids) && StoresOk(s) && FreshIds(s, m.cfg, uuids)
    requires Planned(m, s.journal, s.ring, patch, op, uuids, bad).Ok?
    requires Landed(s, s', Planned(m, s.journal, s.ring, patch, op, uuids, bad).value, op)
    ensures Delivers(m, s, s', patch) && s'.config.value.lastOp == Some(op)
  {
    PlanParts(m, s.journal, s.ring, patch, op, uuids, bad);
    PlannedFields(m, s.journal, s.ring, patch, op, uuids, bad);
    var written := Planned(m, s.journal, s.ring, patch, op, uuids, bad).value.config.providers;
    var submitted := if patch.Page? then patch.config.providers else m.cfg.providers;
    ProvidersFromSize(m.cfg, Drafted(m, patch).value, s.ring, bad, uuids, 0);
    hide FieldsLand, StoresOk, Refs, FreshIds, Planned;
    assert |written| == |submitted|;
    assert s'.config.Some? && s'.config.value.providers == written && s'.config.value.lastOp == Some(op);
    hide StoresOk, Planned, Drafted, FreshIds, Resolved, IntendedAt, Validated, ProvidersFrom, Refs,
      PageGives;
    forall i | 0 <= i < |written|
      ensures SameButKeys(written[i], submitted[i])
      ensures if patch.Page?
        then PageGives(m, s.ring, submitted[i], patch.edits, Resolved(s'.ring, {}, written[i]))
        else Resolved(s'.ring, {}, written[i]) == Resolved(s.ring, {}, submitted[i])
    {
      LandsAt(m, s, s', patch, op, uuids, bad, i);
    }
    hide Landed;
  }

  lemma {:induction false} ExecutingIsAtomic(
    m: Memory, s: Stores, patch: Patch, op: J.OpId, uuids: seq<string>, coordinated: bool, f: Faults
  )
    requires EnoughIds(m, patch, uuids) && StoresOk(s) && FreshIds(s, m.cfg, uuids)
    requires Executes(m, s, patch, Some(op), uuids, coordinated, f)
    ensures var plan := Planned(m, s.journal, s.ring, patch, op, uuids, f.bad).value;
      plan.journal.records != [] &&
      var (m', s', r) := Executed(m, s, plan, op, coordinated, f);
      && StoresOk(s') && op !in s.commits
      && (r.Err? ==> NotCommitted(s, s') && m' == m)
      && (r.Ok? ==> !r.value && (s'.power > 0 ==> !NotCommitted(s, s') && s'.config == Some(m'.cfg)))
      && m'.boot == m.boot && m'.seen == (if r.Ok? && coordinated then Some(m'.cfg) else m.seen)
      && (NotCommitted(s, s') ||
           (s'.commits == s.commits + [op] && s'.shadow == s'.ring
            && Delivers(m, s, s', patch) && s'.config.value.lastOp == Some(op)))
  {
    assert J.WellFormed(s.journal);
    NotReplayed(m, s, op);
    hide StoresOk, Planned, Executed, Refs, FreshIds, Replay, Delivers, PlanOk, J.WellFormed, NotCommitted, Guarded;
    PlannedOk(m, s, patch, op, uuids, f.bad);
    var plan := Planned(m, s.journal, s.ring, patch, op, uuids, f.bad).value;
    ExecutionIsAtomic(m, s, plan, op, coordinated, f);
    ExecutionMemory(m, s, plan, op, coordinated, f);
    var s' := Executed(m, s, plan, op, coordinated, f).1;
    hide Landed;
    if Landed(s, s', plan, op) {
      LandedIsNew(s, s', plan, op);
      LandedDelivers(m, s, s', patch, op, uuids, f.bad);
    }
  }

  /**
   * The commit protocol. Whatever the patch, the faults and the point where the process dies, afterwards either the
   * old configuration is on disk and every pool it refers to is untouched, or the new one is, exactly once more for
   * this operation, with every provider resolving to the pool its edit asks for. An error means the old one and
   * unchanged memory; success of a living process means the new one.
   */
  lemma {:induction false} CommitIsAtomic(
    m: Memory, s: Stores, patch: Patch, op: Option<J.OpId>, uuids: seq<string>, coordinated: bool, f: Faults
  )
    requires EnoughIds(m, patch, uuids) && StoresOk(s) && FreshIds(s, m.cfg, uuids)
    ensures var (m', s', r) := Committed(m, s, patch, op, uuids, coordinated, f);
      && StoresOk(s')
      && (r.Err? ==> NotCommitted(s, s') && m' == m.(blocked := m'.blocked))
      && (r == Ok(true) ==> s' == s && m' == m)
      && (r == Ok(false) && s'.power > 0 ==> !NotCommitted(s, s') && s'.config == Some(m'.cfg))
      && m'.boot == m.boot && m'.seen == (if r == Ok(false) && coordinated then Some(m'.cfg) else m.seen)
      && (NotCommitted(s, s') ||
           (op.Some? && op.value !in s.commits && s'.commits == s.commits + [op.value] && s'.shadow == s'.ring
            && Delivers(m, s, s', patch) && s'.config.value.lastOp == op))
  {
    assert J.WellFormed(s.journal);
    hide StoresOk, Planned, Executed, Refs, FreshIds, Replay, Delivers, J.WellFormed;
    SameNotCommitted(s);
    CommittedIs(m, s, patch, op, uuids, coordinated, f);
    hide Committed, NotCommitted;
    if Executes(m, s, patch, op, uuids, coordinated, f) {
      hide Executes;
      ExecutingIsAtomic(m, s, patch, op.value, uuids, coordinated, f);
    }
  }

  lemma {:induction false} LandedIsNew(s: Stores, s': Stores, plan: Plan, op: J.OpId)
    requires Landed(s, s', plan, op)
    ensures !NotCommitted(s, s') && s'.commits == s.commits + [op] && s'.shadow == s'.ring
    ensures s'.config == Some(plan.config)
  {
    assert s'.commits != s.commits;
  }

  lemma {:induction false} SameNotCommitted(s: Stores)
    ensures NotCommitted(s, s)
  {
  }

  /** A configuration that reaches the disk is the planned one, and the instance publishes it. */
  lemma {:induction false} CommitWritesPlan(
    m: Memory, s: Stores, patch: Patch, op: Option<J.OpId>, uuids: seq<string>, coordinated: bool, f: Faults
  )
    requires EnoughIds(m, patch, uuids) && StoresOk(s) && FreshIds(s, m.cfg, uuids)
    requires Committed(m, s, patch, op, uuids, coordinated, f).1.commits != s.commits
    ensures Executes(m, s, patch, op, uuids, coordinated, f)
    ensures var plan := Planned(m, s.journal, s.ring, patch, op.value, uuids, f.bad).value;
      Committed(m, s, patch, op, uuids, coordinated, f).1.config == Some(plan.config)
  {
    NotReplayed(m, s, op.value);
    PlannedOk(m, s, patch, op.value, uuids, f.bad);
    var plan := Planned(m, s.journal, s.ring, patch, op.value, uuids, f.bad).value;
    ExecutionIsAtomic(m, s, plan, op.value, coordinated, f);
    hide StoresOk, Planned, Executed, Refs, FreshIds, Replay;
  }

  // ---------- nothing is forgotten ----------

  lemma {:induction false} KeysFrame(s: Stores, prepared: seq<Prepared>, f: Faults)
    ensures OnlyKeys(s, KeysWritten(s, prepared, f).0) && OnlyKeys(s, Discarded(s, prepared, f))
    decreases |prepared|
  {
    if prepared != [] {
      KeysFrame(KeyWritten(s, prepared[0], f).0, prepared[1..], f);
      KeysFrame(KeyDeleted(s, prepared[0].account, f).0, prepared[1..], f);
      hide WriteOf;
    }
  }

  /** The journal on disk stays, or becomes the intent, or the receipt. */
  lemma {:induction false} ExecutionJournal(m: Memory, s: Stores, plan: Plan, op: J.OpId, coordinated: bool, f: Faults)
    requires plan.journal.records != []
    ensures var j := Executed(m, s, plan, op, coordinated, f).1.journal;
      j == s.journal || j == plan.journal || j == Receipt(plan.journal, plan.cleanup)
  {
    var s1 := JournalWritten(s, plan.journal, f.intent).0;
    KeysFrame(s1, plan.prepared, f);
    var s2 := KeysWritten(s1, plan.prepared, f).0;
    KeysFrame(s2, plan.prepared, f);
    KeysFrame(ConfigWritten(s2, plan.config, op, f.configStored), plan.prepared, f);
    hide KeysWritten, Discarded, Receipt, Published;
  }

  lemma {:induction false} CommitRemembers(
    m: Memory, s: Stores, patch: Patch, op: Option<J.OpId>, uuids: seq<string>, coordinated: bool, f: Faults
  )
    requires EnoughIds(m, patch, uuids) && StoresOk(s) && FreshIds(s, m.cfg, uuids)
    ensures forall o | J.Remembered(s.journal, o) ::
      J.Remembered(Committed(m, s, patch, op, uuids, coordinated, f).1.journal, o)
  {
    if Executes(m, s, patch, op, uuids, coordinated, f) {
      NotReplayed(m, s, op.value);
      PlannedOk(m, s, patch, op.value, uuids, f.bad);
      var plan := Planned(m, s.journal, s.ring, patch, op.value, uuids, f.bad).value;
      ExecutionJournal(m, s, plan, op.value, coordinated, f);
      ListedMarked(plan.journal, plan.cleanup);
    }
    hide StoresOk, Planned, Executed, FreshIds, Replay, J.Remembered, DistinctAccounts;
  }

  // ---------- old accounts ----------

  predicate NotAmong(prepared: seq<Prepared>, a: string) {
    forall x | x in prepared :: x.account != a
  }

  lemma {:induction false} WritesTouchPrepared(s: Stores, prepared: seq<Prepared>, f: Faults, a: string)
    requires NotAmong(prepared, a)
    ensures Agree(s.ring, KeysWritten(s, prepared, f).0.ring, a)
    decreases |prepared|
  {
    if prepared != [] {
      assert prepared[0] in prepared && forall x | x in prepared[1..] :: x in prepared;
      assert Agree(s.ring, KeyWritten(s, prepared[0], f).0.ring, a);
      hide WriteOf, KeyWritten;
      WritesTouchPrepared(KeyWritten(s, prepared[0], f).0, prepared[1..], f, a);
    }
  }

  lemma {:induction false} DiscardsTouchPrepared(s: Stores, prepared: seq<Prepared>, f: Faults, a: string)
    requires NotAmong(prepared, a)
    ensures Agree(s.ring, Discarded(s, prepared, f).ring, a)
    decreases |prepared|
  {
    if prepared != [] {
      assert prepared[0] in prepared && forall x | x in prepared[1..] :: x in prepared;
      assert Agree(s.ring, KeyDeleted(s, prepared[0].account, f).0.ring, a);
      hide KeyDeleted;
      DiscardsTouchPrepared(KeyDeleted(s, prepared[0].account, f).0, prepared[1..], f, a);
    }
  }

  lemma {:induction false} FilesKeepRing(s: Stores, j: J.Journal, w: JournalWrite, c: Config, op: J.OpId, stored: bool)
    ensures JournalWritten(s, j, w).0.ring == s.ring && ConfigWritten(s, c, op, stored).ring == s.ring
  {
  }

  lemma {:induction false} AgreeTrans(a: Keyring, b: Keyring, c: Keyring, account: string)
    requires Agree(a, b, account) && Agree(b, c, account)
    ensures Agree(a, c, account)
  {
  }

  lemma {:induction false} ExecutionTouchesPrepared(
    m: Memory, s: Stores, plan: Plan, op: J.OpId, coordinated: bool, f: Faults, a: string
  )
    requires plan.journal.records != [] && NotAmong(plan.prepared, a)
    ensures Agree(s.ring, Executed(m, s, plan, op, coordinated, f).1.ring, a)
  {
    var s1 := JournalWritten(s, plan.journal, f.intent).0;
    var s2 := KeysWritten(s1, plan.prepared, f).0;
    var s3 := ConfigWritten(s2, plan.config, op, f.configStored);
    assert Agree(s.ring, s.ring, a);
    WritesTouchPrepared(s1, plan.prepared, f, a);
    DiscardsTouchPrepared(s2, plan.prepared, f, a);
    DiscardsTouchPrepared(s3, plan.prepared, f, a);
    FilesKeepRing(s, plan.journal, f.intent, plan.config, op, true);
    FilesKeepRing(s2, plan.journal, f.intent, plan.config, op, f.configStored);
    FilesKeepRing(s3, Receipt(plan.journal, plan.cleanup), f.receipt, plan.config, op, true);
    hide KeysWritten, Discarded, Receipt, Published, NotAmong, JournalWritten, ConfigWritten, Agree;
    AgreeTrans(s.ring, s2.ring, Discarded(s2, plan.prepared, f).ring, a);
    AgreeTrans(s.ring, s3.ring, Discarded(s3, plan.prepared, f).ring, a);
  }

  /** A commit changes no account that was there before it, even one it drops. */
  lemma {:induction false} CommitKeepsAccounts(
    m: Memory, s: Stores, patch: Patch, op: Option<J.OpId>, uuids: seq<string>, coordinated: bool, f: Faults
  )
    requires EnoughIds(m, patch, uuids) && StoresOk(s) && FreshIds(s, m.cfg, uuids)
    ensures forall a | a in s.ring :: Agree(s.ring, Committed(m, s, patch, op, uuids, coordinated, f).1.ring, a)
  {
    assert J.WellFormed(s.journal);
    hide StoresOk, FreshIds, Executed, Replay, Validated, ProvidersFrom, Refs, Persistable, Cleaned;
    CommittedIs(m, s, patch, op, uuids, coordinated, f);
    if Executes(m, s, patch, op, uuids, coordinated, f) {
      var plan := Planned(m, s.journal, s.ring, patch, op.value, uuids, f.bad).value;
      PlanParts(m, s.journal, s.ring, patch, op.value, uuids, f.bad);
      var d := Drafted(m, patch).value;
      hide Planned, Drafted, Committed, J.WellFormed;
      forall a | a in s.ring ensures Agree(s.ring, Executed(m, s, plan, op.value, coordinated, f).1.ring, a) {
        forall x | x in plan.prepared ensures x.account != a {
          PreparedFresh(s, m.cfg, d, s.ring, f.bad, uuids, x);
        }
        ExecutionTouchesPrepared(m, s, plan, op.value, coordinated, f, a);
      }
    }
    hide Planned, Committed;
  }

  // ---------- what a commit makes of the page and the roles ----------

  /** Every override of a written configuration names a model it has. */
  ghost predicate OverridesNameModels(c: Config) {
    forall role | role in c.overrides && c.overrides[role].Some? :: c.overrides[role].value in ModelIds(c.providers)
  }

  lemma {:induction false} ProvidersKeepModels(
    current: Config, d: Draft, ring: Keyring, bad: set<string>, uuids: seq<string>
  )
    requires |d.config.providers| <= |uuids| && ProvidersFrom(current, d, ring, bad, uuids, 0).Ok?
    ensures ModelIds(d.config.providers) <= ModelIds(ProvidersFrom(current, d, ring, bad, uuids, 0).value.0)
  {
    var ps := ProvidersFrom(current, d, ring, bad, uuids, 0).value.0;
    forall p, x | p in d.config.providers && x in p.models ensures x.id in ModelIds(ps) {
      var i :| 0 <= i < |d.config.providers| && d.config.providers[i] == p;
      ProvidersFromAt(current, d, ring, bad, uuids, 0, i);
      ReferencesAreAssigned(Find(current.providers, p.id), p, EditOf(d.edits, p.id), d.pageInput, ring, bad, uuids[i]);
      assert ps[i] in ps && ps[i].models == p.models;
    }
    hide ProvidersFrom, ProviderStep;
  }

  lemma {:induction false} PlannedOverrides(
    m: Memory, j: J.Journal, ring: Keyring, patch: Patch, op: J.OpId, uuids: seq<string>, bad: set<string>
  )
    requires EnoughIds(m, patch, uuids) && J.WellFormed(j) && Planned(m, j, ring, patch, op, uuids, bad).Ok?
    ensures OverridesNameModels(Planned(m, j, ring, patch, op, uuids, bad).value.config)
  {
    PlanParts(m, j, ring, patch, op, uuids, bad);
    var d := Drafted(m, patch).value;
    ProvidersKeepModels(m.cfg, d, ring, bad, uuids);
    hide Planned, Drafted, ProvidersFrom, Validated, ModelIds;
  }

  /**
   * A planned page patch was made against the current page version, and leaves alone what is committed apart from the
   * page: the fonts are the current ones, and so are the overrides except those that name a removed model.
   */
  lemma {:induction false} PlannedPage(
    m: Memory, j: J.Journal, ring: Keyring, patch: Patch, op: J.OpId, uuids: seq<string>, bad: set<string>
  )
    requires patch.Page? && EnoughIds(m, patch, uuids) && J.WellFormed(j)
    requires Planned(m, j, ring, patch, op, uuids, bad).Ok?
    ensures patch.expected == J.Version(m.boot, m.pageVersion)
    ensures var c := Planned(m, j, ring, patch, op, uuids, bad).value.config;
      && c.fonts == m.cfg.fonts
      && (forall role :: Override(c, role) == Override(m.cfg, role)
           || (Override(c, role).None? && Override(m.cfg, role).value !in ModelIds(patch.config.providers)))
  {
    PlanParts(m, j, ring, patch, op, uuids, bad);
    hide Planned, ProvidersFrom, Validated;
  }

  /** A planned role patch was made against the current version of that role and changes no other override. */
  lemma {:induction false} PlannedRole(
    m: Memory, j: J.Journal, ring: Keyring, patch: Patch, op: J.OpId, uuids: seq<string>, bad: set<string>
  )
    requires patch.Role? && EnoughIds(m, patch, uuids) && J.WellFormed(j)
    requires Planned(m, j, ring, patch, op, uuids, bad).Ok?
    ensures patch.role in DELEGABLE_ROLES && patch.expected == J.Version(m.boot, RoleVersion(m, patch.role))
    ensures var c := Planned(m, j, ring, patch, op, uuids, bad).value.config;
      && Override(c, patch.role) == patch.model
      && c.fonts == m.cfg.fonts && c.disabledSkills == m.cfg.disabledSkills && c.allowlist == m.cfg.allowlist
      && (forall role | role != patch.role :: Override(c, role) == Override(m.cfg, role)
           || (Override(c, role).None? && Override(m.cfg, role).value !in ModelIds(m.cfg.providers)))
  {
    PlanParts(m, j, ring, patch, op, uuids, bad);
    hide Planned, ProvidersFrom, Validated;
  }

  lemma {:induction false} WithoutHas(xs: seq<string>, x: string, y: string)
    ensures y in Without(xs, x) <==> y in xs && y != x
  {
    if xs != [] {
      WithoutHas(xs[1..], x, y);
      assert xs == [xs[0]] + xs[1..];
    }
  }

  /** A skill is disabled or not as asked, every other one as before; an allowed command joins the others. */
  lemma {:induction false} PlannedLists(
    m: Memory, j: J.Journal, ring: Keyring, patch: Patch, op: J.OpId, uuids: seq<string>, bad: set<string>
  )
    requires EnoughIds(m, patch, uuids) && J.WellFormed(j) && Planned(m, j, ring, patch, op, uuids, bad).Ok?
    ensures var c := Planned(m, j, ring, patch, op, uuids, bad).value.config;
      && (patch.Skill? ==>
           c.allowlist == m.cfg.allowlist
           && forall s :: s in c.disabledSkills <==>
             if s == patch.name then patch.disabled else s in m.cfg.disabledSkills)
      && (patch.AllowCommand? ==>
           c.disabledSkills == m.cfg.disabledSkills && m.cfg.allowlist <= c.allowlist
           && forall s :: s in c.allowlist <==> s in m.cfg.allowlist || s == patch.command)
  {
    PlanParts(m, j, ring, patch, op, uuids, bad);
    if patch.Skill? {
      forall s ensures s in Without(m.cfg.disabledSkills, patch.name) <==>
        s in m.cfg.disabledSkills && s != patch.name {
        WithoutHas(m.cfg.disabledSkills, patch.name, s);
      }
    }
    hide Planned, ProvidersFrom, Validated, Without;
  }

  /** Versions only go up, and an unchanged version means an unchanged page or override. */
  ghost predicate VersionsTell(m: Memory, m': Memory) {
    && m.pageVersion <= m'.pageVersion && (m.pageVersion == m'.pageVersion ==> SamePage(m.cfg, m'.cfg))
    && forall role | role in DELEGABLE_ROLES ::
         RoleVersion(m, role) <= RoleVersion(m', role)
         && (RoleVersion(m, role) == RoleVersion(m', role) ==> Override(m.cfg, role) == Override(m'.cfg, role))
  }

  /** A commit raises exactly the versions of what it changes, by one; fonts, overrides and ids do not count as page. */
  lemma {:induction false} PublishedTells(m: Memory, updated: Config)
    ensures VersionsTell(m, Published(m, updated))
    ensures Published(m, updated).pageVersion == m.pageVersion + if SamePage(m.cfg, updated) then 0 else 1
    ensures forall role | role in DELEGABLE_ROLES ::
      RoleVersion(Published(m, updated), role) ==
        RoleVersion(m, role) + if Override(m.cfg, role) == Override(updated, role) then 0 else 1
    ensures Published(m, updated).cfg == updated && Published(m, updated).sequence == m.sequence + 1
  {
    SamePageIff(m.cfg, updated);
    forall role | role in DELEGABLE_ROLES
      ensures RoleVersion(Published(m, updated), role)
        == RoleVersion(m, role) + if Override(m.cfg, role) != Override(updated, role) then 1 else 0
    {
      hide Override;
    }
    hide PageView, SamePage, Override, BumpedRoles;
  }

  lemma {:induction false} CommitTells(
    m: Memory, s: Stores, patch: Patch, op: Option<J.OpId>, uuids: seq<string>, coordinated: bool, f: Faults
  )
    requires EnoughIds(m, patch, uuids) && J.WellFormed(s.journal)
    ensures VersionsTell(m, Committed(m, s, patch, op, uuids, coordinated, f).0)
  {
    hide Planned, VersionsTell, Published, KeysWritten, Discarded, Replay;
    assert forall b :: VersionsTell(m, m.(blocked := b)) by {
      SameTells(m);
    }
    SameTells(m);
    if Executes(m, s, patch, op, uuids, coordinated, f) {
      var plan := Planned(m, s.journal, s.ring, patch, op.value, uuids, f.bad).value;
      PublishedTells(m, plan.config);
      SeenTells(m, plan.config);
    }
  }

  lemma {:induction false} SameTells(m: Memory)
    ensures forall b :: VersionsTell(m, m.(blocked := b))
    ensures VersionsTell(m, m)
  {
  }

  lemma {:induction false} SeenTells(m: Memory, c: Config)
    ensures VersionsTell(m, Published(m.(seen := Some(c)), c))
  {
    PublishedTells(m.(seen := Some(c)), c);
    hide SamePage, Published, Override;
  }

  // ---------- when nothing fails ----------

  /** Every store works. */
  predicate Healthy(f: Faults) {
    && f.locked && f.checkReadable && f.configReadable && f.journalReadable && f.bad == {} && f.writes == map[]
    && f.intent.reported && f.configStored && f.receipt.reported
  }

  lemma {:induction false} HealthyKeys(s: Stores, prepared: seq<Prepared>, f: Faults)
    requires Healthy(f)
    ensures KeysWritten(s, prepared, f).1
    ensures s.power >= |prepared| ==> KeysWritten(s, prepared, f).0.power == s.power - |prepared|
    decreases |prepared|
  {
    if prepared != [] {
      HealthyKeys(KeyWritten(s, prepared[0], f).0, prepared[1..], f);
    }
  }

  /** Without faults, a planned commit lands. */
  lemma {:induction false} HealthyCommitLands(
    m: Memory, s: Stores, patch: Patch, op: Option<J.OpId>, uuids: seq<string>, coordinated: bool, f: Faults
  )
    requires EnoughIds(m, patch, uuids) && StoresOk(s) && FreshIds(s, m.cfg, uuids)
    requires Healthy(f) && !m.blocked && op.Some? && (coordinated ==> m.seen == s.config)
    requires Replay(m, s.journal, op.value) == Ok(false)
    requires Planned(m, s.journal, s.ring, patch, op.value, uuids, {}).Ok?
    requires s.power >= |Planned(m, s.journal, s.ring, patch, op.value, uuids, {}).value.prepared| + 4
    ensures var (m', s', r) := Committed(m, s, patch, op, uuids, coordinated, f);
      && r == Ok(false) && s'.power > 0 && s'.config == Some(m'.cfg) && m'.sequence == m.sequence + 1
      && s'.config == Some(Planned(m, s.journal, s.ring, patch, op.value, uuids, {}).value.config)
  {
    CommitIsAtomic(m, s, patch, op, uuids, coordinated, f);
    NotReplayed(m, s, op.value);
    PlannedOk(m, s, patch, op.value, uuids, {});
    var plan := Planned(m, s.journal, s.ring, patch, op.value, uuids, {}).value;
    HealthyKeys(JournalWritten(s, plan.journal, f.intent).0, plan.prepared, f);
    KeysFrame(JournalWritten(s, plan.journal, f.intent).0, plan.prepared, f);
    hide StoresOk, Planned, PlanOk, FreshIds, Replay, KeysWritten, Receipt, PageView, BumpedRoles, NotCommitted,
      Delivers;
  }

  // ---------- a lost answer ----------

  /** If the process dies after the commit point, whatever else was lost, the next one answers with the receipt. */
  lemma {:induction false} LostAnswerIsReplayed(
    m: Memory, s: Stores, patch: Patch, op: Option<J.OpId>, uuids: seq<string>, coordinated: bool, f: Faults,
    next: Memory
  )
    requires EnoughIds(m, patch, uuids) && StoresOk(s) && FreshIds(s, m.cfg, uuids)
    requires Committed(m, s, patch, op, uuids, coordinated, f).1.commits != s.commits
    requires next.cfg == Current(Committed(m, s, patch, op, uuids, coordinated, f).1)
    ensures op.Some? && Replay(next, Committed(m, s, patch, op, uuids, coordinated, f).1.journal, op.value) == Ok(true)
  {
    CommitIsAtomic(m, s, patch, op, uuids, coordinated, f);
    hide Committed, StoresOk, FreshIds, Refs, J.Listed, J.Saturated, J.Expired;
  }

  lemma {:induction false} RecoveredRecordsCommitted(
    s: Stores, records: seq<J.Record>, lastOp: Option<J.OpId>, referenced: set<string>, f: Faults
  )
    ensures forall r | r in RecordsRecovered(s, records, lastOp, referenced, f).1 && lastOp == Some(r.op) :: r.committed
    decreases |records|
  {
    if records != [] {
      RecoveredRecordsCommitted(AccountsRecovered(s, records[0].accounts, referenced, f).0, records[1..], lastOp,
        referenced, f);
      hide AccountsRecovered;
    }
  }

  /** Recovery settles the receipt of the last committed operation, so it survives later commits. */
  lemma {:induction false} RecoverySettlesReceipt(m: Memory, s: Stores, coordinated: bool, f: Faults)
    requires StoresOk(s)
    requires var (_, s', r) := Recovered(m, s, coordinated, f); r == Ok(()) && s'.power > 0
    ensures forall r | r in Recovered(m, s, coordinated, f).1.journal.records && Current(s).lastOp == Some(r.op) ::
      r.committed
  {
    var lastOp, referenced := Current(s).lastOp, Refs(Current(s));
    RecoveredRecordsCommitted(s, s.journal.records, lastOp, referenced, f);
    var (s1, records) := RecordsRecovered(s, s.journal.records, lastOp, referenced, f);
    RecoveredReplaces(s, f);
    J.CompactionForgetsNothing(s.journal.(records := records));
    hide StoresOk, RecordsRecovered, Refs, J.Compacted, J.Remembered, J.Expired;
  }
}
