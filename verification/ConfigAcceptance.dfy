/** Exactly when a commit is accepted, and that an accepted one lands when nothing fails. */
module ConfigAcceptance {
  import opened Wrappers
  import opened Credentials
  import opened CredentialMeaning
  import opened ConfigModel
  import opened ConfigCommit
  import opened ConfigStores
  import opened ConfigAtomic
  import A = Accounts
  import J = Journals
  import S = ConfigSafety

  // ---------- the checks before a call ----------

  /** The file can be used: no call of this instance has met an unreadable one, and neither does this one. */
  predicate Usable(m: Memory, coordinated: bool, f: Faults) {
    (coordinated ==> f.locked) && !m.blocked && f.configReadable && f.journalReadable
  }

  /** The file is the one the instance saw last. */
  predicate Unchanged(m: Memory, s: Stores, coordinated: bool, f: Faults) {
    coordinated ==> f.checkReadable && m.seen == s.config
  }

  /**
   * A commit passes if and only if the lock is free, the file is the one seen last, and both files are readable now and
   * the configuration always was; a recovery is not asked about the file seen last. An unreadable configuration is
   * remembered, and nothing else of memory changes.
   */
  lemma {:induction false} GuardIff(m: Memory, s: Stores, coordinated: bool, checked: bool, f: Faults)
    ensures var (m', r) := Guarded(m, s, coordinated, checked, f);
      var reaches := (coordinated ==> f.locked) && (checked ==> Unchanged(m, s, coordinated, f));
      && (r.Ok? <==> Usable(m, coordinated, f) && (checked ==> Unchanged(m, s, coordinated, f)))
      && m' == m.(blocked := m.blocked || (reaches && !f.configReadable))
  {
  }

  /** Once an instance has met an unreadable configuration, it commits and recovers nothing any more. */
  lemma {:induction false} BlockedForGood(
    m: Memory, s: Stores, patch: Patch, op: Option<J.OpId>, uuids: seq<string>, coordinated: bool, f: Faults
  )
    requires EnoughIds(m, patch, uuids) && J.WellFormed(s.journal) && m.blocked
    ensures var (m', s', r) := Committed(m, s, patch, op, uuids, coordinated, f); r.Err? && s' == s && m' == m
    ensures var (m', s', r) := Recovered(m, s, coordinated, f); r.Err? && s' == s && m' == m
  {
    GuardIff(m, s, coordinated, true, f);
    GuardIff(m, s, coordinated, false, f);
    hide Guarded, Planned, Executed, Replay, J.Compacted;
  }

  /** A recovery succeeds if and only if it passes, the history has room for what is dropped, and the write works. */
  lemma {:induction false} RecoveryIff(m: Memory, s: Stores, coordinated: bool, f: Faults)
    requires J.WellFormed(s.journal)
    ensures var records := RecordsRecovered(s, s.journal.records, Current(s).lastOp, Refs(Current(s)), f).1;
      Recovered(m, s, coordinated, f).2.Ok? <==>
        Usable(m, coordinated, f) && J.Compacted(s.journal.(records := records)).Some? && f.receipt.reported
  {
    GuardIff(m, s, coordinated, false, f);
    hide Guarded, RecordsRecovered, J.Compacted, Refs;
  }

  /**
   * The mark is set if and only if the lock is free, the journal is readable and it is written; then the first record
   * of the operation is complete, and nothing else has changed. A journal that is not stored stays.
   */
  lemma {:induction false} MarkIff(s: Stores, op: J.OpId, coordinated: bool, f: Faults)
    ensures var (s', r) := Marked(s, op, coordinated, f);
      && (r.Ok? <==> (coordinated ==> f.locked) && f.journalReadable && f.receipt.reported)
      && (r.Ok? && s.power > 0 ==>
           && s' == s.(power := s.power - 1, journal := s.journal.(records := s'.journal.records))
           && |s'.journal.records| == |s.journal.records|
           && forall i | 0 <= i < |s.journal.records| ::
                s'.journal.records[i] ==
                  if S.IsFirst(s.journal.records, i, op) then s.journal.records[i].(complete := true)
                  else s.journal.records[i])
      && (r.Err? && !f.receipt.stored ==> s'.journal == s.journal)
  {
    S.CompletedSame(s.journal.records, op);
    hide Completed, S.IsFirst;
  }

  // ---------- the receipt check ----------

  /** A call goes on if and only if its id is new to the configuration and the journal, and the history is not full. */
  lemma {:induction false} ReplayIff(m: Memory, j: J.Journal, op: J.OpId)
    ensures Replay(m, j, op) == Ok(false) <==>
      m.cfg.lastOp != Some(op) && !J.Remembered(j, op) && !J.Saturated(j.expired)
    ensures Replay(m, j, op) == Ok(true) <==>
      m.cfg.lastOp == Some(op) || exists i | 0 <= i < |j.records| :: j.records[i].op == op && j.records[i].committed
  {
    hide J.Expired, J.Saturated;
  }

  // ---------- the patch ----------

  function Submitted(m: Memory, patch: Patch): seq<Provider> {
    if patch.Page? then patch.config.providers else m.cfg.providers
  }

  function SubmittedFonts(m: Memory, patch: Patch): Fonts {
    if patch.SetFonts? then patch.fonts else m.cfg.fonts
  }

  function SubmittedEdits(patch: Patch): map<string, Edit> {
    if patch.Page? then patch.edits else map[]
  }

  /** The patch was made against what the instance has published last, and names a model that is there. */
  predicate Timely(m: Memory, patch: Patch) {
    match patch
    case Page(_, expected, _, _) => expected.boot == m.boot && expected.sequence == m.pageVersion
    case Role(role, model, expected) =>
      && role in {"explore", "backend-dev", "frontend-dev", "app-dev", "reviewer", "product-manager", "code-reviewer",
                  "tester"}
      && expected.boot == m.boot && expected.sequence == RoleVersion(m, role)
      && (model.Some? ==> exists p, x | p in m.cfg.providers && x in p.models :: x.id == model.value)
    case _ => true
  }

  /** Whole pixels from 12 to 20. */
  predicate WholeSize(size: real) {
    size in {12.0, 13.0, 14.0, 15.0, 16.0, 17.0, 18.0, 19.0, 20.0}
  }

  predicate WholeSizes(fonts: Fonts) {
    WholeSize(fonts.sizeSans) && WholeSize(fonts.sizeContent) && WholeSize(fonts.sizeMono)
  }

  /** The format, the font sizes and the names are as a configuration needs them. */
  ghost predicate WellFormedDraft(m: Memory, patch: Patch) {
    var ps := Submitted(m, patch);
    && (if patch.Page? then patch.config.schema else m.cfg.schema) == 2 && WholeSizes(SubmittedFonts(m, patch))
    && DistinctIds(ps) && (forall p | p in ps :: p.id != "" && !A.HasMarker(p.id) && p.headersOk)
    && Unique(AllModelNames(ps)) && "" !in AllModelNames(ps) && SubmittedEdits(patch).Keys <= Ids(ps)
  }

  lemma {:induction false} SizeIff(size: real)
    ensures ValidSize(size) <==> WholeSize(size)
  {
    if ValidSize(size) {
      assert 12 <= size.Floor <= 20 && size == size.Floor as real;
    }
  }

  lemma {:induction false} DraftIff(m: Memory, patch: Patch)
    ensures Drafted(m, patch).Ok? <==> Timely(m, patch)
    ensures Drafted(m, patch).Ok? ==>
      var d := Drafted(m, patch).value;
      && d.config.providers == Submitted(m, patch) && d.edits == SubmittedEdits(patch) && d.pageInput == patch.Page?
      && (Validated(d.config, d.edits).Ok? <==> WellFormedDraft(m, patch))
      && d.config.retention == (if patch.Page? then patch.config.retention else m.cfg.retention)
      && d.skipCleanup == (if patch.Page? then patch.skipCleanup else true)
  {
    hide ValidSize, Validated, A.HasMarker, Trim, Without, AllModelNames;
    if Drafted(m, patch).Ok? {
      var d := Drafted(m, patch).value;
      ValidatedMeans(d.config, d.edits);
      SizeIff(d.config.fonts.sizeSans);
      SizeIff(d.config.fonts.sizeContent);
      SizeIff(d.config.fonts.sizeMono);
      hide WholeSize, DistinctIds, Unique;
    }
  }

  // ---------- one provider ----------

  /** The account behind the placeholder can be read, if it is needed. */
  predicate Readable(p: Provider, ring: Keyring, bad: set<string>) {
    PLACEHOLDER in p.keys ==>
      var account := if p.ref.Some? then p.ref.value else p.id;
      account in ring && account !in bad
  }

  /** The saved keys can stay: keys in the clear move to the keyring, and nothing but the placeholder is left else. */
  predicate Movable(p: Provider, ring: Keyring, bad: set<string>) {
    if exists k | k in p.keys :: k != "" && k != PLACEHOLDER then Readable(p, ring, bad)
    else forall k | k in p.keys :: k == PLACEHOLDER
  }

  /** Keys a user may enter: one line, neither the placeholder nor a mask. */
  predicate Enterable(newKeys: seq<string>) {
    forall i | 0 <= i < |newKeys| ::
      var key := Trim(newKeys[i]);
      key != PLACEHOLDER && !Masked(key) && forall c | c in key :: c != '\n' && c != '\r'
  }

  /** What an edit needs of the saved provider and of the keys that come with it. */
  ghost predicate Storable(before: Option<Provider>, p: Provider, edit: Edit, ring: Keyring, bad: set<string>) {
    match edit
    case Keep => if before.Some? then Movable(before.value, ring, bad) else p.keys == []
    case Clear => true
    case Replace(newKeys) => Enterable(newKeys)
    case Append(newKeys) =>
      && Enterable(newKeys)
      && if NothingTyped(newKeys) then Movable(if before.Some? then before.value else p, ring, bad)
         else before.Some? ==> Readable(before.value, ring, bad)
  }

  /** The reference is the saved one, and what is asked for can be stored. */
  ghost predicate Acceptable(m: Memory, patch: Patch, p: Provider, ring: Keyring, bad: set<string>) {
    var before := Find(m.cfg.providers, p.id);
    && p.ref == (if before.Some? then before.value.ref else None)
    && exists edit ::
         && (if patch.Page? then Asked(before, p, patch.edits, edit) else edit == Keep)
         && Storable(before, p, edit, ring, bad)
  }

  predicate OnlyPlaceholder(keys: seq<string>) {
    forall k | k in keys :: k == PLACEHOLDER
  }

  lemma {:induction false} ResolvedIff(p: Provider, ring: Keyring, bad: set<string>)
    ensures Resolved(ring, bad, p).Some? <==> Readable(p, ring, bad)
    ensures Resolved(ring, bad, p).Some? && HasPlain(p.keys) ==> Resolved(ring, bad, p).value != []
  {
    if HasPlain(p.keys) && Resolved(ring, bad, p).Some? {
      var k :| k in p.keys && Plain(k);
      PlainKeysHas(p.keys, k);
      ExtendedIsUnion([], PlainKeys(p.keys));
      if PLACEHOLDER in p.keys {
        ExtendedIsUnion(Extended([], PlainKeys(p.keys)), ring[AccountOf(p)]);
      }
      assert k in Resolved(ring, bad, p).value;
    }
    hide Extended, PlainKeys;
  }

  lemma {:induction false} EnterableIff(newKeys: seq<string>)
    ensures Normalized(newKeys).Some? <==> Enterable(newKeys)
    ensures Normalized(newKeys).Some? ==> (Normalized(newKeys).value == [] <==> NothingTyped(newKeys))
  {
    NormalizedKeys(newKeys);
    if Normalized(newKeys).Some? {
      NormalizedGrows([], newKeys);
    }
    hide Trim, Masked, Normalized;
  }

  /** The pool step succeeds with nothing but the placeholder left if and only if the edit can be stored. */
  lemma {:induction false} PoolIff(
    before: Option<Provider>, p: Provider, edit: Edit, ring: Keyring, bad: set<string>, uuid: string
  )
    requires before.Some? ==> before.value.id == p.id
    ensures var (p', pool) := PoolFor(before, p, edit, ring, bad);
      (pool.Ok? && OnlyPlaceholder(Placed(p', pool.value, uuid).0.keys)) <==> Storable(before, p, edit, ring, bad)
  {
    if before.Some? {
      ResolvedIff(before.value, ring, bad);
      ResolvedIff(Carried(before, p), ring, bad);
      assert Readable(Carried(before, p), ring, bad) == Readable(before.value, ring, bad);
    }
    ResolvedIff(p, ring, bad);
    if edit.Append? || edit.Replace? {
      EnterableIff(edit.newKeys);
      if edit.Append? && before.Some? && Resolved(ring, bad, before.value).Some? && Normalized(edit.newKeys).Some? {
        ExtendedIsUnion(Resolved(ring, bad, before.value).value, Normalized(edit.newKeys).value);
        var added := Normalized(edit.newKeys).value;
        assert added != [] ==> added[0] in Extended(Resolved(ring, bad, before.value).value, added);
      }
    }
    hide Resolved, Normalized, Extended, Readable, Enterable, NothingTyped, A.Generated;
  }

  lemma {:induction false} StepIff(
    m: Memory, d: Draft, patch: Patch, ring: Keyring, bad: set<string>, uuids: seq<string>, i: nat
  )
    requires Drafted(m, patch) == Ok(d) && i < |d.config.providers| <= |uuids|
    ensures (StepAt(m.cfg, d, ring, bad, uuids, i).Ok?
        && OnlyPlaceholder(StepAt(m.cfg, d, ring, bad, uuids, i).value.0.keys))
      <==> Acceptable(m, patch, d.config.providers[i], ring, bad)
  {
    DraftIff(m, patch);
    hide Drafted, Validated, WellFormedDraft;
    var p := d.config.providers[i];
    var before := Find(m.cfg.providers, p.id);
    if before.Some? {
      FindHas(m.cfg.providers, p.id);
    }
    var r := EditFor(before, p, EditOf(d.edits, p.id), d.pageInput);
    AskedIff(before, p, patch.Page?, d.edits);
    hide EditFor, Asked, Storable, PoolFor, Placed, OnlyPlaceholder;
    if r.Ok? {
      PoolIff(before, p, r.value, ring, bad, uuids[i]);
    }
  }

  lemma {:induction false} AskedIff(before: Option<Provider>, p: Provider, page: bool, edits: map<string, Edit>)
    requires !page ==> edits == map[]
    ensures forall edit :: EditFor(before, p, EditOf(edits, p.id), page) == Ok(edit) <==>
      if page then Asked(before, p, edits, edit) else edit == Keep
  {
    if page && EditFor(before, p, EditOf(edits, p.id), page).Ok? {
      EditForAsked(before, p, edits);
    }
    if page && before.Some? {
      var saved := before.value.keys;
      assert p.keys == MaskAll(saved) <==> |p.keys| == |saved| && forall i | 0 <= i < |saved| ::
        p.keys[i] == if saved[i] == PLACEHOLDER then PLACEHOLDER else Mask(saved[i]);
    }
    hide LegacyEdit, Mask;
  }

  lemma {:induction false} LoopIff(m: Memory, d: Draft, ring: Keyring, bad: set<string>, uuids: seq<string>, from: nat)
    requires from <= |d.config.providers| <= |uuids|
    ensures ProvidersFrom(m.cfg, d, ring, bad, uuids, from).Ok? <==>
      forall i | from <= i < |d.config.providers| :: StepAt(m.cfg, d, ring, bad, uuids, i).Ok?
    decreases |d.config.providers| - from
  {
    hide StepAt;
    if from < |d.config.providers| {
      LoopIff(m, d, ring, bad, uuids, from + 1);
    }
  }

  lemma {:induction false} PersistableIff(
    m: Memory, d: Draft, ring: Keyring, bad: set<string>, uuids: seq<string>, c: Config
  )
    requires |d.config.providers| <= |uuids| && ProvidersFrom(m.cfg, d, ring, bad, uuids, 0).Ok?
    requires c.providers == ProvidersFrom(m.cfg, d, ring, bad, uuids, 0).value.0
    ensures Persistable(c) <==> forall i | 0 <= i < |d.config.providers| ::
      StepAt(m.cfg, d, ring, bad, uuids, i).Ok? && OnlyPlaceholder(StepAt(m.cfg, d, ring, bad, uuids, i).value.0.keys)
  {
    ProvidersFromSize(m.cfg, d, ring, bad, uuids, 0);
    forall i | 0 <= i < |d.config.providers|
      ensures StepAt(m.cfg, d, ring, bad, uuids, i).Ok?
      ensures c.providers[i] == StepAt(m.cfg, d, ring, bad, uuids, i).value.0
    {
      ProvidersFromAt(m.cfg, d, ring, bad, uuids, 0, i);
    }
    hide StepAt, ProvidersFrom;
  }

  // ---------- the plan ----------

  /** The journal has room once it is compacted. */
  predicate HasRoom(j: J.Journal)
    requires J.WellFormed(j)
  {
    J.Compacted(j).Some? && |J.Compacted(j).value.records| < 512
  }

  /** Everything a caller can check before a commit. */
  ghost predicate Accepted(m: Memory, j: J.Journal, ring: Keyring, patch: Patch, bad: set<string>)
    requires J.WellFormed(j)
  {
    && Timely(m, patch) && WellFormedDraft(m, patch)
    && (forall i | 0 <= i < |Submitted(m, patch)| :: Acceptable(m, patch, Submitted(m, patch)[i], ring, bad))
    && HasRoom(j)
  }

  lemma {:induction false} AssembledIff(
    m: Memory, d: Draft, patch: Patch, ring: Keyring, bad: set<string>, uuids: seq<string>
  )
    requires Drafted(m, patch) == Ok(d) && |d.config.providers| <= |uuids|
    ensures Assembled(m, d, ring, bad, uuids).Ok? <==>
      WellFormedDraft(m, patch) && forall i | 0 <= i < |Submitted(m, patch)| ::
        Acceptable(m, patch, Submitted(m, patch)[i], ring, bad)
  {
    DraftIff(m, patch);
    LoopIff(m, d, ring, bad, uuids, 0);
    forall i | 0 <= i < |d.config.providers|
      ensures (StepAt(m.cfg, d, ring, bad, uuids, i).Ok?
          && OnlyPlaceholder(StepAt(m.cfg, d, ring, bad, uuids, i).value.0.keys))
        <==> Acceptable(m, patch, d.config.providers[i], ring, bad)
    {
      StepIff(m, d, patch, ring, bad, uuids, i);
    }
    if ProvidersFrom(m.cfg, d, ring, bad, uuids, 0).Ok? {
      PersistableIff(m, d, ring, bad, uuids,
        Cleaned(d.config).(providers := ProvidersFrom(m.cfg, d, ring, bad, uuids, 0).value.0));
    }
    hide Drafted, Validated, WellFormedDraft, StepAt, ProvidersFrom, Acceptable, OnlyPlaceholder, Persistable, Cleaned;
  }

  /** A plan is made if and only if the patch is accepted. */
  lemma {:induction false} PlannedIff(
    m: Memory, j: J.Journal, ring: Keyring, patch: Patch, op: J.OpId, uuids: seq<string>, bad: set<string>
  )
    requires EnoughIds(m, patch, uuids) && J.WellFormed(j)
    ensures Planned(m, j, ring, patch, op, uuids, bad).Ok? <==> Accepted(m, j, ring, patch, bad)
  {
    DraftIff(m, patch);
    hide Drafted, Assembled, J.Compacted, IntentRecord, Cleans, Timely, WellFormedDraft, Acceptable, Validated;
    if Drafted(m, patch).Ok? {
      AssembledIff(m, Drafted(m, patch).value, patch, ring, bad, uuids);
    }
  }

  // ---------- the execution ----------

  /** The pool was written, said to be written, and read back as it was meant. */
  predicate Verified(f: Faults, x: Prepared) {
    x.account in f.writes ==>
      f.writes[x.account].reported && f.writes[x.account].readable && f.writes[x.account].after == Some(x.pool)
  }

  lemma {:induction false} KeysIff(s: Stores, prepared: seq<Prepared>, f: Faults)
    ensures KeysWritten(s, prepared, f).1 <==> forall i | 0 <= i < |prepared| :: Verified(f, prepared[i])
    decreases |prepared|
  {
    if prepared != [] {
      var s1 := KeyWritten(s, prepared[0], f).0;
      assert KeyWritten(s, prepared[0], f).1 <==> Verified(f, prepared[0]);
      KeysIff(s1, prepared[1..], f);
      hide KeyWritten, Verified;
      assert forall i | 0 < i < |prepared| :: prepared[i] == prepared[1..][i - 1];
    }
  }

  /**
   * A plan that is executed succeeds if and only if the intent is written, every pool is verified and the configuration
   * is replaced; the error says which of them failed first. A journal write that fails leaves the journal.
   */
  lemma {:induction false} ExecutedIff(m: Memory, s: Stores, plan: Plan, op: J.OpId, coordinated: bool, f: Faults)
    requires plan.journal.records != []
    ensures var (m', s', r) := Executed(m, s, plan, op, coordinated, f);
      var verified := forall i | 0 <= i < |plan.prepared| :: Verified(f, plan.prepared[i]);
      && (r.Ok? <==> f.intent.reported && verified && f.configStored)
      && (!f.intent.reported ==> r == Err(JournalWriteFailed))
      && (f.intent.reported && !verified ==> r == Err(KeyringFailed))
      && (f.intent.reported && verified && !f.configStored ==> r == Err(ConfigWriteFailed))
      && (!f.intent.reported && !f.intent.stored ==> s' == s.(power := s'.power) && m' == m)
      && (f.intent.stored && !f.intent.reported && s.power > 0 ==> s'.journal == plan.journal)
  {
    var s1 := JournalWritten(s, plan.journal, f.intent).0;
    KeysIff(s1, plan.prepared, f);
    hide KeysWritten, Discarded, Published, ConfigWritten, Receipt, Verified;
  }

  /** What a write or a deletion does to an account, whatever it reports. */
  lemma {:induction false} StoreActions(s: Stores, x: Prepared, account: string, f: Faults)
    requires s.power > 0
    ensures var ring := KeyWritten(s, x, f).0.ring;
      && (x.account !in f.writes ==> x.account in ring && ring[x.account] == x.pool)
      && (x.account in f.writes && f.writes[x.account].after.Some? ==>
           x.account in ring && ring[x.account] == f.writes[x.account].after.value)
      && (x.account in f.writes && f.writes[x.account].after.None? ==> x.account !in ring)
      && KeyWritten(s, x, f).0.created == s.created + {x.account}
    ensures var (s', reported) := KeyDeleted(s, account, f);
      var failed := account in f.deletes && !f.deletes[account].removed && !f.deletes[account].reported;
      && reported == (account !in f.deletes || f.deletes[account].reported)
      && s'.ring == if failed then s.ring else s.ring - {account}
  {
  }

  /** A deletion of the account works if it is tried. */
  predicate DeleteWorks(f: Faults, account: string) {
    account in f.deletes ==> f.deletes[account].removed || f.deletes[account].reported
  }

  lemma {:induction false} DiscardDeletes(s: Stores, prepared: seq<Prepared>, f: Faults, i: nat)
    requires i < |prepared| && s.power >= |prepared|
    requires forall k | 0 <= k < |prepared| :: DeleteWorks(f, prepared[k].account)
    ensures prepared[i].account !in Discarded(s, prepared, f).ring
    decreases |prepared|
  {
    var s1 := KeyDeleted(s, prepared[0].account, f).0;
    assert s1.ring == s.ring - {prepared[0].account} && s1.power == s.power - 1;
    assert forall k | 0 <= k < |prepared[1..]| :: prepared[1..][k] == prepared[k + 1];
    hide KeyDeleted, DeleteWorks;
    if i > 0 {
      DiscardDeletes(s1, prepared[1..], f, i - 1);
    } else {
      DiscardsAddNothing(s1, prepared[1..], f, prepared[0].account);
    }
  }

  lemma {:induction false} DiscardsAddNothing(s: Stores, prepared: seq<Prepared>, f: Faults, account: string)
    requires account !in s.ring
    ensures account !in Discarded(s, prepared, f).ring
    decreases |prepared|
  {
    if prepared != [] {
      var s1 := KeyDeleted(s, prepared[0].account, f).0;
      assert account !in s1.ring;
      hide KeyDeleted;
      DiscardsAddNothing(s1, prepared[1..], f, account);
    }
  }

  lemma {:induction false} KeysSpend(s: Stores, prepared: seq<Prepared>, f: Faults)
    ensures KeysWritten(s, prepared, f).0.power + |prepared| >= s.power
    decreases |prepared|
  {
    if prepared != [] {
      var s1 := KeyWritten(s, prepared[0], f).0;
      assert s1.power + 1 >= s.power;
      hide KeyWritten;
      KeysSpend(s1, prepared[1..], f);
    }
  }

  /** A commit that fails after its intent takes every account back that it may have written, if deletions work. */
  lemma {:induction false} FailureLeavesNoCandidate(
    m: Memory, s: Stores, plan: Plan, op: J.OpId, coordinated: bool, f: Faults, i: nat
  )
    requires plan.journal.records != [] && i < |plan.prepared| && s.power >= 2 * |plan.prepared| + 2
    requires forall k | 0 <= k < |plan.prepared| :: DeleteWorks(f, plan.prepared[k].account)
    requires f.intent.reported && Executed(m, s, plan, op, coordinated, f).2.Err?
    ensures plan.prepared[i].account !in Executed(m, s, plan, op, coordinated, f).1.ring
  {
    var s1 := JournalWritten(s, plan.journal, f.intent).0;
    var (s2, stored) := KeysWritten(s1, plan.prepared, f);
    var s3 := ConfigWritten(s2, plan.config, op, f.configStored);
    KeysSpend(s1, plan.prepared, f);
    DiscardDeletes(if stored then s3 else s2, plan.prepared, f, i);
    hide KeysWritten, Discarded, DeleteWorks, Receipt, Published;
  }

  // ---------- the call ----------

  /** The saved sessions have to be cleaned up: the page asks for another valid retention and does not opt out. */
  predicate CleanupDue(m: Memory, patch: Patch) {
    patch.Page? && !patch.skipCleanup && patch.config.retention != m.cfg.retention
    && patch.config.retention in {Some(1), Some(3), Some(7), Some(14), Some(30)}
  }

  /** The receipt of a commit: settled, and complete unless a cleanup is due. */
  predicate Settled(m: Memory, patch: Patch, op: J.OpId, r: J.Record) {
    r.op == op && r.committed && r.complete == !CleanupDue(m, patch) && r.version == J.Version(m.boot, m.sequence + 1)
  }

  lemma {:induction false} ReceiptSettles(
    m: Memory, j: J.Journal, ring: Keyring, patch: Patch, op: J.OpId, uuids: seq<string>, bad: set<string>
  )
    requires EnoughIds(m, patch, uuids) && J.WellFormed(j) && Planned(m, j, ring, patch, op, uuids, bad).Ok?
    ensures var plan := Planned(m, j, ring, patch, op, uuids, bad).value;
      && plan.journal.records != []
      && var after := Receipt(plan.journal, plan.cleanup);
        && Settled(m, patch, op, after.records[|after.records| - 1])
        && after.records[..|after.records| - 1] == J.Compacted(j).value.records
        && after.expired == J.Compacted(j).value.expired
  {
    PlanParts(m, j, ring, patch, op, uuids, bad);
    PlanCleans(m, j, ring, patch, op, uuids, bad);
    hide Drafted, Validated, ProvidersFrom, Planned, J.Compacted, WithRetired, Persistable, Cleaned;
    CleansIff(m, patch);
    hide CleanupDue, Cleans;
  }

  lemma {:induction false} CleansIff(m: Memory, patch: Patch)
    requires Drafted(m, patch).Ok?
    ensures var d := Drafted(m, patch).value; Cleans(m.cfg, d.config, d.skipCleanup) == CleanupDue(m, patch)
  {
    hide Trim, Without;
  }

  lemma {:induction false} PlanCleans(
    m: Memory, j: J.Journal, ring: Keyring, patch: Patch, op: J.OpId, uuids: seq<string>, bad: set<string>
  )
    requires EnoughIds(m, patch, uuids) && J.WellFormed(j) && Planned(m, j, ring, patch, op, uuids, bad).Ok?
    ensures Drafted(m, patch).Ok?
    ensures var d := Drafted(m, patch).value;
      Planned(m, j, ring, patch, op, uuids, bad).value.cleanup == Cleans(m.cfg, d.config, d.skipCleanup)
  {
    hide Drafted, Validated, ProvidersFrom, J.Compacted, IntentRecord, Persistable;
  }

  /**
   * When nothing fails, a call with a new id lands if and only if its patch is accepted; then the configuration on disk
   * is what the patch asked for, the instance publishes it, and the receipt is settled.
   */
  lemma {:induction false} HealthyCallLands(
    m: Memory, s: Stores, patch: Patch, op: J.OpId, uuids: seq<string>, coordinated: bool, f: Faults
  )
    requires EnoughIds(m, patch, uuids) && StoresOk(s) && FreshIds(s, m.cfg, uuids)
    requires Healthy(f) && !m.blocked && (coordinated ==> m.seen == s.config) && s.power >= |uuids| + 4
    requires m.cfg.lastOp != Some(op) && !J.Remembered(s.journal, op) && !J.Saturated(s.journal.expired)
    ensures var (m', s', r) := Committed(m, s, patch, Some(op), uuids, coordinated, f);
      && (r.Ok? <==> Accepted(m, s.journal, s.ring, patch, {}))
      && (r.Err? ==> s' == s && m' == m)
      && (r.Ok? ==>
           && r == Ok(false) && Delivers(m, s, s', patch) && s'.config == Some(m'.cfg)
           && s'.config.value.lastOp == Some(op) && m'.sequence == m.sequence + 1
           && s'.journal.records != [] && Settled(m, patch, op, s'.journal.records[|s'.journal.records| - 1]))
  {
    assert J.WellFormed(s.journal);
    ReplayIff(m, s.journal, op);
    PlannedIff(m, s.journal, s.ring, patch, op, uuids, {});
    CommitIsAtomic(m, s, patch, Some(op), uuids, coordinated, f);
    hide StoresOk, FreshIds, Accepted, Replay, J.Remembered, J.Saturated, J.WellFormed, Refs, Delivers, NotCommitted;
    if Planned(m, s.journal, s.ring, patch, op, uuids, {}).Ok? {
      PreparedAtMost(m, s.journal, s.ring, patch, op, uuids, {});
      HealthyCommitLands(m, s, patch, Some(op), uuids, coordinated, f);
      ReceiptSettles(m, s.journal, s.ring, patch, op, uuids, {});
      HealthyJournal(m, s, patch, op, uuids, coordinated, f);
      CommitLands(m, s, patch, op, uuids, coordinated, f);
    }
    hide Planned, Executed;
  }

  lemma {:induction false} CommitLands(
    m: Memory, s: Stores, patch: Patch, op: J.OpId, uuids: seq<string>, coordinated: bool, f: Faults
  )
    requires EnoughIds(m, patch, uuids) && StoresOk(s) && FreshIds(s, m.cfg, uuids)
    requires var (m', s', r) := Committed(m, s, patch, Some(op), uuids, coordinated, f); r == Ok(false) && s'.power > 0
    ensures var s' := Committed(m, s, patch, Some(op), uuids, coordinated, f).1;
      Delivers(m, s, s', patch) && s'.config.value.lastOp == Some(op)
  {
    CommitIsAtomic(m, s, patch, Some(op), uuids, coordinated, f);
    hide StoresOk, FreshIds, Delivers, Committed, Refs;
  }

  lemma {:induction false} PreparedAtMost(
    m: Memory, j: J.Journal, ring: Keyring, patch: Patch, op: J.OpId, uuids: seq<string>, bad: set<string>
  )
    requires EnoughIds(m, patch, uuids) && J.WellFormed(j) && Planned(m, j, ring, patch, op, uuids, bad).Ok?
    ensures |Planned(m, j, ring, patch, op, uuids, bad).value.prepared| <= |uuids|
  {
    PlanParts(m, j, ring, patch, op, uuids, bad);
    LoopPrepares(m, Drafted(m, patch).value, ring, bad, uuids, 0);
    hide Planned, ProvidersFrom, Drafted, Validated, Cleaned, Persistable;
  }

  lemma {:induction false} LoopPrepares(
    m: Memory, d: Draft, ring: Keyring, bad: set<string>, uuids: seq<string>, from: nat
  )
    requires from <= |d.config.providers| <= |uuids| && ProvidersFrom(m.cfg, d, ring, bad, uuids, from).Ok?
    ensures |ProvidersFrom(m.cfg, d, ring, bad, uuids, from).value.1| <= |d.config.providers| - from
    decreases |d.config.providers| - from
  {
    hide StepAt;
    if from < |d.config.providers| {
      LoopPrepares(m, d, ring, bad, uuids, from + 1);
    }
  }

  lemma {:induction false} HealthyJournal(
    m: Memory, s: Stores, patch: Patch, op: J.OpId, uuids: seq<string>, coordinated: bool, f: Faults
  )
    requires EnoughIds(m, patch, uuids) && J.WellFormed(s.journal) && Healthy(f) && !m.blocked
    requires (coordinated ==> m.seen == s.config) && Replay(m, s.journal, op) == Ok(false)
    requires Planned(m, s.journal, s.ring, patch, op, uuids, {}).Ok?
    requires var plan := Planned(m, s.journal, s.ring, patch, op, uuids, {}).value;
      plan.journal.records != [] && s.power >= |plan.prepared| + 4
    ensures var plan := Planned(m, s.journal, s.ring, patch, op, uuids, {}).value;
      Committed(m, s, patch, Some(op), uuids, coordinated, f).1.journal == Receipt(plan.journal, plan.cleanup)
  {
    var plan := Planned(m, s.journal, s.ring, patch, op, uuids, {}).value;
    var s1 := JournalWritten(s, plan.journal, f.intent).0;
    HealthyKeys(s1, plan.prepared, f);
    hide Planned, Replay, KeysWritten, Receipt, PageView, BumpedRoles;
  }
}
