/** The coordinator: memory and stores updated in place, each method proved against the function of the state. */
module ConfigCoordinators {
  import opened Wrappers
  import opened Credentials
  import opened ConfigModel
  import opened ConfigCommit
  import A = Accounts
  import J = Journals

  // ---------- loops over values ----------

  /** `legacy_credential_edit`. */
  method LegacyCredentialEdit(oldKeys: seq<string>, incoming: seq<string>) returns (r: Result<Edit, Code>)
    ensures r == LegacyEdit(oldKeys, incoming)
  {
    var newKeys, preserve := [], false;
    hide Trim, Masked, MaskedBy;
    for i := 0 to |incoming|
      invariant LegacyFrom(oldKeys, incoming[i..], newKeys, preserve) == LegacyEdit(oldKeys, incoming)
    {
      assert incoming[i..][0] == incoming[i] && incoming[i..][1..] == incoming[i + 1..];
      var key := Trim(incoming[i]);
      if key == "" {
        continue;
      }
      if key == PLACEHOLDER {
        if PLACEHOLDER !in oldKeys {
          return Err(CredentialConflict);
        }
        preserve := true;
      } else if Masked(key) {
        var matches := MaskedBy(oldKeys, key);
        if |matches| != 1 {
          return Err(CredentialConflict);
        }
        newKeys := newKeys + matches;
      } else {
        newKeys := newKeys + [key];
      }
    }
    return Ok(if preserve then (if newKeys == [] then Keep else Append(newKeys))
              else if newKeys == [] then Clear else Replace(newKeys));
  }

  /** The providers of `validate_config`. */
  method ValidateProviders(ps: seq<Provider>) returns (r: Result<set<string>, Code>)
    ensures r == ProvidersValid(ps, {}, {})
  {
    var ids: set<string>, models: set<string> := {}, {};
    hide A.HasMarker;
    for i := 0 to |ps|
      invariant ProvidersValid(ps[i..], ids, models) == ProvidersValid(ps, {}, {})
    {
      var p := ps[i];
      assert ps[i..][0] == p && ps[i..][1..] == ps[i + 1..];
      if p.id == "" || p.id in ids || A.HasMarker(p.id) {
        return Err(InvalidProvider);
      }
      if !p.headersOk {
        return Err(InvalidHeaders);
      }
      var found := models;
      for k := 0 to |p.models|
        invariant ModelsFrom(p.models[k..], found) == ModelsFrom(p.models, models)
      {
        assert p.models[k..][0] == p.models[k] && p.models[k..][1..] == p.models[k + 1..];
        if p.models[k].id == "" || p.models[k].id in found {
          return Err(InvalidModel);
        }
        found := found + {p.models[k].id};
      }
      ids, models := ids + {p.id}, found;
    }
    return Ok(ids);
  }

  /** The result of a loop that has already prepared some providers. */
  function After(ps: seq<Provider>, prepared: seq<Prepared>, r: Result<(seq<Provider>, seq<Prepared>), Code>)
    : Result<(seq<Provider>, seq<Prepared>), Code>
  {
    match r
    case Err(e) => Err(e)
    case Ok((more, moreKeys)) => Ok((ps + more, prepared + moreKeys))
  }

  lemma {:induction false} AfterStep(
    current: Config, d: Draft, ring: Keyring, bad: set<string>, uuids: seq<string>, i: nat, ps: seq<Provider>,
    prepared: seq<Prepared>
  )
    requires i < |d.config.providers| <= |uuids|
    ensures After(ps, prepared, ProvidersFrom(current, d, ring, bad, uuids, i)) ==
      match StepAt(current, d, ring, bad, uuids, i)
      case Err(e) => Err(e)
      case Ok((p, x)) => After(ps + [p], prepared + PreparedSeq(x), ProvidersFrom(current, d, ring, bad, uuids, i + 1))
  {
    hide StepAt, PreparedSeq;
    var step, rest := StepAt(current, d, ring, bad, uuids, i), ProvidersFrom(current, d, ring, bad, uuids, i + 1);
    if step.Ok? && rest.Ok? {
      assert ps + ([step.value.0] + rest.value.0) == (ps + [step.value.0]) + rest.value.0;
      assert prepared + (PreparedSeq(step.value.1) + rest.value.1) == (prepared + PreparedSeq(step.value.1)) +
        rest.value.1;
    }
  }

  /** The provider loop of `commit_with`. */
  method PrepareProviders(current: Config, d: Draft, ring: Keyring, bad: set<string>, uuids: seq<string>)
    returns (r: Result<(seq<Provider>, seq<Prepared>), Code>)
    requires |d.config.providers| <= |uuids|
    ensures r == ProvidersFrom(current, d, ring, bad, uuids, 0)
  {
    var ps: seq<Provider>, prepared: seq<Prepared> := [], [];
    ghost var all := ProvidersFrom(current, d, ring, bad, uuids, 0);
    assert all.Ok? ==> [] + all.value.0 == all.value.0 && [] + all.value.1 == all.value.1;
    for i := 0 to |d.config.providers|
      invariant After(ps, prepared, ProvidersFrom(current, d, ring, bad, uuids, i)) == all
    {
      hide StepAt, PreparedSeq, ProvidersFrom, After;
      AfterStep(current, d, ring, bad, uuids, i, ps, prepared);
      var step := StepAt(current, d, ring, bad, uuids, i);
      match step {
        case Err(e) => return Err(e);
        case Ok((p, x)) =>
          ps := ps + [p];
          prepared := prepared + PreparedSeq(x);
      }
    }
    assert ps + [] == ps && prepared + [] == prepared;
    return Ok((ps, prepared));
  }

  /** The registration of dropped references. */
  method RegisterRetired(
    accounts: seq<string>, ps: seq<Provider>, next: set<string>, listed: set<string>
  ) returns (r: seq<string>)
    ensures r == WithRetired(accounts, ps, next, listed)
  {
    r := accounts;
    hide A.ValidCleanup;
    for i := 0 to |ps|
      invariant WithRetired(r, ps[i..], next, listed) == WithRetired(accounts, ps, next, listed)
    {
      assert ps[i..][0] == ps[i] && ps[i..][1..] == ps[i + 1..];
      var a := ProviderAccount(ps[i]);
      if a.Some? && a.value !in next && A.ValidCleanup(a.value) && a.value !in listed && a.value !in r {
        r := r + [a.value];
      }
    }
  }

  // ---------- the coordinator ----------

  class ConfigCoordinator {
    const coordinated: bool
    const boot: string
    var sequence: nat
    var pageVersion: nat
    var roleVersions: map<string, nat>
    var cfg: Config
    var seen: Option<Config>
    var blocked: bool
    var stores: Stores

    ghost function Mem(): Memory
      reads this
    {
      Memory(boot, sequence, pageVersion, roleVersions, cfg, seen, blocked)
    }

    /** `loaded` is what the startup has read; without coordination nothing is recorded of the file. */
    constructor (boot: string, coordinated: bool, loaded: Config, stores: Stores)
      ensures this.coordinated == coordinated && this.stores == stores
      ensures Mem() == Memory(boot, 0, 0, map[], loaded, None, false)
    {
      this.boot, this.coordinated, this.stores := boot, coordinated, stores;
      sequence, pageVersion, roleVersions, cfg, seen, blocked := 0, 0, map[], loaded, None, false;
    }

    /** `with_coordination`: a second read of the file, later than the first. */
    method Attach(readable: bool)
      requires coordinated
      modifies this`seen
      ensures seen == if readable then stores.config else None
    {
      seen := if readable then stores.config else None;
    }

    // The stores.

    method WriteJournal(j: J.Journal, w: JournalWrite) returns (ok: bool)
      modifies this`stores
      ensures (stores, ok) == JournalWritten(old(stores), j, w)
    {
      if stores.power == 0 {
        return w.reported;
      }
      stores := stores.(power := stores.power - 1);
      if w.stored || w.reported {
        stores := stores.(journal := j);
      }
      return w.reported;
    }

    method WriteKeys(prepared: seq<Prepared>, f: Faults) returns (ok: bool)
      modifies this`stores
      ensures (stores, ok) == KeysWritten(old(stores), prepared, f)
    {
      hide WriteOf;
      for i := 0 to |prepared|
        invariant KeysWritten(stores, prepared[i..], f) == KeysWritten(old(stores), prepared, f)
      {
        assert prepared[i..][0] == prepared[i] && prepared[i..][1..] == prepared[i + 1..];
        var (next, good) := KeyWritten(stores, prepared[i], f);
        stores := next;
        if !good {
          return false;
        }
      }
      return true;
    }

    method DeleteKey(account: string, f: Faults) returns (ok: bool)
      modifies this`stores
      ensures (stores, ok) == KeyDeleted(old(stores), account, f)
    {
      var (next, done) := KeyDeleted(stores, account, f);
      stores := next;
      return done;
    }

    method DiscardCandidates(prepared: seq<Prepared>, f: Faults)
      modifies this`stores
      ensures stores == Discarded(old(stores), prepared, f)
    {
      for i := 0 to |prepared|
        invariant Discarded(stores, prepared[i..], f) == Discarded(old(stores), prepared, f)
      {
        assert prepared[i..][0] == prepared[i] && prepared[i..][1..] == prepared[i + 1..];
        var _ := DeleteKey(prepared[i].account, f);
      }
    }

    // Checks.

    method Guard(checked: bool, f: Faults) returns (r: Result<(), Code>)
      modifies this`blocked
      ensures (Mem(), r) == Guarded(old(Mem()), stores, coordinated, checked, f)
    {
      if coordinated && !f.locked {
        return Err(Busy);
      }
      if checked && coordinated {
        if !f.checkReadable {
          return Err(Unreadable);
        }
        if seen != stores.config {
          return Err(ChangedExternally);
        }
      }
      if blocked {
        return Err(Unreadable);
      }
      if !f.configReadable {
        blocked := true;
        return Err(Unreadable);
      }
      return if f.journalReadable then Ok(()) else Err(JournalUnreadable);
    }

    // Recovery.

    method RecoverAccounts(accounts: seq<string>, referenced: set<string>, f: Faults) returns (keep: seq<string>)
      modifies this`stores
      ensures (stores, keep) == AccountsRecovered(old(stores), accounts, referenced, f)
    {
      keep := [];
      hide A.ValidCleanup, KeyDeleted;
      assert accounts[0..] == accounts;
      for i := 0 to |accounts|
        invariant AccountsRecovered(old(stores), accounts, referenced, f).0 ==
          AccountsRecovered(stores, accounts[i..], referenced, f).0
        invariant AccountsRecovered(old(stores), accounts, referenced, f).1
          == keep + AccountsRecovered(stores, accounts[i..], referenced, f).1
      {
        var a := accounts[i];
        assert accounts[i..][0] == a && accounts[i..][1..] == accounts[i + 1..];
        var kept := a in referenced || !A.ValidCleanup(a);
        if !kept {
          var deleted := DeleteKey(a, f);
          kept := !deleted;
        }
        ghost var rest := AccountsRecovered(stores, accounts[i + 1..], referenced, f).1;
        assert keep + ([a] + rest) == (keep + [a]) + rest && keep + ([] + rest) == keep + rest;
        if kept {
          keep := keep + [a];
        }
      }
      assert accounts[|accounts|..] == [] && keep + [] == keep;
    }

    method RecoverRecords(
      records: seq<J.Record>, lastOp: Option<J.OpId>, referenced: set<string>, f: Faults
    ) returns (r: seq<J.Record>)
      modifies this`stores
      ensures (stores, r) == RecordsRecovered(old(stores), records, lastOp, referenced, f)
    {
      r := [];
      hide AccountsRecovered;
      assert records[0..] == records;
      for i := 0 to |records|
        invariant RecordsRecovered(old(stores), records, lastOp, referenced, f).0
          == RecordsRecovered(stores, records[i..], lastOp, referenced, f).0
        invariant RecordsRecovered(old(stores), records, lastOp, referenced, f).1
          == r + RecordsRecovered(stores, records[i..], lastOp, referenced, f).1
      {
        var x := records[i];
        assert records[i..][0] == x && records[i..][1..] == records[i + 1..];
        var keep := RecoverAccounts(x.accounts, referenced, f);
        var x' := x.(committed := x.committed || lastOp == Some(x.op), accounts := keep);
        ghost var rest := RecordsRecovered(stores, records[i + 1..], lastOp, referenced, f).1;
        assert r + ([x'] + rest) == (r + [x']) + rest;
        r := r + [x'];
      }
      assert records[|records|..] == [] && r + [] == r;
    }

    method Recover(f: Faults) returns (r: Result<(), Code>)
      requires J.WellFormed(stores.journal)
      modifies this`blocked, this`stores
      ensures (Mem(), stores, r) == Recovered(old(Mem()), old(stores), coordinated, f)
    {
      hide RecordsRecovered, Refs, J.Compacted;
      var guard := Guard(false, f);
      if guard.Err? {
        return guard;
      }
      var config, journal := Current(stores), stores.journal;
      var records := RecoverRecords(journal.records, config.lastOp, Refs(config), f);
      var j := new J.CommitJournal(journal.(records := records));
      var ok := j.Compact();
      if !ok {
        return Err(HistoryFull);
      }
      var stored := WriteJournal(J.Journal(j.records, j.expired[..]), f.receipt);
      return if stored then Ok(()) else Err(JournalWriteFailed);
    }

    method MarkPostProcessed(op: J.OpId, f: Faults) returns (r: Result<(), Code>)
      modifies this`stores
      ensures (stores, r) == Marked(old(stores), op, coordinated, f)
    {
      if coordinated && !f.locked {
        return Err(Busy);
      }
      if !f.journalReadable {
        return Err(JournalUnreadable);
      }
      var stored := WriteJournal(stores.journal.(records := Completed(stores.journal.records, op)), f.receipt);
      return if stored then Ok(()) else Err(JournalWriteFailed);
    }

    // Commit.

    /** The new configuration and its pools. */
    method Assemble(d: Draft, uuids: seq<string>, bad: set<string>) returns (r: Result<(Config, seq<Prepared>), Code>)
      requires |d.config.providers| <= |uuids|
      ensures r == Assembled(Mem(), d, stores.ring, bad, uuids)
    {
      hide ProvidersFrom, ProvidersValid, ModelIds;
      if d.config.schema != 2 || !ValidSize(d.config.fonts.sizeSans) || !ValidSize(d.config.fonts.sizeContent)
        || !ValidSize(d.config.fonts.sizeMono)
      {
        return Err(InvalidConfiguration);
      }
      var ids := ValidateProviders(d.config.providers);
      if ids.Err? {
        return Err(ids.error);
      }
      if !(d.edits.Keys <= ids.value) {
        return Err(InvalidIntent);
      }
      var prepared := PrepareProviders(cfg, d, stores.ring, bad, uuids);
      if prepared.Err? {
        return Err(prepared.error);
      }
      var updated := Cleaned(d.config).(providers := prepared.value.0);
      return if Persistable(updated) then Ok((updated, prepared.value.1)) else Err(UnsafeStorage);
    }

    /** Everything a commit decides before it writes. */
    method Prepare(patch: Patch, op: J.OpId, uuids: seq<string>, bad: set<string>) returns (r: Result<Plan, Code>)
      requires EnoughIds(Mem(), patch, uuids) && J.WellFormed(stores.journal)
      ensures r == Planned(Mem(), stores.journal, stores.ring, patch, op, uuids, bad)
      ensures r.Ok? ==> r.value.journal.records != []
    {
      hide J.Compacted, Assembled, Refs, WithRetired;
      var drafted := Drafted(Memory(boot, sequence, pageVersion, roleVersions, cfg, seen, blocked), patch);
      if drafted.Err? {
        return Err(drafted.error);
      }
      var d := drafted.value;
      assert |d.config.providers| <= |uuids|;
      hide Drafted;
      var assembled := Assemble(d, uuids, bad);
      if assembled.Err? {
        return Err(assembled.error);
      }
      var (updated, prepared) := assembled.value;
      var j := new J.CommitJournal(stores.journal);
      var ok := j.Compact();
      if !ok {
        return Err(HistoryFull);
      }
      if |j.records| >= J.MAX_RECORDS {
        return Err(QueueFull);
      }
      var accounts := RegisterRetired(AccountsOf(prepared), cfg.providers, Refs(updated), ListedAccounts(j.records));
      var record := J.Record(op, accounts, false, false, J.Version(boot, sequence + 1));
      return Ok(Plan(updated.(lastOp := Some(op)), prepared, J.Journal(j.records + [record], j.expired[..]),
                     Cleans(cfg, updated, d.skipCleanup)));
    }

    /** From the intent on. */
    method Execute(plan: Plan, op: J.OpId, f: Faults) returns (r: Result<bool, Code>)
      requires plan.journal.records != []
      modifies this
      ensures (Mem(), stores, r) == Executed(old(Mem()), old(stores), plan, op, coordinated, f)
    {
      hide KeysWritten, Discarded, JournalWritten, PageView, BumpedRoles, Receipt, ConfigWritten;
      var intended := WriteJournal(plan.journal, f.intent);
      if !intended {
        return Err(JournalWriteFailed);
      }
      var stored := WriteKeys(plan.prepared, f);
      if !stored {
        DiscardCandidates(plan.prepared, f);
        return Err(KeyringFailed);
      }
      stores := ConfigWritten(stores, plan.config, op, f.configStored);
      if !f.configStored {
        DiscardCandidates(plan.prepared, f);
        return Err(ConfigWriteFailed);
      }
      if coordinated {
        seen := Some(plan.config);
      }
      sequence := sequence + 1;
      if PageView(plan.config) != PageView(cfg) {
        pageVersion := pageVersion + 1;
      }
      roleVersions := BumpedRoles(roleVersions, cfg, plan.config);
      cfg := plan.config;
      var _ := WriteJournal(Receipt(plan.journal, plan.cleanup), f.receipt);
      return Ok(false);
    }

    method CommitWith(patch: Patch, op: Option<J.OpId>, uuids: seq<string>, f: Faults) returns (r: Result<bool, Code>)
      requires EnoughIds(Mem(), patch, uuids) && J.WellFormed(stores.journal)
      modifies this
      ensures (Mem(), stores, r) == Committed(old(Mem()), old(stores), patch, op, uuids, coordinated, f)
    {
      hide Planned, Executed, Replay;
      if op.None? {
        return Err(InvalidOperation);
      }
      var guard := Guard(true, f);
      if guard.Err? {
        return Err(guard.error);
      }
      var replayed := FindReceipt(op.value);
      if replayed.Err? || replayed.value {
        return replayed;
      }
      var plan := Prepare(patch, op.value, uuids, f.bad);
      if plan.Err? {
        return Err(plan.error);
      }
      r := Execute(plan.value, op.value, f);
    }

    method FindReceipt(op: J.OpId) returns (r: Result<bool, Code>)
      ensures r == Replay(Mem(), stores.journal, op)
    {
      var listed, committed := false, cfg.lastOp == Some(op);
      var records := stores.journal.records;
      for i := 0 to |records|
        invariant listed <==> exists k | 0 <= k < i :: records[k].op == op
        invariant committed <==> cfg.lastOp == Some(op) || exists k | 0 <= k < i ::
          records[k].op == op && records[k].committed
      {
        if records[i].op == op {
          listed, committed := true, committed || records[i].committed;
        }
      }
      if committed {
        return Ok(true);
      }
      if listed {
        return Err(Uncertain);
      }
      if J.Saturated(stores.journal.expired) {
        return Err(HistoryFull);
      }
      return if J.Expired(stores.journal.expired, op) then Err(Expired) else Ok(false);
    }
  }
}
