/**
 * Commit and recovery over three fallible stores: the configuration file, the journal and the keyring
 * (src-tauri/src/core/config_commit.rs, lines 422-446, 468-587, 590-959). `power` is the number of store actions
 * left before the process dies: an action without power has no effect, so every crash point is one number.
 */
module ConfigCommit {
  import opened Wrappers
  import opened Credentials
  import opened ConfigModel
  import A = Accounts
  import J = Journals

  // ---------- the stores ----------

  /**
   * The last three fields are not in the program; they record what the statements are about: the keyring when the
   * configuration was written, the accounts a commit ever wrote, and the operations whose configuration was written.
   */
  datatype Stores = Stores(
    config: Option<Config>, journal: J.Journal, ring: Keyring, power: nat,
    shadow: Keyring, created: set<string>, commits: seq<J.OpId>)

  /** A journal write may be stored although it reports failure, but not the other way round. */
  datatype JournalWrite = JournalWrite(stored: bool, reported: bool)

  /** What an account holds after a write, whether the write reported success, and whether the account reads back. */
  datatype KeyWrite = KeyWrite(after: Option<Pool>, reported: bool, readable: bool)

  datatype KeyDelete = KeyDelete(removed: bool, reported: bool)

  /** Everything that may go wrong in one call. A store that is not mentioned works. */
  datatype Faults = Faults(
    locked: bool, checkReadable: bool, configReadable: bool, journalReadable: bool, bad: set<string>,
    intent: JournalWrite, writes: map<string, KeyWrite>, deletes: map<string, KeyDelete>, configStored: bool,
    receipt: JournalWrite)

  function Spent(s: Stores): Stores
    requires s.power > 0
  {
    s.(power := s.power - 1)
  }

  function JournalWritten(s: Stores, j: J.Journal, w: JournalWrite): (Stores, bool) {
    if s.power == 0 then (s, w.reported)
    else if w.stored || w.reported then (Spent(s).(journal := j), w.reported)
    else (Spent(s), false)
  }

  function Put(ring: Keyring, account: string, after: Option<Pool>): Keyring {
    if after.Some? then ring[account := after.value] else ring - {account}
  }

  function WriteOf(f: Faults, x: Prepared): KeyWrite {
    if x.account in f.writes then f.writes[x.account] else KeyWrite(Some(x.pool), true, true)
  }

  /** Write and read back. */
  function KeyWritten(s: Stores, x: Prepared, f: Faults): (Stores, bool) {
    var w := WriteOf(f, x);
    var good := w.reported && w.readable && w.after == Some(x.pool);
    if s.power == 0 then (s, good)
    else (Spent(s).(ring := Put(s.ring, x.account, w.after), created := s.created + {x.account}), good)
  }

  function KeyDeleted(s: Stores, account: string, f: Faults): (Stores, bool) {
    var w := if account in f.deletes then f.deletes[account] else KeyDelete(true, true);
    if s.power == 0 then (s, w.reported)
    else if w.removed || w.reported then (Spent(s).(ring := s.ring - {account}), w.reported)
    else (Spent(s), false)
  }

  /** The commit point. A failed replacement leaves the old file. */
  function ConfigWritten(s: Stores, c: Config, op: J.OpId, stored: bool): Stores {
    if s.power == 0 then s
    else if stored then Spent(s).(config := Some(c), shadow := s.ring, commits := s.commits + [op])
    else Spent(s)
  }

  // ---------- the plan of a commit ----------

  /** `replay`: the receipt is returned, refused, or (false) there is none. */
  function Replay(m: Memory, j: J.Journal, op: J.OpId): Result<bool, Code> {
    if m.cfg.lastOp == Some(op) || (exists r | r in j.records :: r.op == op && r.committed) then Ok(true)
    else if J.Listed(j.records, op) then Err(Uncertain)
    else if J.Saturated(j.expired) then Err(HistoryFull)
    else if J.Expired(j.expired, op) then Err(Expired)
    else Ok(false)
  }

  datatype Plan = Plan(config: Config, prepared: seq<Prepared>, journal: J.Journal, cleanup: bool)

  function AccountsOf(prepared: seq<Prepared>): seq<string> {
    if prepared == [] then [] else [prepared[0].account] + AccountsOf(prepared[1..])
  }

  function ListedAccounts(records: seq<J.Record>): set<string> {
    set r, a | r in records && a in r.accounts :: a
  }

  /** Known references of the old configuration that the new one drops are registered for cleanup. */
  function WithRetired(accounts: seq<string>, ps: seq<Provider>, next: set<string>, listed: set<string>): seq<string>
    decreases |ps|
  {
    if ps == [] then accounts
    else
      var a := ProviderAccount(ps[0]);
      var retired := a.Some? && a.value !in next && A.ValidCleanup(a.value) && a.value !in listed
        && a.value !in accounts;
      WithRetired(if retired then accounts + [a.value] else accounts, ps[1..], next, listed)
  }

  function Cleans(current: Config, updated: Config, skipCleanup: bool): bool {
    !skipCleanup && current.retention != updated.retention
    && updated.retention.Some? && updated.retention.value in RETENTION_DAYS
  }

  function IntentRecord(
    m: Memory, updated: Config, prepared: seq<Prepared>, records: seq<J.Record>, op: J.OpId
  ): J.Record {
    J.Record(op, WithRetired(AccountsOf(prepared), m.cfg.providers, Refs(updated), ListedAccounts(records)), false,
      false,
             J.Version(m.boot, m.sequence + 1))
  }

  /** The draft with its providers prepared, before the journal is considered. */
  function Assembled(
    m: Memory, d: Draft, ring: Keyring, bad: set<string>, uuids: seq<string>
  ): Result<(Config, seq<Prepared>), Code>
    requires |d.config.providers| <= |uuids|
  {
    match Validated(d.config, d.edits)
    case Err(e) => Err(e)
    case Ok(_) =>
      match ProvidersFrom(m.cfg, d, ring, bad, uuids, 0)
      case Err(e) => Err(e)
      case Ok((ps, prepared)) =>
        var updated := Cleaned(d.config).(providers := ps);
        if Persistable(updated) then Ok((updated, prepared)) else Err(UnsafeStorage)
  }

  predicate EnoughIds(m: Memory, patch: Patch, uuids: seq<string>) {
    |uuids| >= if patch.Page? then |patch.config.providers| else |m.cfg.providers|
  }

  /** Everything a commit decides before it writes. */
  function Planned(
    m: Memory, j: J.Journal, ring: Keyring, patch: Patch, op: J.OpId, uuids: seq<string>, bad: set<string>
  ): Result<Plan, Code>
    requires EnoughIds(m, patch, uuids) && J.WellFormed(j)
  {
    match Drafted(m, patch)
    case Err(e) => Err(e)
    case Ok(d) =>
      match Assembled(m, d, ring, bad, uuids)
      case Err(e) => Err(e)
      case Ok((updated, prepared)) =>
        match J.Compacted(j)
        case None => Err(HistoryFull)
        case Some(j') =>
          if |j'.records| >= J.MAX_RECORDS then Err(QueueFull)
          else
            var record := IntentRecord(m, updated, prepared, j'.records, op);
            Ok(Plan(updated.(lastOp := Some(op)), prepared, j'.(records := j'.records + [record]),
                    Cleans(m.cfg, updated, d.skipCleanup)))
  }

  // ---------- the execution of a plan ----------

  function KeysWritten(s: Stores, prepared: seq<Prepared>, f: Faults): (Stores, bool)
    decreases |prepared|
  {
    if prepared == [] then (s, true)
    else
      var (s1, good) := KeyWritten(s, prepared[0], f);
      if good then KeysWritten(s1, prepared[1..], f) else (s1, false)
  }

  /** `discard_candidates`. */
  function Discarded(s: Stores, prepared: seq<Prepared>, f: Faults): Stores
    decreases |prepared|
  {
    if prepared == [] then s else Discarded(KeyDeleted(s, prepared[0].account, f).0, prepared[1..], f)
  }

  function BumpedRoles(versions: map<string, nat>, current: Config, updated: Config): map<string, nat> {
    map role | role in versions.Keys + DELEGABLE_ROLES &&
               (role in versions || Override(current, role) != Override(updated, role)) ::
      (if role in versions then versions[role] else 0)
      + if role in DELEGABLE_ROLES && Override(current, role) != Override(updated, role) then 1 else 0
  }

  /** What the instance publishes after the commit point. */
  function Published(m: Memory, updated: Config): Memory {
    m.(sequence := m.sequence + 1,
       pageVersion := m.pageVersion + if PageView(updated) != PageView(m.cfg) then 1 else 0,
       roleVersions := BumpedRoles(m.roleVersions, m.cfg, updated),
       cfg := updated)
  }

  function Receipt(j: J.Journal, cleanup: bool): J.Journal
    requires j.records != []
  {
    var last := j.records[|j.records| - 1];
    j.(records := j.records[..|j.records| - 1] + [last.(committed := true, complete := last.complete || !cleanup)])
  }

  /** From the intent on. */
  function Executed(
    m: Memory, s: Stores, plan: Plan, op: J.OpId, coordinated: bool, f: Faults
  ): (Memory, Stores, Result<bool, Code>)
    requires plan.journal.records != []
  {
    var (s1, intended) := JournalWritten(s, plan.journal, f.intent);
    if !intended then (m, s1, Err(JournalWriteFailed))
    else
      var (s2, stored) := KeysWritten(s1, plan.prepared, f);
      if !stored then (m, Discarded(s2, plan.prepared, f), Err(KeyringFailed))
      else
        var s3 := ConfigWritten(s2, plan.config, op, f.configStored);
        if !f.configStored then (m, Discarded(s3, plan.prepared, f), Err(ConfigWriteFailed))
        else
          var m' := Published(if coordinated then m.(seen := Some(plan.config)) else m, plan.config);
          (m', JournalWritten(s3, Receipt(plan.journal, plan.cleanup), f.receipt).0, Ok(false))
  }

  /** The checks before a commit or a recovery touches the journal. */
  function Guarded(m: Memory, s: Stores, coordinated: bool, checked: bool, f: Faults): (Memory, Result<(), Code>) {
    if coordinated && !f.locked then (m, Err(Busy))
    else if checked && coordinated && !f.checkReadable then (m, Err(Unreadable))
    else if checked && coordinated && m.seen != s.config then (m, Err(ChangedExternally))
    else if m.blocked then (m, Err(Unreadable))
    else if !f.configReadable then (m.(blocked := true), Err(Unreadable))
    else if !f.journalReadable then (m, Err(JournalUnreadable))
    else (m, Ok(()))
  }

  /** `commit_with`; `Ok(true)` is a replayed receipt. */
  function Committed(
    m: Memory, s: Stores, patch: Patch, op: Option<J.OpId>, uuids: seq<string>, coordinated: bool, f: Faults
  )
    : (Memory, Stores, Result<bool, Code>)
    requires EnoughIds(m, patch, uuids) && J.WellFormed(s.journal)
  {
    if op.None? then (m, s, Err(InvalidOperation))
    else
      var (m1, guard) := Guarded(m, s, coordinated, true, f);
      match guard
      case Err(e) => (m1, s, Err(e))
      case Ok(_) =>
        match Replay(m, s.journal, op.value)
        case Err(e) => (m, s, Err(e))
        case Ok(true) => (m, s, Ok(true))
        case Ok(false) =>
          match Planned(m, s.journal, s.ring, patch, op.value, uuids, f.bad)
          case Err(e) => (m, s, Err(e))
          case Ok(plan) => Executed(m, s, plan, op.value, coordinated, f)
  }

  // ---------- recovery ----------

  function AccountsRecovered(
    s: Stores, accounts: seq<string>, referenced: set<string>, f: Faults
  ): (Stores, seq<string>)
    decreases |accounts|
  {
    if accounts == [] then (s, [])
    else
      var a := accounts[0];
      if a in referenced || !A.ValidCleanup(a) then
        var (s', keep) := AccountsRecovered(s, accounts[1..], referenced, f);
        (s', [a] + keep)
      else
        var (s1, deleted) := KeyDeleted(s, a, f);
        var (s', keep) := AccountsRecovered(s1, accounts[1..], referenced, f);
        (s', (if deleted then [] else [a]) + keep)
  }

  function RecordsRecovered(
    s: Stores, records: seq<J.Record>, lastOp: Option<J.OpId>, referenced: set<string>, f: Faults
  )
    : (Stores, seq<J.Record>)
    decreases |records|
  {
    if records == [] then (s, [])
    else
      var r := records[0];
      var (s1, keep) := AccountsRecovered(s, r.accounts, referenced, f);
      var (s', rest) := RecordsRecovered(s1, records[1..], lastOp, referenced, f);
      (s', [r.(committed := r.committed || lastOp == Some(r.op), accounts := keep)] + rest)
  }

  function Current(s: Stores): Config {
    s.config.GetOr(DEFAULT)
  }

  /** `recover`. */
  function Recovered(m: Memory, s: Stores, coordinated: bool, f: Faults): (Memory, Stores, Result<(), Code>)
    requires J.WellFormed(s.journal)
  {
    var (m1, guard) := Guarded(m, s, coordinated, false, f);
    match guard
    case Err(e) => (m1, s, Err(e))
    case Ok(_) =>
      var (s1, records) := RecordsRecovered(s, s.journal.records, Current(s).lastOp, Refs(Current(s)), f);
      match J.Compacted(s.journal.(records := records))
      case None => (m, s1, Err(HistoryFull))
      case Some(j) =>
        var (s2, stored) := JournalWritten(s1, j, f.receipt);
        (m, s2, if stored then Ok(()) else Err(JournalWriteFailed))
  }

  function Completed(records: seq<J.Record>, op: J.OpId): seq<J.Record> {
    if records == [] then []
    else if records[0].op == op then [records[0].(complete := true)] + records[1..]
    else [records[0]] + Completed(records[1..], op)
  }

  /** `mark_post_processed`. */
  function Marked(s: Stores, op: J.OpId, coordinated: bool, f: Faults): (Stores, Result<(), Code>) {
    if coordinated && !f.locked then (s, Err(Busy))
    else if !f.journalReadable then (s, Err(JournalUnreadable))
    else
      var (s', stored) := JournalWritten(s, s.journal.(records := Completed(s.journal.records, op)), f.receipt);
      (s', if stored then Ok(()) else Err(JournalWriteFailed))
  }
}
