/** What every store action of a commit or a recovery keeps, whichever of them fails and wherever the process dies. */
module ConfigStores {
  import opened Wrappers
  import opened Credentials
  import opened ConfigModel
  import opened ConfigCommit
  import A = Accounts
  import J = Journals

  // ---------- the invariant of the stores ----------

  /** An account holds the same pool, or neither has it. */
  predicate Agree(a: Keyring, b: Keyring, account: string) {
    (account in a <==> account in b) && (account in a ==> a[account] == b[account])
  }

  /** Every account the configuration on disk refers to holds what it held when that configuration was written. */
  ghost predicate PoolsKept(s: Stores) {
    forall a | a in Refs(Current(s)) :: Agree(s.ring, s.shadow, a)
  }

  predicate IsListed(records: seq<J.Record>, account: string) {
    exists r | r in records :: account in r.accounts
  }

  /** Every account a commit wrote and that still exists is listed in the journal on disk, and may be cleaned up. */
  ghost predicate NoneOrphaned(s: Stores) {
    && (forall a | a in s.created :: A.ValidCleanup(a))
    && (forall a | a in s.created && a in s.ring :: IsListed(s.journal.records, a))
  }

  predicate DistinctOps(ops: seq<J.OpId>) {
    forall i, j | 0 <= i < j < |ops| :: ops[i] != ops[j]
  }

  /** No operation wrote the configuration twice, and each that did is remembered. */
  ghost predicate OncePerOperation(s: Stores) {
    DistinctOps(s.commits) && forall op | op in s.commits :: J.Remembered(s.journal, op)
  }

  ghost predicate JournalOk(j: J.Journal) {
    J.WellFormed(j) && |j.records| <= J.MAX_RECORDS && J.DistinctRecords(j.records)
  }

  ghost predicate StoresOk(s: Stores) {
    JournalOk(s.journal) && PoolsKept(s) && NoneOrphaned(s) && OncePerOperation(s)
  }

  // ---------- one action ----------

  /** A journal that may replace another: nothing is forgotten. */
  ghost predicate Replaces(s: Stores, j: J.Journal) {
    && JournalOk(j)
    && (forall op | J.Remembered(s.journal, op) :: J.Remembered(j, op))
    && (forall a | a in s.created && a in s.ring :: IsListed(j.records, a))
  }

  lemma {:induction false} JournalWriteKeeps(s: Stores, j: J.Journal, w: JournalWrite)
    requires StoresOk(s) && Replaces(s, j)
    ensures StoresOk(JournalWritten(s, j, w).0)
  {
    hide J.Remembered, IsListed, A.ValidCleanup, Refs;
  }

  lemma {:induction false} KeyWriteKeeps(s: Stores, x: Prepared, f: Faults)
    requires StoresOk(s) && x.account !in Refs(Current(s)) && A.ValidCleanup(x.account)
    requires s.power > 0 ==> IsListed(s.journal.records, x.account)
    ensures StoresOk(KeyWritten(s, x, f).0)
  {
    hide J.Remembered, IsListed, A.ValidCleanup, Refs;
  }

  lemma {:induction false} KeyDeleteKeeps(s: Stores, account: string, f: Faults)
    requires StoresOk(s) && account !in Refs(Current(s))
    ensures StoresOk(KeyDeleted(s, account, f).0)
  {
    hide J.Remembered, IsListed, A.ValidCleanup, Refs;
  }

  lemma {:induction false} ConfigWriteKeeps(s: Stores, c: Config, op: J.OpId, stored: bool)
    requires StoresOk(s) && op !in s.commits
    requires s.power > 0 ==> J.Remembered(s.journal, op)
    ensures StoresOk(ConfigWritten(s, c, op, stored))
  {
    hide J.Remembered, IsListed, A.ValidCleanup, Refs;
  }

  // ---------- the loops ----------

  /** Nothing but the keyring, its record and the power changes. */
  predicate OnlyKeys(s: Stores, s': Stores) {
    s'.config == s.config && s'.journal == s.journal && s'.shadow == s.shadow && s'.commits == s.commits
      && s'.power <= s.power
  }

  lemma {:induction false} KeysWrittenKeep(s: Stores, prepared: seq<Prepared>, f: Faults)
    requires StoresOk(s)
    requires forall x | x in prepared :: x.account !in Refs(Current(s)) && A.ValidCleanup(x.account)
    requires s.power > 0 ==> forall x | x in prepared :: IsListed(s.journal.records, x.account)
    ensures StoresOk(KeysWritten(s, prepared, f).0) && OnlyKeys(s, KeysWritten(s, prepared, f).0)
    ensures forall a | a in Refs(Current(s)) :: Agree(s.ring, KeysWritten(s, prepared, f).0.ring, a)
    decreases |prepared|
  {
    if prepared != [] {
      assert prepared[0] in prepared;
      assert forall x | x in prepared[1..] :: x in prepared;
      KeyWriteKeeps(s, prepared[0], f);
      var s1 := KeyWritten(s, prepared[0], f).0;
      assert OnlyKeys(s, s1);
      hide StoresOk, IsListed, A.ValidCleanup, Refs, WriteOf;
      KeysWrittenKeep(s1, prepared[1..], f);
    }
  }

  lemma {:induction false} DiscardedKeep(s: Stores, prepared: seq<Prepared>, f: Faults)
    requires StoresOk(s) && forall x | x in prepared :: x.account !in Refs(Current(s))
    ensures StoresOk(Discarded(s, prepared, f)) && OnlyKeys(s, Discarded(s, prepared, f))
    ensures forall a | a in Refs(Current(s)) :: Agree(s.ring, Discarded(s, prepared, f).ring, a)
    decreases |prepared|
  {
    if prepared != [] {
      assert prepared[0] in prepared;
      assert forall x | x in prepared[1..] :: x in prepared;
      KeyDeleteKeeps(s, prepared[0].account, f);
      var s1 := KeyDeleted(s, prepared[0].account, f).0;
      assert OnlyKeys(s, s1);
      hide StoresOk, Refs;
      DiscardedKeep(s1, prepared[1..], f);
    }
  }

  predicate DistinctAccounts(prepared: seq<Prepared>) {
    forall i, j | 0 <= i < j < |prepared| :: prepared[i].account != prepared[j].account
  }

  /** If all writes were verified and the process is still alive, every pool is in its account. */
  lemma {:induction false} VerifiedPoolsAreStored(s: Stores, prepared: seq<Prepared>, f: Faults)
    requires DistinctAccounts(prepared) && KeysWritten(s, prepared, f).1 && KeysWritten(s, prepared, f).0.power > 0
    ensures var s' := KeysWritten(s, prepared, f).0;
      && s.power > 0
      && (forall x | x in prepared :: x.account in s'.ring && s'.ring[x.account] == x.pool)
      && (forall a | forall x | x in prepared :: x.account != a :: Agree(s.ring, s'.ring, a))
    decreases |prepared|
  {
    if prepared != [] {
      var first, rest := prepared[0], prepared[1..];
      var s1 := KeyWritten(s, first, f).0;
      assert prepared == [first] + rest && first in prepared;
      VerifiedPoolsAreStored(s1, rest, f);
      forall x | x in rest ensures x.account != first.account {
        var i :| 0 <= i < |rest| && rest[i] == x;
        assert prepared[i + 1] == x;
      }
      var s' := KeysWritten(s1, rest, f).0;
      assert first.account in s1.ring && s1.ring[first.account] == first.pool;
      assert Agree(s1.ring, s'.ring, first.account);
      forall a | forall x | x in prepared :: x.account != a ensures Agree(s.ring, s'.ring, a) {
        assert forall x | x in rest :: x in prepared;
        assert Agree(s1.ring, s'.ring, a);
        assert Agree(s.ring, s1.ring, a);
      }
      hide DistinctAccounts, WriteOf;
    }
  }

  lemma {:induction false} AccountsRecoveredKeep(s: Stores, accounts: seq<string>, referenced: set<string>, f: Faults)
    requires StoresOk(s) && referenced == Refs(Current(s))
    ensures var s' := AccountsRecovered(s, accounts, referenced, f).0;
      && StoresOk(s') && OnlyKeys(s, s') && s'.created == s.created
      && (forall a | a in referenced :: Agree(s.ring, s'.ring, a))
    decreases |accounts|
  {
    if accounts != [] {
      var a, rest := accounts[0], accounts[1..];
      if a in referenced || !A.ValidCleanup(a) {
        hide StoresOk, Refs, A.ValidCleanup;
        AccountsRecoveredKeep(s, rest, referenced, f);
      } else {
        KeyDeleteKeeps(s, a, f);
        var s1 := KeyDeleted(s, a, f).0;
        assert Current(s1) == Current(s);
        hide StoresOk, Refs, A.ValidCleanup;
        AccountsRecoveredKeep(s1, rest, referenced, f);
      }
    }
  }

  /** Only an account whose deletion was confirmed leaves the list, unless the process dies. */
  lemma {:induction false} AccountsRecoveredList(s: Stores, accounts: seq<string>, referenced: set<string>, f: Faults)
    ensures var (s', keep) := AccountsRecovered(s, accounts, referenced, f);
      && s'.ring.Keys <= s.ring.Keys && s'.power <= s.power
      && (s'.power > 0 ==> forall a | a in accounts && a in s'.ring :: a in keep)
    decreases |accounts|
  {
    if accounts != [] {
      assert accounts == [accounts[0]] + accounts[1..];
      AccountsRecoveredList(s, accounts[1..], referenced, f);
      AccountsRecoveredList(KeyDeleted(s, accounts[0], f).0, accounts[1..], referenced, f);
      hide A.ValidCleanup;
    }
  }

  /** The records keep their ids and order, and lose accounts only. */
  predicate SameOps(records: seq<J.Record>, records': seq<J.Record>) {
    && |records| == |records'|
    && forall i | 0 <= i < |records| :: records'[i].op == records[i].op
  }

  lemma {:induction false} ListedCons(r: J.Record, rest: seq<J.Record>, a: string)
    ensures IsListed([r] + rest, a) <==> a in r.accounts || IsListed(rest, a)
  {
    assert ([r] + rest)[0] == r;
    if IsListed(rest, a) {
      var x :| x in rest && a in x.accounts;
      assert x in [r] + rest;
    }
  }

  lemma {:induction false} RecordsRecoveredKeep(
    s: Stores, records: seq<J.Record>, lastOp: Option<J.OpId>, referenced: set<string>, f: Faults
  )
    requires StoresOk(s) && referenced == Refs(Current(s))
    ensures var (s', records') := RecordsRecovered(s, records, lastOp, referenced, f);
      && StoresOk(s') && OnlyKeys(s, s') && s'.created == s.created && s'.ring.Keys <= s.ring.Keys
      && SameOps(records, records')
      && (forall a | a in referenced :: Agree(s.ring, s'.ring, a))
    decreases |records|
  {
    if records != [] {
      AccountsRecoveredKeep(s, records[0].accounts, referenced, f);
      AccountsRecoveredList(s, records[0].accounts, referenced, f);
      var s1 := AccountsRecovered(s, records[0].accounts, referenced, f).0;
      hide StoresOk, Refs, AccountsRecovered;
      RecordsRecoveredKeep(s1, records[1..], lastOp, referenced, f);
    }
  }

  /** An account that is still there stays listed, unless the process dies. */
  lemma {:induction false} RecordsRecoveredList(
    s: Stores, records: seq<J.Record>, lastOp: Option<J.OpId>, referenced: set<string>, f: Faults, a: string
  )
    requires StoresOk(s) && referenced == Refs(Current(s)) && IsListed(records, a)
    ensures var (s', records') := RecordsRecovered(s, records, lastOp, referenced, f);
      s'.power > 0 && a in s'.ring ==> IsListed(records', a)
    decreases |records|
  {
    var r, rest := records[0], records[1..];
    assert records == [r] + rest;
    ListedCons(r, rest, a);
    AccountsRecoveredKeep(s, r.accounts, referenced, f);
    AccountsRecoveredList(s, r.accounts, referenced, f);
    var (s1, keep) := AccountsRecovered(s, r.accounts, referenced, f);
    assert referenced == Refs(Current(s1));
    RecordsRecoveredKeep(s1, rest, lastOp, referenced, f);
    var (s2, rest') := RecordsRecovered(s1, rest, lastOp, referenced, f);
    ListedCons(r.(committed := r.committed || lastOp == Some(r.op), accounts := keep), rest', a);
    hide StoresOk, Refs, AccountsRecovered, IsListed;
    if a !in r.accounts {
      RecordsRecoveredList(s1, rest, lastOp, referenced, f, a);
    }
  }

  lemma {:induction false} ListedSameOps(records: seq<J.Record>, records': seq<J.Record>, op: J.OpId)
    requires SameOps(records, records') && J.Listed(records, op)
    ensures J.Listed(records', op)
  {
    var i :| 0 <= i < |records| && records[i].op == op;
    assert records'[i] in records';
  }

  /** What a compaction may replace. */
  lemma {:induction false} CompactedReplaces(s: Stores, j: J.Journal)
    requires JournalOk(j) && J.Compacted(j).Some?
    requires forall op | J.Remembered(s.journal, op) :: J.Remembered(j, op)
    requires forall a | a in s.created && a in s.ring :: IsListed(j.records, a)
    ensures Replaces(s, J.Compacted(j).value)
  {
    var j' := J.Compacted(j).value;
    J.CompactionForgetsNothing(j);
    J.CompactionShrinks(j.records, 0);
    J.KeptDistinct(j.records, 0);
    hide J.Remembered, J.Expired, J.Saturated, J.KeptFrom, J.Tombstones;
    forall a | a in s.created && a in s.ring ensures IsListed(j'.records, a) {
      var r :| r in j.records && a in r.accounts;
      assert r in j'.records;
    }
  }

  // ---------- recovery ----------

  lemma {:induction false} RecoveredReplaces(s: Stores, f: Faults)
    requires StoresOk(s)
    ensures var (s1, records) := RecordsRecovered(s, s.journal.records, Current(s).lastOp, Refs(Current(s)), f);
      var j := s.journal.(records := records);
      JournalOk(j) && (s1.power > 0 && J.Compacted(j).Some? ==> Replaces(s1, J.Compacted(j).value))
  {
    var lastOp, referenced := Current(s).lastOp, Refs(Current(s));
    RecordsRecoveredKeep(s, s.journal.records, lastOp, referenced, f);
    var (s1, records) := RecordsRecovered(s, s.journal.records, lastOp, referenced, f);
    var j := s.journal.(records := records);
    if s1.power > 0 && J.Compacted(j).Some? {
      forall op | J.Remembered(s.journal, op) ensures J.Remembered(j, op) {
        if J.Listed(s.journal.records, op) {
          ListedSameOps(s.journal.records, records, op);
        }
      }
      forall a | a in s1.created && a in s1.ring ensures IsListed(records, a) {
        assert IsListed(s.journal.records, a);
        RecordsRecoveredList(s, s.journal.records, lastOp, referenced, f, a);
      }
      hide StoresOk, Refs, RecordsRecovered, J.Remembered, J.Compacted;
      CompactedReplaces(s1, j);
    }
  }

  /** However a recovery goes, the pools in use, the listing of accounts and the memory of operations survive it. */
  lemma {:induction false} RecoveryKeeps(m: Memory, s: Stores, coordinated: bool, f: Faults)
    requires StoresOk(s)
    ensures var (m', s', _) := Recovered(m, s, coordinated, f);
      && StoresOk(s') && m' == m.(blocked := m'.blocked)
      && s'.config == s.config && s'.commits == s.commits && s'.shadow == s.shadow
      && (forall a | a in Refs(Current(s)) :: Agree(s.ring, s'.ring, a))
  {
    RecoveredReplaces(s, f);
    var lastOp, referenced := Current(s).lastOp, Refs(Current(s));
    RecordsRecoveredKeep(s, s.journal.records, lastOp, referenced, f);
    var (s1, records) := RecordsRecovered(s, s.journal.records, lastOp, referenced, f);
    var j := s.journal.(records := records);
    if J.Compacted(j).Some? && s1.power > 0 {
      JournalWriteKeeps(s1, J.Compacted(j).value, f.receipt);
    }
    hide StoresOk, Refs, RecordsRecovered, J.Compacted;
  }

  /** All deletions that are attempted succeed. */
  predicate DeletesWork(f: Faults) {
    forall a | a in f.deletes :: f.deletes[a].reported
  }

  lemma {:induction false} AccountsCollected(s: Stores, accounts: seq<string>, referenced: set<string>, f: Faults)
    requires DeletesWork(f)
    ensures var (s', keep) := AccountsRecovered(s, accounts, referenced, f);
      && s'.ring.Keys <= s.ring.Keys && s'.power <= s.power
      && (s'.power > 0 ==>
           && (forall a | a in accounts && a !in referenced && A.ValidCleanup(a) :: a !in s'.ring)
           && (forall a | a in keep :: a in referenced || !A.ValidCleanup(a)))
    decreases |accounts|
  {
    if accounts != [] {
      assert accounts == [accounts[0]] + accounts[1..];
      AccountsCollected(s, accounts[1..], referenced, f);
      AccountsCollected(KeyDeleted(s, accounts[0], f).0, accounts[1..], referenced, f);
      hide A.ValidCleanup;
    }
  }

  lemma {:induction false} RecordsCollected(
    s: Stores, records: seq<J.Record>, lastOp: Option<J.OpId>, referenced: set<string>, f: Faults, a: string
  )
    requires DeletesWork(f) && a !in referenced && A.ValidCleanup(a)
    ensures var (s', records') := RecordsRecovered(s, records, lastOp, referenced, f);
      && s'.ring.Keys <= s.ring.Keys && s'.power <= s.power
      && (s'.power > 0 ==> !IsListed(records', a) && (IsListed(records, a) ==> a !in s'.ring))
    decreases |records|
  {
    if records != [] {
      var r, rest := records[0], records[1..];
      assert records == [r] + rest;
      ListedCons(r, rest, a);
      AccountsCollected(s, r.accounts, referenced, f);
      var (s1, keep) := AccountsRecovered(s, r.accounts, referenced, f);
      RecordsCollected(s1, rest, lastOp, referenced, f, a);
      var (s2, rest') := RecordsRecovered(s1, rest, lastOp, referenced, f);
      ListedCons(r.(committed := r.committed || lastOp == Some(r.op), accounts := keep), rest', a);
      hide AccountsRecovered, IsListed, A.ValidCleanup, DeletesWork;
    }
  }

  /**
   * A recovery whose deletions work leaves no registered account that the configuration does not use: it is gone
   * from the keyring and from the journal. In particular every generation a commit ever created and that still
   * exists is in use.
   */
  lemma {:induction false} RecoveryCollects(m: Memory, s: Stores, coordinated: bool, f: Faults)
    requires StoresOk(s) && DeletesWork(f)
    requires var (_, s', r) := Recovered(m, s, coordinated, f); r == Ok(()) && s'.power > 0
    ensures var s' := Recovered(m, s, coordinated, f).1;
      && (forall a | IsListed(s.journal.records, a) && A.ValidCleanup(a) && a !in Refs(Current(s)) ::
           a !in s'.ring && !IsListed(s'.journal.records, a))
      && (forall a | a in s'.created && a in s'.ring :: a in Refs(Current(s)))
  {
    RecoveryKeeps(m, s, coordinated, f);
    var lastOp, referenced := Current(s).lastOp, Refs(Current(s));
    var (s1, records) := RecordsRecovered(s, s.journal.records, lastOp, referenced, f);
    var j := s.journal.(records := records);
    RecordsRecoveredKeep(s, s.journal.records, lastOp, referenced, f);
    RecoveredReplaces(s, f);
    var s' := Recovered(m, s, coordinated, f).1;
    J.CompactionForgetsNothing(j);
    assert s'.ring == s1.ring && s'.created == s.created && s'.journal == J.Compacted(j).value;
    forall a | IsListed(s.journal.records, a) && A.ValidCleanup(a) && a !in referenced
      ensures a !in s'.ring && !IsListed(s'.journal.records, a)
    {
      RecordsCollected(s, s.journal.records, lastOp, referenced, f, a);
    }
    assert forall a | a in s'.created && a in s'.ring :: A.ValidCleanup(a) && IsListed(s.journal.records, a);
  }
}
