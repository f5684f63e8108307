/** Exactly when the calls of the trust store succeed, and what they leave (src-tauri/src/core/trust.rs). */
module TrustOutcomes {
  import opened Wrappers
  import opened Trust

  // ---------- texts and records ----------

  /** 64 hexadecimal digits of either case. */
  predicate Digest(d: string) {
    |d| == 64 && forall i | 0 <= i < 64 :: d[i] in "0123456789abcdefABCDEF"
  }

  /** The same digest in small letters. */
  predicate SmallOf(r: string, d: string) {
    |r| == |d| && forall i | 0 <= i < |d| ::
      r[i] in "0123456789abcdef" && (r[i] == d[i] || (d[i] in "ABCDEF" && r[i] as int == d[i] as int + 32))
  }

  lemma {:induction false} HexLetters(c: char)
    ensures Hex(c) <==> c in "0123456789abcdefABCDEF"
    ensures LowerHex(c) <==> c in "0123456789abcdef"
    ensures Hex(c) ==> SmallOf([Lower(c)], [c])
  {
  }

  lemma {:induction false} LowerAllIsSmall(d: string)
    ensures Digest(d) <==> |d| == 64 && forall i | 0 <= i < 64 :: Hex(d[i])
    ensures Digest(d) ==> SmallOf(LowerAll(d), d)
  {
    forall i | 0 <= i < |d| ensures Hex(d[i]) <==> d[i] in "0123456789abcdefABCDEF" {
      HexLetters(d[i]);
    }
    if Digest(d) {
      forall i | 0 <= i < |d| ensures SmallOf([LowerAll(d)[i]], [d[i]]) {
        HexLetters(d[i]);
      }
      assert forall i | 0 <= i < |d| :: [LowerAll(d)[i]][0] == LowerAll(d)[i] && [d[i]][0] == d[i];
    }
    hide Hex, Lower;
  }

  /** A version is accepted if and only if it is a digest, bare or prefixed; what is bound is its small spelling. */
  lemma {:induction false} NormalizeIff(version: string)
    ensures NormalizeVersion(version).Some? <==>
      Digest(version) || (|version| == 71 && version[..7] == "sha256:" && Digest(version[7..]))
    ensures Digest(version) ==> SmallOf(NormalizeVersion(version).value, version)
    ensures |version| == 71 && version[..7] == "sha256:" && Digest(version[7..]) ==>
      SmallOf(NormalizeVersion(version).value, version[7..])
  {
    LowerAllIsSmall(Bare(version));
    assert Digest(version) ==> version[1] != 'h';
    assert "sha256:" <= version <==> |version| >= 7 && version[..7] == "sha256:";
    assert "sha256:" <= version ==> version[1] == 'h';
    hide Hex, Lower, LowerHex, SmallOf;
  }

  /** A read gives a record if and only if the account holds one of this format, for it, at a positive revision. */
  lemma {:induction false} ReadIff(b: Backend, account: string, r: TrustRecord)
    ensures ReadRecord(b, account) == Ok(Some(r)) <==>
      && account in b && b[account] == Decodes(r) && r.schema == 1 && r.key == account && r.revision > 0
      && r.operationId > 0 && |r.version| == 64 && forall i | 0 <= i < 64 :: r.version[i] in "0123456789abcdef"
    ensures ReadRecord(b, account) == Ok(None) <==> account !in b
  {
    forall c ensures LowerHex(c) <==> c in "0123456789abcdef" {
      HexLetters(c);
    }
    hide LowerHex;
  }

  /** Only a readable grant of this version at this revision is admitted. */
  lemma {:induction false} AdmitsIff(b: Backend, account: string, version: string, revision: nat)
    ensures Admits(b, account, version, revision) <==>
      exists id :: ReadRecord(b, account) == Ok(Some(TrustRecord(1, account, version, Grant, revision, id)))
  {
    match ReadRecord(b, account)
    case Ok(Some(r)) => assert ValidRecord(r, account) && r == r.(operationId := r.operationId);
    case _ =>
  }

  // ---------- compare-exchange ----------

  /** The request is well formed and gets as far as a readable account. */
  predicate Reaches(b: Backend, q: Request, f: Faults) {
    && NormalizeVersion(q.version).Some? && q.operationId != 0 && f.refused.None? && !f.readFails
    && ReadRecord(b, q.account).Ok?
  }

  /** The account stands where the caller believes, was not put there by this very request, and can go on. */
  predicate Expected(b: Backend, q: Request)
    requires ReadRecord(b, q.account).Ok?
  {
    match ReadRecord(b, q.account).value
    case None => q.expected.None?
    case Some(r) => q.expected == Some(r.revision) && r.operationId != q.operationId && r.revision < MAX_REVISION
  }

  /** The account stands where this very request has put it before. */
  predicate Answered(b: Backend, q: Request)
    requires NormalizeVersion(q.version).Some? && ReadRecord(b, q.account).Ok?
  {
    match ReadRecord(b, q.account).value
    case None => false
    case Some(r) =>
      && r.operationId == q.operationId && r.version == NormalizeVersion(q.version).value && r.decision == q.decision
      && r.revision == q.expected.GetOr(0) + 1 && q.expected.GetOr(0) < MAX_REVISION
  }

  lemma {:induction false} WriteChanges(b: Backend, account: string, next: TrustRecord)
    requires ReadRecord(b, account).Ok?
    requires ReadRecord(b, account).value.Some? ==> ReadRecord(b, account).value.value.operationId != next.operationId
    ensures b[account := Decodes(next)] != b
  {
    assert b[account := Decodes(next)][account] == Decodes(next);
  }

  /**
   * A call changes the authority if and only if the request is well formed, the account is readable and stands at the
   * expected revision, no fault stops it before the write, and the backend stores.
   */
  lemma {:induction false} AppliesIff(b: Backend, q: Request, f: Faults)
    ensures Applies(b, q, f) <==> Reaches(b, q, f) && Expected(b, q) && f.stop.None? && f.stores
  {
    hide NormalizeVersion, ValidVersion;
    if Reaches(b, q, f) && Expected(b, q) {
      var version := NormalizeVersion(q.version).value;
      WriteChanges(b, q.account, Requested(q, version));
      hide ReadRecord;
    }
  }

  /** It answers `Ok` if and only if it has written and read back, or the account stands where it would put it. */
  lemma {:induction false} OkIff(b: Backend, q: Request, f: Faults)
    ensures CompareExchanged(b, q, f).1.Ok? <==>
      && Reaches(b, q, f) && !f.abandoned
      && (Answered(b, q) || (Expected(b, q) && f.stop.None? && f.stores && !f.readbackFails))
  {
    WrittenIsReadable(q);
    hide NormalizeVersion, ValidVersion;
  }

  /** Without faults, a decision at the current revision is stored, and is all that is admitted afterwards. */
  lemma {:induction false} HealthyDecisionLands(b: Backend, q: Request)
    requires NormalizeVersion(q.version).Some? && q.operationId != 0
    requires ReadRecord(b, q.account).Ok? && Expected(b, q)
    ensures var (b', r) := CompareExchanged(b, q, HEALTHY);
      && Applies(b, q, HEALTHY) && r.Ok?
      && (q.decision == Revoke ==> forall v, n :: !Admits(b', q.account, v, n))
      && (q.decision == Grant ==>
           forall v, n :: Admits(b', q.account, v, n) <==>
             v == NormalizeVersion(q.version).value && n == q.expected.GetOr(0) + 1)
      && (forall a, v, n | a != q.account :: Admits(b', a, v, n) <==> Admits(b, a, v, n))
  {
    AppliesIff(b, q, HEALTHY);
    OkIff(b, q, HEALTHY);
    OkMeansStored(b, q, HEALTHY);
    ExchangeEffect(b, q, HEALTHY);
    hide CompareExchanged, NormalizeVersion, ValidVersion, Applies;
  }

  // ---------- batches ----------

  /** Nothing goes wrong around one account. */
  predicate Works(f: BatchFault) {
    f.stopBeforeRead.None? && !f.readFails && f.stopBeforeWrite.None? && f.stores && !f.readbackFails && f.freshId != 0
  }

  /** The account can be passed over or revoked. */
  predicate Revocable(b: Backend, account: string) {
    match ReadRecord(b, account)
    case Err(_) => false
    case Ok(None) => true
    case Ok(Some(r)) => r.decision == Grant ==> r.revision < MAX_REVISION
  }

  lemma {:induction false} RevokeOneWorks(b: Backend, account: string, f: BatchFault)
    requires Works(f)
    ensures RevokeOne(b, account, f).1.Ok? <==> Revocable(b, account)
    ensures forall a | a != account ::
      ReadRecord(RevokeOne(b, account, f).0, a) == ReadRecord(b, a) &&
      (Revocable(RevokeOne(b, account, f).0, a) <==> Revocable(b, a))
  {
    if Granted(b, account) {
      var r := ReadRecord(b, account).value.value;
      assert ValidRecord(RevokedRecord(r, f.freshId), account);
    }
    hide ValidRecord;
  }

  /** Without faults, a batch succeeds if and only if it meets no account that is unreadable or cannot be revoked. */
  lemma {:induction false} HealthyBatchIff(b: Backend, accounts: seq<string>, faults: seq<BatchFault>)
    requires |accounts| == |faults| && forall i | 0 <= i < |faults| :: Works(faults[i])
    requires forall i, j | 0 <= i < j < |accounts| :: accounts[i] != accounts[j]
    ensures RevokeAll(b, accounts, faults).1.Ok? <==> forall a | a in accounts :: Revocable(b, a)
    decreases |accounts|
  {
    if accounts != [] {
      var b' := RevokeOne(b, accounts[0], faults[0]).0;
      RevokeOneWorks(b, accounts[0], faults[0]);
      HealthyBatchIff(b', accounts[1..], faults[1..]);
      assert accounts == [accounts[0]] + accounts[1..];
      hide RevokeOne, Revocable, ReadRecord;
      assert accounts[0] !in accounts[1..] && accounts[0] in accounts;
    }
  }

  /** What a batch makes of one record: nothing, or the same version, revoked, one revision up. */
  predicate KeptOrRevoked(before: Option<TrustRecord>, after: Option<TrustRecord>) {
    if before.Some? && before.value.decision == Grant then
      after.Some? && after.value == before.value.(
        decision := Revoke, revision := before.value.revision + 1, operationId := after.value.operationId)
    else after == before
  }

  lemma {:induction false} RevokeOneKeepsVersion(b: Backend, account: string, f: BatchFault)
    requires f.freshId != 0 && RevokeOne(b, account, f).1.Ok?
    ensures var b' := RevokeOne(b, account, f).0;
      && ReadRecord(b, account).Ok? && ReadRecord(b', account).Ok?
      && KeptOrRevoked(ReadRecord(b, account).value, ReadRecord(b', account).value)
      && forall a | a != account :: ReadRecord(b', a) == ReadRecord(b, a)
  {
    hide ValidRecord;
  }

  /** After `Ok`, each granted account of the batch is revoked one revision up, and every other record is as it was. */
  lemma {:induction false} BatchRevokesExactly(b: Backend, accounts: seq<string>, faults: seq<BatchFault>, a: string)
    requires |accounts| == |faults| && RealIds(faults) && RevokeAll(b, accounts, faults).1.Ok?
    requires forall i, j | 0 <= i < j < |accounts| :: accounts[i] != accounts[j]
    ensures var b' := RevokeAll(b, accounts, faults).0;
      if a in accounts then
        && ReadRecord(b, a).Ok? && ReadRecord(b', a).Ok?
        && KeptOrRevoked(ReadRecord(b, a).value, ReadRecord(b', a).value)
      else ReadRecord(b', a) == ReadRecord(b, a)
    decreases |accounts|
  {
    if accounts != [] {
      var b' := RevokeOne(b, accounts[0], faults[0]).0;
      RevokeOneKeepsVersion(b, accounts[0], faults[0]);
      BatchRevokesExactly(b', accounts[1..], faults[1..], a);
      assert accounts == [accounts[0]] + accounts[1..];
      hide RevokeOne, KeptOrRevoked, ReadRecord;
      assert accounts[0] !in accounts[1..];
    }
  }

  /** Each revocation of a batch carries the id generated for its round, which answers no earlier request. */
  lemma {:induction false} BatchUsesFreshIds(b: Backend, accounts: seq<string>, faults: seq<BatchFault>, i: nat)
    requires |accounts| == |faults| && RealIds(faults) && RevokeAll(b, accounts, faults).1.Ok?
    requires forall i, j | 0 <= i < j < |accounts| :: accounts[i] != accounts[j]
    requires i < |accounts| && Granted(b, accounts[i])
    ensures ReadRecord(RevokeAll(b, accounts, faults).0, accounts[i]).Ok?
    ensures var r := ReadRecord(RevokeAll(b, accounts, faults).0, accounts[i]).value;
      r.Some? && r.value.operationId == faults[i].freshId
    decreases |accounts|
  {
    var b' := RevokeOne(b, accounts[0], faults[0]).0;
    RevokeOneKeepsVersion(b, accounts[0], faults[0]);
    if i == 0 {
      RevokeOneFreshId(b, accounts[0], faults[0]);
      BatchIsConservative(b', accounts[1..], faults[1..]);
      assert accounts[0] !in accounts[1..];
    } else {
      assert accounts[i] == accounts[1..][i - 1] && accounts[0] != accounts[i];
      hide RevokeOne, KeptOrRevoked;
      BatchUsesFreshIds(b', accounts[1..], faults[1..], i - 1);
    }
    hide RevokeOne, KeptOrRevoked, ReadRecord;
  }

  lemma {:induction false} RevokeOneFreshId(b: Backend, account: string, f: BatchFault)
    requires f.freshId != 0 && RevokeOne(b, account, f).1.Ok? && Granted(b, account)
    ensures var r := ReadRecord(RevokeOne(b, account, f).0, account);
      r.Ok? && r.value.Some? && r.value.value.operationId == f.freshId
  {
    hide ValidRecord;
  }

  // ---------- runs ----------

  /** Calls one after the other: the last one meets what the others left. */
  lemma {:induction false} RunThen(b: Backend, calls: seq<Call>, last: Call)
    requires forall i | 0 <= i < |calls| :: Trust.WellFormed(calls[i])
    requires Trust.WellFormed(last)
    ensures forall i | 0 <= i < |calls + [last]| :: Trust.WellFormed((calls + [last])[i])
    ensures Run(b, calls + [last]) == Step(Run(b, calls), last)
    decreases |calls|
  {
    hide Step;
    if calls == [] {
      assert calls + [last] == [last];
    } else {
      assert (calls + [last])[1..] == calls[1..] + [last];
      RunThen(Step(b, calls[0]), calls[1..], last);
    }
  }
}
