/** Version-bound grants and revocations (src-tauri/src/core/trust.rs). */
module Trust {
  import opened Wrappers

  datatype Decision = Grant | Revoke

  /** `operationId` 0 stands for the nil UUID. */
  datatype TrustRecord = TrustRecord(
    schema: nat, key: string, version: string, decision: Decision, revision: nat, operationId: nat)

  datatype TrustError =
    Invalid | Unavailable | Corrupt | Conflict | Denied | Busy | Cancelled | OutcomeUnknown

  /** What the backend holds for an account: text that decodes to a record, or some other text. */
  datatype Entry = Decodes(record: TrustRecord) | Garbage

  type Backend = map<string, Entry>

  const MAX_REVISION: nat := 0xFFFF_FFFF_FFFF_FFFF

  // ---------- versions ----------

  predicate LowerHex(c: char) {
    '0' <= c <= '9' || 'a' <= c <= 'f'
  }

  predicate Hex(c: char) {
    LowerHex(c) || 'A' <= c <= 'F'
  }

  function Lower(c: char): char {
    if 'A' <= c <= 'Z' then c - 'A' + 'a' else c
  }

  function LowerAll(s: string): (r: string)
    ensures |r| == |s| && forall i | 0 <= i < |s| :: r[i] == Lower(s[i])
  {
    seq(|s|, i requires 0 <= i < |s| => Lower(s[i]))
  }

  predicate ValidVersion(version: string) {
    |version| == 64 && forall i | 0 <= i < 64 :: LowerHex(version[i])
  }

  function Bare(version: string): string {
    if "sha256:" <= version then version[7..] else version
  }

  /** `normalize_version`: one spelling for a bare digest and a prefixed one. */
  function NormalizeVersion(version: string): (r: Option<string>)
    ensures r.Some? ==> ValidVersion(r.value)
  {
    var digest := Bare(version);
    if |digest| != 64 || exists i | 0 <= i < 64 :: !Hex(digest[i]) then None
    else
      Some(LowerAll(digest))
  }

  /** A normalized version is its own normal form, with or without the prefix. */
  lemma {:induction false} NormalFormIsFixed(version: string)
    requires ValidVersion(version)
    ensures NormalizeVersion(version) == Some(version) == NormalizeVersion("sha256:" + version)
  {
    assert ("sha256:" + version)[7..] == version;
    assert LowerHex(version[1]);
    assert !("sha256:" <= version);
    assert forall i | 0 <= i < 64 :: Hex(version[i]);
    assert LowerAll(version) == version;
  }

  // ---------- reading ----------

  predicate ValidRecord(r: TrustRecord, account: string) {
    r.schema == 1 && r.key == account && r.revision != 0 && ValidVersion(r.version) && r.operationId != 0
  }

  /** `read` on a backend that answers. */
  function ReadRecord(b: Backend, account: string): Result<Option<TrustRecord>, TrustError> {
    if account !in b then Ok(None)
    else match b[account]
      case Garbage => Err(Corrupt)
      case Decodes(r) => if ValidRecord(r, account) then Ok(Some(r)) else Err(Corrupt)
  }

  function RevisionOf(r: Option<TrustRecord>): Option<nat> {
    if r.Some? then Some(r.value.revision) else None
  }

  /** The revision an account stands at; 0 while it has no readable record. */
  function Revision(b: Backend, account: string): nat {
    match ReadRecord(b, account)
    case Ok(Some(r)) => r.revision
    case _ => 0
  }

  // ---------- compare-exchange ----------

  datatype Request = Request(
    account: string, expected: Option<nat>, version: string, decision: Decision, operationId: nat)

  /**
   * What goes wrong around one call: `refused` before the locks are taken, `stop` just before the
   * write, `abandoned` when the caller gives up while the worker goes on.
   */
  datatype Faults = Faults(
    refused: Option<TrustError>, readFails: bool, stop: Option<TrustError>,
    stores: bool, reports: bool, readbackFails: bool, abandoned: bool)

  const HEALTHY := Faults(None, false, None, true, true, false, false)

  function Requested(q: Request, version: string): TrustRecord {
    TrustRecord(1, q.account, version, q.decision, q.expected.GetOr(0) + 1, q.operationId)
  }

  /** The part that runs under both locks. */
  function Exchange(b: Backend, q: Request, version: string, f: Faults): (Backend, Result<TrustRecord, TrustError>) {
    if f.readFails then (b, Err(Unavailable))
    else match ReadRecord(b, q.account)
      case Err(e) => (b, Err(e))
      case Ok(current) =>
        if current.Some? && current.value.operationId == q.operationId then
          var r := current.value;
          if r.version == version && r.decision == q.decision
             && q.expected.GetOr(0) < MAX_REVISION && q.expected.GetOr(0) + 1 == r.revision
          then (b, Ok(r)) else (b, Err(Conflict))
        else if RevisionOf(current) != q.expected then (b, Err(Conflict))
        else if q.expected.GetOr(0) >= MAX_REVISION then (b, Err(Corrupt))
        else if f.stop.Some? then (b, Err(f.stop.value))
        else
          var next := Requested(q, version);
          var b' := if f.stores then b[q.account := Decodes(next)] else b;
          if f.readbackFails then (b', Err(OutcomeUnknown))
          else match ReadRecord(b', q.account)
            case Ok(actual) =>
              if actual == Some(next) then (b', Ok(next))
              else if actual == current && !f.reports then (b', Err(Unavailable))
              else (b', Err(OutcomeUnknown))
            case Err(_) => (b', Err(OutcomeUnknown))
  }

  function CompareExchanged(b: Backend, q: Request, f: Faults): (Backend, Result<TrustRecord, TrustError>) {
    match NormalizeVersion(q.version)
    case None => (b, Err(Invalid))
    case Some(version) =>
      if q.operationId == 0 then (b, Err(Invalid))
      else if f.refused.Some? then (b, Err(f.refused.value))
      else
        var (b', result) := Exchange(b, q, version, f);
        (b', if f.abandoned then Err(OutcomeUnknown) else result)
  }

  /** The request changed the authority. */
  predicate Applies(b: Backend, q: Request, f: Faults) {
    CompareExchanged(b, q, f).0 != b
  }

  /** An answer of `Ok` is a promise about what is stored. */
  lemma {:induction false} OkMeansStored(b: Backend, q: Request, f: Faults)
    requires CompareExchanged(b, q, f).1.Ok?
    ensures var (b', result) := CompareExchanged(b, q, f);
      && NormalizeVersion(q.version).Some?
      && result.value == Requested(q, NormalizeVersion(q.version).value)
      && ReadRecord(b', q.account) == Ok(Some(result.value))
  {
    var version := NormalizeVersion(q.version).value;
    hide NormalizeVersion, ValidVersion;
    match ReadRecord(b, q.account)
    case Ok(current) =>
      if current.Some? && current.value.operationId == q.operationId {
        assert ValidRecord(current.value, q.account);
      }
    case Err(_) =>
  }

  /** Every other error than `OutcomeUnknown` promises that this call changed nothing. */
  lemma {:induction false} KnownErrorChangesNothing(b: Backend, q: Request, f: Faults)
    requires CompareExchanged(b, q, f).1.Err? && CompareExchanged(b, q, f).1.error != OutcomeUnknown
    ensures CompareExchanged(b, q, f).0 == b
  {
    WrittenIsReadable(q);
    hide NormalizeVersion, ValidVersion;
  }

  lemma {:induction false} WrittenIsReadable(q: Request)
    ensures var v := NormalizeVersion(q.version);
      v.Some? && q.operationId != 0 ==> ValidRecord(Requested(q, v.value), q.account)
  {
  }

  /** One call changes nothing, or puts the requested record one revision above the readable state it expected. */
  lemma {:induction false} ExchangeEffect(b: Backend, q: Request, f: Faults)
    requires Applies(b, q, f)
    ensures var b' := CompareExchanged(b, q, f).0;
      && NormalizeVersion(q.version).Some? && q.operationId != 0
      && b' == b[q.account := Decodes(Requested(q, NormalizeVersion(q.version).value))]
      && ReadRecord(b, q.account).Ok? && RevisionOf(ReadRecord(b, q.account).value) == q.expected
      && Revision(b', q.account) == Revision(b, q.account) + 1 == q.expected.GetOr(0) + 1
  {
    WrittenIsReadable(q);
    hide NormalizeVersion, ValidVersion;
  }

  /** A retry after any outcome of an applied request is answered with the stored record and writes nothing. */
  lemma {:induction false} RetryIsIdempotent(b: Backend, q: Request, f: Faults)
    requires Applies(b, q, f)
    ensures var b' := CompareExchanged(b, q, f).0;
      CompareExchanged(b', q, HEALTHY) == (b', Ok(Requested(q, NormalizeVersion(q.version).value)))
  {
    ExchangeEffect(b, q, f);
    WrittenIsReadable(q);
    assert q.expected.GetOr(0) < MAX_REVISION by {
      hide NormalizeVersion, ValidVersion;
    }
    hide NormalizeVersion, ValidVersion;
  }

  // ---------- batch revocation ----------

  datatype BatchFault = BatchFault(
    stopBeforeRead: Option<TrustError>, readFails: bool, stopBeforeWrite: Option<TrustError>,
    stores: bool, readbackFails: bool, freshId: nat)

  predicate Granted(b: Backend, account: string) {
    match ReadRecord(b, account)
    case Ok(Some(r)) => r.decision == Grant
    case _ => false
  }

  function RevokedRecord(r: TrustRecord, freshId: nat): TrustRecord {
    r.(revision := r.revision + 1, decision := Revoke, operationId := freshId)
  }

  /** One round of the loop. */
  function RevokeOne(b: Backend, account: string, f: BatchFault): (Backend, Result<(), TrustError>) {
    if f.stopBeforeRead.Some? then (b, Err(f.stopBeforeRead.value))
    else if f.readFails then (b, Err(Unavailable))
    else match ReadRecord(b, account)
      case Err(e) => (b, Err(e))
      case Ok(None) => (b, Ok(()))
      case Ok(Some(r)) =>
        if r.decision == Revoke then (b, Ok(()))
        else if r.revision >= MAX_REVISION then (b, Err(Corrupt))
        else if f.stopBeforeWrite.Some? then (b, Err(f.stopBeforeWrite.value))
        else
          var next := RevokedRecord(r, f.freshId);
          var b' := if f.stores then b[account := Decodes(next)] else b;
          if f.readbackFails || ReadRecord(b', account) != Ok(Some(next)) then (b', Err(OutcomeUnknown))
          else (b', Ok(()))
  }

  function RevokeAll(b: Backend, accounts: seq<string>, faults: seq<BatchFault>): (Backend, Result<(), TrustError>)
    requires |accounts| == |faults|
    decreases |accounts|
  {
    if accounts == [] then (b, Ok(()))
    else
      var (b', result) := RevokeOne(b, accounts[0], faults[0]);
      if result.Err? then (b', result) else RevokeAll(b', accounts[1..], faults[1..])
  }

  /** Generated operation ids are never nil. */
  predicate RealIds(faults: seq<BatchFault>) {
    forall i | 0 <= i < |faults| :: faults[i].freshId != 0
  }

  // ---------- admission ----------

  /** `admit` on a normalized version: exactly these (account, version, revision) triples get through. */
  predicate Admits(b: Backend, account: string, version: string, revision: nat) {
    match ReadRecord(b, account)
    case Ok(Some(r)) => r.decision == Grant && r.version == version && r.revision == revision
    case _ => false
  }

  ghost predicate NotWider(b': Backend, b: Backend) {
    forall account, version, revision :: Admits(b', account, version, revision) ==>
      Admits(b, account, version, revision)
  }

  lemma {:induction false} RevokeOneEffect(b: Backend, account: string, f: BatchFault)
    requires f.freshId != 0
    ensures var (b', result) := RevokeOne(b, account, f);
      && (b' == b || (Granted(b, account) && ReadRecord(b, account).value.value.revision < MAX_REVISION
           && b' == b[account := Decodes(RevokedRecord(ReadRecord(b, account).value.value, f.freshId))]))
      && (b' != b ==> !Granted(b', account) && Revision(b', account) == Revision(b, account) + 1)
      && (result.Ok? ==> !Granted(b', account) && ReadRecord(b', account).Ok?)
      && (result.Ok? && Granted(b, account) ==> b' != b)
      && (result.Err? && result.error != OutcomeUnknown ==> b' == b)
  {
    hide ValidVersion;
  }

  /** Whatever it returns, a batch only narrows what is admitted, and leaves other accounts alone. */
  lemma {:induction false} BatchIsConservative(b: Backend, accounts: seq<string>, faults: seq<BatchFault>)
    requires |accounts| == |faults| && RealIds(faults)
    ensures NotWider(RevokeAll(b, accounts, faults).0, b)
    ensures forall a | a !in accounts :: ReadRecord(RevokeAll(b, accounts, faults).0, a) == ReadRecord(b, a)
    decreases |accounts|
  {
    if accounts != [] {
      RevokeOneEffect(b, accounts[0], faults[0]);
      var (b', result) := RevokeOne(b, accounts[0], faults[0]);
      hide RevokeOne, ValidRecord;
      assert NotWider(b', b);
      if result.Ok? {
        BatchIsConservative(b', accounts[1..], faults[1..]);
      }
    }
  }

  /** After `Ok`, every account of the batch is readable and refused. */
  lemma {:induction false} BatchOkRevokes(b: Backend, accounts: seq<string>, faults: seq<BatchFault>)
    requires |accounts| == |faults| && RealIds(faults)
    requires forall i, j | 0 <= i < j < |accounts| :: accounts[i] != accounts[j]
    requires RevokeAll(b, accounts, faults).1.Ok?
    ensures var b' := RevokeAll(b, accounts, faults).0;
      forall a | a in accounts :: ReadRecord(b', a).Ok? && !Granted(b', a) && forall v, n :: !Admits(b', a, v, n)
    decreases |accounts|
  {
    if accounts != [] {
      RevokeOneEffect(b, accounts[0], faults[0]);
      var (b', result) := RevokeOne(b, accounts[0], faults[0]);
      hide RevokeOne, ValidRecord;
      BatchOkRevokes(b', accounts[1..], faults[1..]);
      BatchIsConservative(b', accounts[1..], faults[1..]);
      assert accounts[0] !in accounts[1..];
    }
  }

  lemma {:induction false} BatchNeverUndoes(b: Backend, accounts: seq<string>, faults: seq<BatchFault>, a: string)
    requires |accounts| == |faults| && RealIds(faults)
    ensures Revision(RevokeAll(b, accounts, faults).0, a) >= Revision(b, a)
    decreases |accounts|
  {
    if accounts != [] {
      RevokeOneEffect(b, accounts[0], faults[0]);
      var (b', result) := RevokeOne(b, accounts[0], faults[0]);
      hide RevokeOne, ValidRecord;
      if result.Ok? {
        BatchNeverUndoes(b', accounts[1..], faults[1..], a);
      }
    }
  }

  /** The batch fails with a known error although it has revoked something. */
  ghost predicate FailsPartially(b: Backend, accounts: seq<string>, faults: seq<BatchFault>)
    requires |accounts| == |faults|
  {
    var (b', r) := RevokeAll(b, accounts, faults);
    RealIds(faults) && r.Err? && r.error != OutcomeUnknown && b' != b
  }

  /** The first account that is not simply passed over holds a grant that can be revoked. */
  predicate FirstRevocable(b: Backend, accounts: seq<string>, i: nat)
    requires i < |accounts|
  {
    && Granted(b, accounts[i]) && Revision(b, accounts[i]) < MAX_REVISION
    && forall j | 0 <= j < i :: ReadRecord(b, accounts[j]).Ok? && !Granted(b, accounts[j])
  }

  predicate CanBePartial(b: Backend, accounts: seq<string>) {
    exists i | 0 <= i < |accounts| - 1 :: FirstRevocable(b, accounts, i)
  }

  lemma {:induction false} RevokeOnePasses(b: Backend, account: string, f: BatchFault)
    requires f.freshId != 0 && RevokeOne(b, account, f).1.Ok?
    ensures RevokeOne(b, account, f).0 == b ==> ReadRecord(b, account).Ok? && !Granted(b, account)
    ensures RevokeOne(b, account, f).0 != b ==> Granted(b, account) && Revision(b, account) < MAX_REVISION
  {
    hide ValidRecord;
  }

  lemma {:induction false} EmptyBatch(b: Backend, accounts: seq<string>, faults: seq<BatchFault>)
    requires |accounts| == |faults|
    ensures RevokeAll(b, accounts, faults).1.Err? ==> accounts != []
  {
  }

  lemma {:induction false} OnlyThenPartial(b: Backend, accounts: seq<string>, faults: seq<BatchFault>)
    requires |accounts| == |faults| && FailsPartially(b, accounts, faults)
    ensures CanBePartial(b, accounts)
    decreases |accounts|
  {
    var (b', result) := RevokeOne(b, accounts[0], faults[0]);
    RevokeOneEffect(b, accounts[0], faults[0]);
    assert result.Ok?;
    RevokeOnePasses(b, accounts[0], faults[0]);
    hide RevokeOne, ReadRecord, Granted, Revision;
    if b' == b {
      OnlyThenPartial(b, accounts[1..], faults[1..]);
      var i :| 0 <= i < |accounts[1..]| - 1 && FirstRevocable(b, accounts[1..], i);
      assert FirstRevocable(b, accounts, i + 1) by {
        forall j | 0 <= j < i + 1 ensures ReadRecord(b, accounts[j]).Ok? && !Granted(b, accounts[j]) {
          if j > 0 { assert accounts[j] == accounts[1..][j - 1]; }
        }
      }
    } else {
      EmptyBatch(b', accounts[1..], faults[1..]);
      assert FirstRevocable(b, accounts, 0);
    }
  }

  const WORKS := BatchFault(None, false, None, true, false, 8)

  /** Everything works until the process is told to stop before the account after `i`. */
  function StopAfter(n: nat, i: nat): (faults: seq<BatchFault>)
    requires i + 1 < n
    ensures |faults| == n && RealIds(faults)
  {
    seq(n, j => if j == i + 1 then WORKS.(stopBeforeRead := Some(Busy)) else WORKS)
  }

  lemma {:induction false} StopAfterRest(n: nat, i: nat)
    requires 0 < i && i + 1 < n
    ensures StopAfter(n, i)[1..] == StopAfter(n - 1, i - 1) && StopAfter(n, i)[0] == WORKS
  {
  }

  lemma {:induction false} WorksRevokes(b: Backend, account: string)
    requires Granted(b, account) && Revision(b, account) < MAX_REVISION
    ensures RevokeOne(b, account, WORKS).1.Ok? && RevokeOne(b, account, WORKS).0 != b
  {
  }

  lemma {:induction false} StopsPartially(b: Backend, accounts: seq<string>, i: nat)
    requires i < |accounts| - 1 && FirstRevocable(b, accounts, i)
    ensures FailsPartially(b, accounts, StopAfter(|accounts|, i))
    decreases i
  {
    var faults := StopAfter(|accounts|, i);
    if i == 0 {
      WorksRevokes(b, accounts[0]);
      var b' := RevokeOne(b, accounts[0], WORKS).0;
      assert faults[0] == WORKS && faults[1..][0] == WORKS.(stopBeforeRead := Some(Busy));
      assert RevokeAll(b', accounts[1..], faults[1..]) == (b', Err(Busy));
    } else {
      StopAfterRest(|accounts|, i);
      assert RevokeOne(b, accounts[0], WORKS) == (b, Ok(()));
      assert FirstRevocable(b, accounts[1..], i - 1) by {
        assert forall j | 0 <= j < i - 1 :: accounts[1..][j] == accounts[j + 1];
      }
      hide RevokeOne, FirstRevocable, StopAfter;
      StopsPartially(b, accounts[1..], i - 1);
    }
  }

  /**
   * What a caller can tell beforehand: a batch may fail with a known error and yet have revoked something if and only
   * if, passing over the readable accounts without a grant, it comes to a revocable grant that is not the last account.
   */
  lemma {:induction false} PartialFailureIff(b: Backend, accounts: seq<string>)
    ensures (exists faults: seq<BatchFault> | |faults| == |accounts| :: FailsPartially(b, accounts, faults))
      <==> CanBePartial(b, accounts)
  {
    if faults: seq<BatchFault> :| |faults| == |accounts| && FailsPartially(b, accounts, faults) {
      OnlyThenPartial(b, accounts, faults);
    }
    if CanBePartial(b, accounts) {
      var i :| 0 <= i < |accounts| - 1 && FirstRevocable(b, accounts, i);
      StopsPartially(b, accounts, i);
      assert |StopAfter(|accounts|, i)| == |accounts|;
    }
  }

  lemma {:induction false} BatchFailureExample()
    ensures var version := seq(64, i => 'a');
      var grant := (account: string) => Decodes(TrustRecord(1, account, version, Grant, 1, 7));
      var healthy := BatchFault(None, false, None, true, false, 8);
      var b := map["a" := grant("a"), "b" := grant("b")];
      var (b', result) := RevokeAll(b, ["a", "b"], [healthy, healthy.(stopBeforeRead := Some(Busy))]);
      result == Err(Busy) && Granted(b, "a") && !Granted(b', "a")
  {
  }

  // ---------- runs ----------

  datatype Call =
    | CompareExchange(q: Request, f: Faults)
    | RevokeBatch(accounts: seq<string>, faults: seq<BatchFault>)

  /** Batches come from a sorted set, with a generated id for each round. */
  predicate WellFormed(c: Call) {
    c.RevokeBatch? ==>
      && |c.accounts| == |c.faults| && RealIds(c.faults)
      && forall i, j | 0 <= i < j < |c.accounts| :: c.accounts[i] != c.accounts[j]
  }

  function Step(b: Backend, c: Call): Backend
    requires WellFormed(c)
  {
    match c
    case CompareExchange(q, f) => CompareExchanged(b, q, f).0
    case RevokeBatch(accounts, faults) => RevokeAll(b, accounts, faults).0
  }

  function Run(b: Backend, calls: seq<Call>): Backend
    requires forall i | 0 <= i < |calls| :: WellFormed(calls[i])
    decreases |calls|
  {
    if calls == [] then b else Run(Step(b, calls[0]), calls[1..])
  }

  /** What one call can do to one account: nothing, or one revision up from a readable state. */
  ghost predicate OneUp(b: Backend, b': Backend, a: string) {
    || ReadRecord(b', a) == ReadRecord(b, a)
    || (&& ReadRecord(b, a).Ok?
        && ReadRecord(b', a).Ok? && ReadRecord(b', a).value.Some?
        && Revision(b', a) == Revision(b, a) + 1)
  }

  lemma {:induction false} BatchOneUp(b: Backend, accounts: seq<string>, faults: seq<BatchFault>, a: string)
    requires WellFormed(RevokeBatch(accounts, faults))
    ensures OneUp(b, RevokeAll(b, accounts, faults).0, a)
    decreases |accounts|
  {
    if accounts != [] {
      RevokeOneEffect(b, accounts[0], faults[0]);
      var (b', result) := RevokeOne(b, accounts[0], faults[0]);
      if b' != b {
        assert ReadRecord(b', accounts[0]) ==
          Ok(Some(RevokedRecord(ReadRecord(b, accounts[0]).value.value, faults[0].freshId)));
      }
      hide RevokeOne, ValidRecord;
      if result.Ok? {
        if a == accounts[0] {
          BatchIsConservative(b', accounts[1..], faults[1..]);
        } else {
          BatchOneUp(b', accounts[1..], faults[1..], a);
        }
      }
    }
  }

  /** Revisions rise by exactly one per change; records never vanish; what is corrupt stays as it is. */
  lemma {:induction false} StepOneUp(b: Backend, c: Call, a: string)
    requires WellFormed(c)
    ensures OneUp(b, Step(b, c), a)
  {
    match c
    case CompareExchange(q, f) =>
      if Applies(b, q, f) {
        ExchangeEffect(b, q, f);
        OkReads(b, q, f);
        hide CompareExchanged, NormalizeVersion, ValidRecord;
      }
    case RevokeBatch(accounts, faults) => BatchOneUp(b, accounts, faults, a);
  }

  lemma {:induction false} OkReads(b: Backend, q: Request, f: Faults)
    requires Applies(b, q, f)
    ensures ReadRecord(CompareExchanged(b, q, f).0, q.account)
      == Ok(Some(Requested(q, NormalizeVersion(q.version).value)))
  {
    ExchangeEffect(b, q, f);
    WrittenIsReadable(q);
    hide NormalizeVersion, ValidVersion, CompareExchanged;
  }

  lemma {:induction false} RunNeverGoesBack(b: Backend, calls: seq<Call>, a: string)
    requires forall i | 0 <= i < |calls| :: WellFormed(calls[i])
    ensures Revision(Run(b, calls), a) >= Revision(b, a)
    ensures Revision(Run(b, calls), a) == Revision(b, a) ==> ReadRecord(Run(b, calls), a) == ReadRecord(b, a)
    decreases |calls|
  {
    if calls != [] {
      StepOneUp(b, calls[0], a);
      RunNeverGoesBack(Step(b, calls[0]), calls[1..], a);
      hide Step, ValidRecord;
    }
  }

  /** One accepted compare-exchange of a run. */
  datatype Applied = Applied(account: string, operationId: nat, expected: Option<nat>, revision: nat)

  function Applications(b: Backend, calls: seq<Call>): seq<Applied>
    requires forall i | 0 <= i < |calls| :: WellFormed(calls[i])
    decreases |calls|
  {
    if calls == [] then []
    else
      var rest := Applications(Step(b, calls[0]), calls[1..]);
      if calls[0].CompareExchange? && Applies(b, calls[0].q, calls[0].f)
      then [AppliedBy(b, calls[0].q)] + rest else rest
  }

  function AppliedBy(b: Backend, q: Request): Applied {
    Applied(q.account, q.operationId, q.expected, Revision(b, q.account) + 1)
  }

  /** Applications of one account are at rising revisions, each determined by the expected one. */
  ghost predicate Rising(b: Backend, log: seq<Applied>) {
    && (forall i | 0 <= i < |log| :: log[i].revision > Revision(b, log[i].account))
    && (forall i | 0 <= i < |log| :: log[i].revision == log[i].expected.GetOr(0) + 1)
    && (forall i, j | 0 <= i < j < |log| && log[i].account == log[j].account :: log[i].revision < log[j].revision)
  }

  lemma {:induction false} RisingEarlier(b: Backend, b': Backend, log: seq<Applied>)
    requires Rising(b', log) && forall a :: Revision(b', a) >= Revision(b, a)
    ensures Rising(b, log)
  {
    hide Revision;
    forall i | 0 <= i < |log| ensures log[i].revision > Revision(b, log[i].account) {
      assert Revision(b', log[i].account) >= Revision(b, log[i].account);
    }
  }

  lemma {:induction false} RisingHead(b: Backend, b': Backend, head: Applied, log: seq<Applied>)
    requires Rising(b', log) && forall a :: Revision(b', a) >= Revision(b, a)
    requires head.revision == Revision(b', head.account) == Revision(b, head.account) + 1 == head.expected.GetOr(0) + 1
    ensures Rising(b, [head] + log)
  {
    hide Revision;
    RisingEarlier(b, b', log);
  }

  lemma {:induction false} ApplicationsRise(b: Backend, calls: seq<Call>)
    requires forall i | 0 <= i < |calls| :: WellFormed(calls[i])
    ensures Rising(b, Applications(b, calls))
    decreases |calls|
  {
    if calls != [] {
      var b' := Step(b, calls[0]);
      var rest := Applications(b', calls[1..]);
      ApplicationsRise(b', calls[1..]);
      forall a ensures Revision(b', a) >= Revision(b, a) {
        StepOneUp(b, calls[0], a);
      }
      if calls[0].CompareExchange? && Applies(b, calls[0].q, calls[0].f) {
        ExchangeEffect(b, calls[0].q, calls[0].f);
        RisingHead(b, b', AppliedBy(b, calls[0].q), rest);
      } else {
        RisingEarlier(b, b', rest);
      }
    }
  }

  /** For an account, an operation id with an expected revision is applied at most once in any run. */
  lemma {:induction false} AppliedAtMostOnce(b: Backend, calls: seq<Call>, i: nat, j: nat)
    requires forall k | 0 <= k < |calls| :: WellFormed(calls[k])
    requires var log := Applications(b, calls);
      i < |log| && j < |log| && log[i].account == log[j].account
      && log[i].operationId == log[j].operationId && log[i].expected == log[j].expected
    ensures i == j
  {
    ApplicationsRise(b, calls);
  }

  /** After a successful batch, only a later grant at a strictly higher revision is admitted again. */
  lemma {:induction false} RevokedUntilRegranted(
    b: Backend, accounts: seq<string>, faults: seq<BatchFault>, later: seq<Call>, a: string, version: string,
    revision: nat
  )
    requires WellFormed(RevokeBatch(accounts, faults)) && RevokeAll(b, accounts, faults).1.Ok? && a in accounts
    requires forall i | 0 <= i < |later| :: WellFormed(later[i])
    requires var b' := RevokeAll(b, accounts, faults).0; Admits(Run(b', later), a, version, revision)
    ensures revision > Revision(RevokeAll(b, accounts, faults).0, a) >= Revision(b, a)
  {
    var b' := RevokeAll(b, accounts, faults).0;
    BatchOkRevokes(b, accounts, faults);
    BatchNeverUndoes(b, accounts, faults, a);
    RunNeverGoesBack(b', later, a);
    hide RevokeAll, Run, ValidRecord;
  }

  // ---------- the store ----------

  /** `TrustStore`, over a backend whose calls go wrong as the fault arguments say. */
  class TrustStore {
    var backend: Backend

    method Read(account: string, fails: bool) returns (r: Result<Option<TrustRecord>, TrustError>)
      ensures r == if fails then Err(Unavailable) else ReadRecord(backend, account)
    {
      if fails {
        return Err(Unavailable);
      }
      if account !in backend {
        return Ok(None);
      }
      if backend[account].Garbage? {
        return Err(Corrupt);
      }
      var record := backend[account].record;
      if record.schema != 1 || record.key != account || record.revision == 0
         || !ValidVersion(record.version) || record.operationId == 0 {
        return Err(Corrupt);
      }
      r := Ok(Some(record));
    }

    method Admit(
      account: string, version: string, revision: Option<nat>, fails: bool
    ) returns (r: Result<TrustRecord, TrustError>)
      ensures NormalizeVersion(version).None? ==> r == Err(Invalid)
      ensures r.Ok? <==>
        && NormalizeVersion(version).Some? && !fails
        && Admits(backend, account, NormalizeVersion(version).value, revision.GetOr(Revision(backend, account)))
      ensures r.Ok? ==> ReadRecord(backend, account) == Ok(Some(r.value))
    {
      var normalized := NormalizeVersion(version);
      if normalized.None? {
        return Err(Invalid);
      }
      var guard := Read(account, fails);
      if guard.Err? {
        return Err(guard.error);
      }
      if guard.value.Some? {
        var record := guard.value.value;
        if record.decision == Grant && record.version == normalized.value
           && (revision.None? || record.revision == revision.value) {
          return Ok(record);
        }
      }
      r := Err(Denied);
    }

    method CompareExchange(q: Request, f: Faults) returns (r: Result<TrustRecord, TrustError>)
      modifies this
      ensures (backend, r) == CompareExchanged(old(backend), q, f)
    {
      var version := NormalizeVersion(q.version);
      if version.None? || q.operationId == 0 {
        return Err(Invalid);
      }
      if f.refused.Some? {
        return Err(f.refused.value);
      }
      var result := ExchangeLocked(q, version.value, f);
      r := if f.abandoned then Err(OutcomeUnknown) else result;
    }

    method ExchangeLocked(q: Request, version: string, f: Faults) returns (r: Result<TrustRecord, TrustError>)
      modifies this
      ensures (backend, r) == Exchange(old(backend), q, version, f)
    {
      var read := Read(q.account, f.readFails);
      if read.Err? {
        return Err(read.error);
      }
      var current := read.value;
      if current.Some? && current.value.operationId == q.operationId {
        var record := current.value;
        if record.version == version && record.decision == q.decision
           && q.expected.GetOr(0) < MAX_REVISION && q.expected.GetOr(0) + 1 == record.revision {
          return Ok(record);
        }
        return Err(Conflict);
      }
      if RevisionOf(current) != q.expected {
        return Err(Conflict);
      }
      if q.expected.GetOr(0) >= MAX_REVISION {
        return Err(Corrupt);
      }
      var next := TrustRecord(1, q.account, version, q.decision, q.expected.GetOr(0) + 1, q.operationId);
      if f.stop.Some? {
        return Err(f.stop.value);
      }
      if f.stores {
        backend := backend[q.account := Decodes(next)];
      }
      var readback := Read(q.account, f.readbackFails);
      if readback == Ok(Some(next)) {
        return Ok(next);
      }
      if readback == Ok(current) && !f.reports {
        return Err(Unavailable);
      }
      r := Err(OutcomeUnknown);
    }

    method RevokeBatch(accounts: seq<string>, faults: seq<BatchFault>) returns (r: Result<(), TrustError>)
      requires |accounts| == |faults|
      modifies this
      ensures (backend, r) == RevokeAll(old(backend), accounts, faults)
    {
      var i := 0;
      while i < |accounts|
        invariant 0 <= i <= |accounts|
        invariant RevokeAll(backend, accounts[i..], faults[i..]) == RevokeAll(old(backend), accounts, faults)
      {
        var f, account := faults[i], accounts[i];
        ghost var before := backend;
        assert accounts[i..][1..] == accounts[i + 1..] && faults[i..][1..] == faults[i + 1..];
        if f.stopBeforeRead.Some? {
          return Err(f.stopBeforeRead.value);
        }
        var read := Read(account, f.readFails);
        if read.Err? {
          return Err(read.error);
        }
        if read.value.Some? && read.value.value.decision != Revoke {
          var record := read.value.value;
          if record.revision >= MAX_REVISION {
            return Err(Corrupt);
          }
          record := record.(revision := record.revision + 1, decision := Revoke, operationId := f.freshId);
          if f.stopBeforeWrite.Some? {
            return Err(f.stopBeforeWrite.value);
          }
          if f.stores {
            backend := backend[account := Decodes(record)];
          }
          var readback := Read(account, f.readbackFails);
          if readback != Ok(Some(record)) {
            assert RevokeOne(before, account, f) == (backend, Err(OutcomeUnknown));
            return Err(OutcomeUnknown);
          }
        }
        assert RevokeOne(before, account, f) == (backend, Ok(()));
        i := i + 1;
      }
      r := Ok(());
    }
  }
}
