/** The generation-stamped lease table (src-tauri/src/core/coordinator.rs). */
module Leases {
  import opened Wrappers

  datatype Lease = Lease(session: string, run: string, resource: string, attempt: nat, generation: nat)
  datatype AcquireRequest = AcquireRequest(
    session: string, run: string, resource: string, attempt: nat, expectedGeneration: Option<nat>)
  datatype SharedWrite = SharedWrite(path: string, contents: string)
  datatype SharedTransaction = SharedTransaction(lease: Lease, writes: seq<SharedWrite>)
  datatype Receipt = Receipt(generation: nat, applied: nat)
  datatype CoordinateError =
    ResourceHeld | StaleGeneration | GenerationMismatch | NoLease | StaleLease | InvalidWrite

  /** Everything behind the mutex, and the generation counter beside it. */
  datatype Table = Table(byResource: map<string, Lease>, committed: seq<Receipt>, nextGeneration: nat)

  // ---------- the calls as functions of the table ----------

  predicate SameHolder(held: Lease, req: AcquireRequest) {
    held.run == req.run && held.attempt == req.attempt
  }

  function NewLease(req: AcquireRequest, generation: nat): Lease {
    Lease(req.session, req.run, req.resource, req.attempt, generation)
  }

  function AcquireResult(t: Table, req: AcquireRequest): Result<Lease, CoordinateError> {
    if req.resource in t.byResource then
      var held := t.byResource[req.resource];
      if SameHolder(held, req) then Ok(held) else Err(ResourceHeld)
    else if req.expectedGeneration.Some? && req.expectedGeneration.value != t.nextGeneration then
      Err(StaleGeneration)
    else
      Ok(NewLease(req, t.nextGeneration + 1))
  }

  function Acquired(t: Table, req: AcquireRequest): Table {
    if req.resource in t.byResource || AcquireResult(t, req).Err? then t
    else
      var lease := AcquireResult(t, req).value;
      t.(byResource := t.byResource[req.resource := lease], nextGeneration := lease.generation)
  }

  /** A lease is recognised by its resource and generation, whatever else the caller says. */
  predicate Current(t: Table, lease: Lease) {
    lease.resource in t.byResource && t.byResource[lease.resource].generation == lease.generation
  }

  function ReleaseResult(t: Table, lease: Lease): Result<(), CoordinateError> {
    if Current(t, lease) then Ok(())
    else if lease.resource in t.byResource then Err(GenerationMismatch)
    else Err(NoLease)
  }

  function Released(t: Table, lease: Lease): Table {
    if Current(t, lease) then t.(byResource := t.byResource - {lease.resource}) else t
  }

  predicate Blank(path: string) {
    forall c | c in path :: c in {' ', '\t', '\n', '\r', '\U{0B}', '\U{0C}'}
  }

  predicate AllWritesValid(writes: seq<SharedWrite>) {
    forall i | 0 <= i < |writes| :: !Blank(writes[i].path)
  }

  function CommitResult(t: Table, tx: SharedTransaction): Result<Receipt, CoordinateError> {
    if !Current(t, tx.lease) then Err(StaleLease)
    else if !AllWritesValid(tx.writes) then Err(InvalidWrite)
    else Ok(Receipt(tx.lease.generation, |tx.writes|))
  }

  function Committed(t: Table, tx: SharedTransaction): Table {
    match CommitResult(t, tx)
    case Ok(receipt) => t.(committed := t.committed + [receipt])
    case Err(_) => t
  }

  // ---------- runs ----------

  datatype Call = Acquire(req: AcquireRequest) | Release(lease: Lease) | Commit(tx: SharedTransaction)

  function Step(t: Table, c: Call): Table {
    match c
    case Acquire(req) => Acquired(t, req)
    case Release(lease) => Released(t, lease)
    case Commit(tx) => Committed(t, tx)
  }

  predicate Failed(t: Table, c: Call) {
    match c
    case Acquire(req) => AcquireResult(t, req).Err?
    case Release(lease) => ReleaseResult(t, lease).Err?
    case Commit(tx) => CommitResult(t, tx).Err?
  }

  function Run(t: Table, calls: seq<Call>): Table
    decreases |calls|
  {
    if calls == [] then t else Run(Step(t, calls[0]), calls[1..])
  }

  const EMPTY := Table(map[], [], 0)

  /** Each lease sits under its own resource; generations are issued ones, and no two leases share one. */
  ghost predicate Inv(t: Table) {
    && (forall r | r in t.byResource ::
      t.byResource[r].resource == r && 1 <= t.byResource[r].generation <= t.nextGeneration)
    && forall r, q | r in t.byResource && q in t.byResource && r != q ::
      t.byResource[r].generation != t.byResource[q].generation
  }

  lemma {:induction false} StepKeepsInv(t: Table, c: Call)
    requires Inv(t)
    ensures Inv(Step(t, c))
  {
  }

  lemma {:induction false} RunKeepsInv(t: Table, calls: seq<Call>)
    requires Inv(t)
    ensures Inv(Run(t, calls)) && Run(t, calls).nextGeneration >= t.nextGeneration
    decreases |calls|
  {
    if calls != [] {
      RunKeepsInv(Step(t, calls[0]), calls[1..]);
    }
  }

  lemma {:induction false} FailureChangesNothing(t: Table, c: Call)
    requires Failed(t, c)
    ensures Step(t, c) == t
  {
  }

  /** The call hands out a lease that did not exist. */
  predicate Issues(t: Table, c: Call) {
    c.Acquire? && c.req.resource !in t.byResource && AcquireResult(t, c.req).Ok?
  }

  /** The generations handed out for the first time during a run, in order. */
  function Issued(t: Table, calls: seq<Call>): seq<nat>
    decreases |calls|
  {
    if calls == [] then []
    else
      var rest := Issued(Step(t, calls[0]), calls[1..]);
      if Issues(t, calls[0]) then [AcquireResult(t, calls[0].req).value.generation] + rest else rest
  }

  ghost predicate IncreasingFrom(low: nat, g: seq<nat>) {
    (forall i | 0 <= i < |g| :: g[i] > low) && forall i, j | 0 <= i < j < |g| :: g[i] < g[j]
  }

  lemma {:induction false} IssuedStrictlyIncrease(t: Table, calls: seq<Call>)
    ensures IncreasingFrom(t.nextGeneration, Issued(t, calls))
    decreases |calls|
  {
    if calls != [] {
      var t' := Step(t, calls[0]);
      var rest := Issued(t', calls[1..]);
      IssuedStrictlyIncrease(t', calls[1..]);
      if Issues(t, calls[0]) {
        assert t'.nextGeneration == t.nextGeneration + 1;
        assert Issued(t, calls) == [t'.nextGeneration] + rest;
      } else {
        assert t'.nextGeneration == t.nextGeneration;
        assert Issued(t, calls) == rest;
      }
    }
  }

  /** An issued generation that is not current can never become current again. */
  lemma {:induction false} GoneForGood(t: Table, lease: Lease, calls: seq<Call>)
    requires lease.generation <= t.nextGeneration && !Current(t, lease)
    ensures !Current(Run(t, calls), lease)
    decreases |calls|
  {
    if calls != [] {
      GoneForGood(Step(t, calls[0]), lease, calls[1..]);
    }
  }

  /** Once released, a lease neither releases nor commits anything, whatever happens afterwards. */
  lemma {:induction false} LateCallsFail(t: Table, lease: Lease, calls: seq<Call>, writes: seq<SharedWrite>)
    requires Inv(t) && ReleaseResult(t, lease).Ok?
    ensures var later := Run(Released(t, lease), calls);
      ReleaseResult(later, lease).Err? && CommitResult(later, SharedTransaction(lease, writes)) == Err(StaleLease)
  {
    GoneForGood(Released(t, lease), lease, calls);
  }

  /** Only the holder of a lease keeps it: no other call takes it away or replaces it. */
  lemma {:induction false} HeldUntilReleased(t: Table, lease: Lease, calls: seq<Call>)
    requires lease.resource in t.byResource && t.byResource[lease.resource] == lease
    requires forall i | 0 <= i < |calls| && calls[i].Release? ::
      calls[i].lease.resource != lease.resource || calls[i].lease.generation != lease.generation
    ensures var later := Run(t, calls);
      lease.resource in later.byResource && later.byResource[lease.resource] == lease
    decreases |calls|
  {
    if calls != [] {
      HeldUntilReleased(Step(t, calls[0]), lease, calls[1..]);
    }
  }

  /** Calls one after the other: the last one meets what the others left. */
  lemma {:induction false} RunThen(t: Table, calls: seq<Call>, last: Call)
    ensures Run(t, calls + [last]) == Step(Run(t, calls), last)
    decreases |calls|
  {
    hide Step;
    if calls == [] {
      assert calls + [last] == [last];
    } else {
      assert (calls + [last])[1..] == calls[1..] + [last];
      RunThen(Step(t, calls[0]), calls[1..], last);
    }
  }

  // ---------- what the calls answer ----------

  /**
   * A resource is granted if and only if its holder asks again, with the same run and attempt, or nobody holds it and
   * the caller expects no generation or the last one issued. The holder gets its lease back; else a new one, for
   * exactly what was asked, is the only change.
   */
  lemma {:induction false} AcquireIff(t: Table, req: AcquireRequest)
    ensures var (r, t') := (AcquireResult(t, req), Acquired(t, req));
      && (r.Ok? <==>
           if req.resource in t.byResource then
             t.byResource[req.resource].run == req.run && t.byResource[req.resource].attempt == req.attempt
           else req.expectedGeneration in {None, Some(t.nextGeneration)})
      && (r.Ok? && req.resource in t.byResource ==> r.value == t.byResource[req.resource] && t' == t)
      && (r.Ok? && req.resource !in t.byResource ==>
           && r.value.session == req.session && r.value.run == req.run && r.value.attempt == req.attempt
           && r.value.resource == req.resource && r.value.generation == t.nextGeneration + 1 == t'.nextGeneration
           && t'.byResource == t.byResource[req.resource := r.value] && t'.committed == t.committed)
      && (r.Err? ==> r.error == if req.resource in t.byResource then ResourceHeld else StaleGeneration)
  {
  }

  /** While a lease is not released, its holder gets it again and everybody else is refused. */
  lemma {:induction false} OnlyTheHolderReenters(
    t: Table, req: AcquireRequest, calls: seq<Call>, again: AcquireRequest
  )
    requires Inv(t) && AcquireResult(t, req).Ok? && again.resource == req.resource
    requires var lease := AcquireResult(t, req).value;
      forall i | 0 <= i < |calls| && calls[i].Release? ::
        calls[i].lease.resource != lease.resource || calls[i].lease.generation != lease.generation
    ensures AcquireResult(Run(Acquired(t, req), calls), again)
      == if again.run == req.run && again.attempt == req.attempt then AcquireResult(t, req) else Err(ResourceHeld)
  {
    HeldUntilReleased(Acquired(t, req), AcquireResult(t, req).value, calls);
  }

  /** A lease is released if and only if it is the current one of its resource, and no other lease goes with it. */
  lemma {:induction false} ReleaseIff(t: Table, lease: Lease)
    ensures var t' := Released(t, lease);
      && (ReleaseResult(t, lease).Ok? <==>
           lease.resource in t.byResource && t.byResource[lease.resource].generation == lease.generation)
      && (ReleaseResult(t, lease).Ok? ==> lease.resource !in t'.byResource)
      && (ReleaseResult(t, lease).Err? ==>
           ReleaseResult(t, lease).error == if lease.resource in t.byResource then GenerationMismatch else NoLease)
      && (forall r | r in t.byResource && (r != lease.resource || ReleaseResult(t, lease).Err?) ::
           r in t'.byResource && t'.byResource[r] == t.byResource[r])
      && t'.committed == t.committed && t'.nextGeneration == t.nextGeneration
  {
  }

  /** A path with something besides white space. */
  predicate NamesSomething(path: string) {
    exists i | 0 <= i < |path| :: path[i] != ' ' && !('\t' <= path[i] <= '\r')
  }

  lemma {:induction false} BlankNamesNothing(path: string)
    ensures Blank(path) <==> !NamesSomething(path)
  {
    if Blank(path) {
      forall i | 0 <= i < |path| ensures path[i] == ' ' || '\t' <= path[i] <= '\r' {
        assert path[i] in path;
      }
    }
  }

  /**
   * A transaction commits if and only if its lease is current and every path names something; its receipt, with the
   * generation and the number of writes, is then the only change.
   */
  lemma {:induction false} CommitIff(t: Table, tx: SharedTransaction)
    ensures var (r, t') := (CommitResult(t, tx), Committed(t, tx));
      && (r.Ok? <==>
           && tx.lease.resource in t.byResource
           && t.byResource[tx.lease.resource].generation == tx.lease.generation
           && forall i | 0 <= i < |tx.writes| :: NamesSomething(tx.writes[i].path))
      && (r.Ok? ==> r.value.generation == tx.lease.generation && r.value.applied == |tx.writes|)
      && (r.Err? ==> r.error == if Current(t, tx.lease) then InvalidWrite else StaleLease)
      && t' == if r.Ok? then t.(committed := t.committed + [r.value]) else t
  {
    forall i | 0 <= i < |tx.writes| ensures Blank(tx.writes[i].path) <==> !NamesSomething(tx.writes[i].path) {
      BlankNamesNothing(tx.writes[i].path);
    }
    hide Blank, NamesSomething;
  }

  // ---------- the object ----------

  /** `InProcessCoordinator`. */
  class InProcessCoordinator {
    var byResource: map<string, Lease>
    var committed: seq<Receipt>
    var nextGeneration: nat

    ghost function Contents(): Table
      reads this
    {
      Table(byResource, committed, nextGeneration)
    }

    constructor ()
      ensures Contents() == EMPTY
    {
      byResource, committed, nextGeneration := map[], [], 0;
    }

    method Acquire(req: AcquireRequest) returns (r: Result<Lease, CoordinateError>)
      modifies this
      ensures Contents() == Acquired(old(Contents()), req) && r == AcquireResult(old(Contents()), req)
    {
      if req.resource in byResource {
        var existing := byResource[req.resource];
        if existing.run != req.run || existing.attempt != req.attempt {
          return Err(ResourceHeld);
        }
        return Ok(existing);
      }
      if req.expectedGeneration.Some? {
        if nextGeneration != req.expectedGeneration.value {
          return Err(StaleGeneration);
        }
      }
      nextGeneration := nextGeneration + 1;
      var lease := Lease(req.session, req.run, req.resource, req.attempt, nextGeneration);
      byResource := byResource[req.resource := lease];
      r := Ok(lease);
    }

    method Release(lease: Lease) returns (r: Result<(), CoordinateError>)
      modifies this
      ensures Contents() == Released(old(Contents()), lease) && r == ReleaseResult(old(Contents()), lease)
    {
      if lease.resource !in byResource {
        return Err(NoLease);
      }
      if byResource[lease.resource].generation != lease.generation {
        return Err(GenerationMismatch);
      }
      byResource := byResource - {lease.resource};
      r := Ok(());
    }

    /** Checks everything first, then records everything. */
    method Commit(tx: SharedTransaction) returns (r: Result<Receipt, CoordinateError>)
      modifies this
      ensures Contents() == Committed(old(Contents()), tx) && r == CommitResult(old(Contents()), tx)
    {
      if tx.lease.resource !in byResource || byResource[tx.lease.resource].generation != tx.lease.generation {
        return Err(StaleLease);
      }
      for i := 0 to |tx.writes|
        invariant forall j | 0 <= j < i :: !Blank(tx.writes[j].path)
        invariant Contents() == old(Contents())
      {
        if Blank(tx.writes[i].path) {
          return Err(InvalidWrite);
        }
      }
      var receipt := Receipt(tx.lease.generation, |tx.writes|);
      committed := committed + [receipt];
      r := Ok(receipt);
    }
  }
}
