/** Per-day usage aggregates (src-tauri/src/core/stats.rs, lines 36-151). */
module Aggregates {

  datatype UsageRecord = UsageRecord(
    modelId: string, workspace: string, kind: string,
    input: nat, output: nat, cacheRead: nat, cacheWrite: nat, runs: nat)

  datatype UsageTiming = UsageTiming(genMs: nat, ttftMs: nat, ttftCount: nat, steps: nat)

  datatype ModelAgg = ModelAgg(
    input: nat, output: nat, cacheRead: nat, cacheWrite: nat, runs: nat,
    genMs: nat, ttftMs: nat, ttftCount: nat, steps: nat)
  {
    /** `ModelAgg::add`. */
    function Add(r: UsageRecord, t: UsageTiming): ModelAgg {
      ModelAgg(input + r.input, output + r.output, cacheRead + r.cacheRead, cacheWrite + r.cacheWrite,
               runs + r.runs, genMs + t.genMs, ttftMs + t.ttftMs, ttftCount + t.ttftCount, steps + t.steps)
    }

    /** `ModelAgg::merge`. */
    function Merge(o: ModelAgg): ModelAgg {
      ModelAgg(input + o.input, output + o.output, cacheRead + o.cacheRead, cacheWrite + o.cacheWrite,
               runs + o.runs, genMs + o.genMs, ttftMs + o.ttftMs, ttftCount + o.ttftCount, steps + o.steps)
    }
  }

  /** One of the nine counters. */
  datatype Field = Input | Output | CacheRead | CacheWrite | Runs | GenMs | TtftMs | TtftCount | Steps

  function Pick(a: ModelAgg, f: Field): nat {
    match f
    case Input => a.input
    case Output => a.output
    case CacheRead => a.cacheRead
    case CacheWrite => a.cacheWrite
    case Runs => a.runs
    case GenMs => a.genMs
    case TtftMs => a.ttftMs
    case TtftCount => a.ttftCount
    case Steps => a.steps
  }

  /** Merging adds every counter; a counter left out of `Merge` or `Add` would break this. */
  lemma {:induction false} MergeAdds(a: ModelAgg, b: ModelAgg, f: Field)
    ensures Pick(a.Merge(b), f) == Pick(a, f) + Pick(b, f)
  {
  }

  /** What a record and its timing bring to each counter. */
  function Given(r: UsageRecord, t: UsageTiming, f: Field): nat {
    match f
    case Input => r.input
    case Output => r.output
    case CacheRead => r.cacheRead
    case CacheWrite => r.cacheWrite
    case Runs => r.runs
    case GenMs => t.genMs
    case TtftMs => t.ttftMs
    case TtftCount => t.ttftCount
    case Steps => t.steps
  }

  /** Adding a record raises each counter by the figure of that name, five of the record and four of the timing. */
  lemma {:induction false} AddAdds(a: ModelAgg, r: UsageRecord, t: UsageTiming, f: Field)
    ensures Pick(a.Add(r, t), f) == Pick(a, f) + Given(r, t, f)
    ensures var b := a.Add(r, t);
      && b.input == a.input + r.input && b.output == a.output + r.output && b.cacheRead == a.cacheRead + r.cacheRead
      && b.cacheWrite == a.cacheWrite + r.cacheWrite && b.runs == a.runs + r.runs && b.genMs == a.genMs + t.genMs
      && b.ttftMs == a.ttftMs + t.ttftMs && b.ttftCount == a.ttftCount + t.ttftCount && b.steps == a.steps + t.steps
  {
  }

  const ZERO := ModelAgg(0, 0, 0, 0, 0, 0, 0, 0, 0)

  datatype DailyStats = DailyStats(
    byModel: map<string, ModelAgg>, byWorkspace: map<string, ModelAgg>, byKind: map<string, ModelAgg>, total: ModelAgg)

  const NEW_DAY := DailyStats(map[], map[], map[], ZERO)

  // ---------- tables of aggregates ----------

  function Lookup(m: map<string, ModelAgg>, k: string): ModelAgg {
    if k in m then m[k] else ZERO
  }

  function MergeTables(a: map<string, ModelAgg>, b: map<string, ModelAgg>): map<string, ModelAgg> {
    map k | k in a.Keys + b.Keys :: Lookup(a, k).Merge(Lookup(b, k))
  }

  // ---------- sums ----------

  function At(m: map<string, nat>, k: string): nat {
    if k in m then m[k] else 0
  }

  /** The entries of `m` under `keys`, added up. */
  ghost function SumOver(keys: set<string>, m: map<string, nat>): nat {
    if keys == {} then 0
    else
      var k :| k in keys;
      At(m, k) + SumOver(keys - {k}, m)
  }

  /** Any key may be taken out first. */
  lemma {:induction false} SumSplit(keys: set<string>, m: map<string, nat>, k: string)
    requires k in keys
    ensures SumOver(keys, m) == At(m, k) + SumOver(keys - {k}, m)
    decreases |keys|
  {
    hide At;
    var j :| j in keys && SumOver(keys, m) == At(m, j) + SumOver(keys - {j}, m);
    if j != k {
      SumSplit(keys - {j}, m, k);
      SumSplit(keys - {k}, m, j);
      assert keys - {j} - {k} == keys - {k} - {j};
    }
  }

  lemma {:induction false} SumAgrees(keys: set<string>, m: map<string, nat>, n: map<string, nat>)
    requires forall k | k in keys :: At(m, k) == At(n, k)
    ensures SumOver(keys, m) == SumOver(keys, n)
    decreases |keys|
  {
    hide At;
    if keys != {} {
      var k :| k in keys;
      SumSplit(keys, m, k);
      SumSplit(keys, n, k);
      SumAgrees(keys - {k}, m, n);
    }
  }

  /** Keys without an entry add nothing. */
  lemma {:induction false} SumWiden(keys: set<string>, more: set<string>, m: map<string, nat>)
    requires m.Keys <= keys
    ensures SumOver(keys + more, m) == SumOver(keys, m)
    decreases |more|
  {
    if more == {} {
      assert keys + more == keys;
    } else {
      var k :| k in more;
      SumWiden(keys, more - {k}, m);
      if k in keys {
        assert keys + more == keys + (more - {k});
      } else {
        SumSplit(keys + more, m, k);
        assert keys + more - {k} == keys + (more - {k});
      }
    }
  }

  lemma {:induction false} SumPointwise(
    keys: set<string>, a: map<string, nat>, b: map<string, nat>, c: map<string, nat>
  )
    requires forall k | k in keys :: At(c, k) == At(a, k) + At(b, k)
    ensures SumOver(keys, c) == SumOver(keys, a) + SumOver(keys, b)
    decreases |keys|
  {
    hide At;
    if keys != {} {
      var k :| k in keys;
      SumSplit(keys, a, k);
      SumSplit(keys, b, k);
      SumSplit(keys, c, k);
      SumPointwise(keys - {k}, a, b, c);
    }
  }

  lemma {:induction false} SumZero(keys: set<string>, m: map<string, nat>)
    requires forall k | k in keys :: At(m, k) == 0
    ensures SumOver(keys, m) == 0
    decreases |keys|
  {
    if keys != {} {
      var k :| k in keys;
      SumSplit(keys, m, k);
      SumZero(keys - {k}, m);
    }
  }

  // ---------- one counter of a table ----------

  function Column(m: map<string, ModelAgg>, f: Field): map<string, nat> {
    map k | k in m :: Pick(m[k], f)
  }

  ghost function ColumnSum(m: map<string, ModelAgg>, f: Field): nat {
    SumOver(m.Keys, Column(m, f))
  }

  lemma {:induction false} ColumnAt(m: map<string, ModelAgg>, f: Field)
    ensures Column(m, f).Keys == m.Keys
    ensures forall k :: At(Column(m, f), k) == Pick(Lookup(m, k), f)
  {
    assert Pick(ZERO, f) == 0;
    hide Pick;
  }

  lemma {:induction false} LookupMerged(a: map<string, ModelAgg>, b: map<string, ModelAgg>, k: string)
    ensures Lookup(MergeTables(a, b), k) == Lookup(a, k).Merge(Lookup(b, k))
  {
    MergeZero(ZERO);
    hide ModelAgg.Merge;
    if k in a.Keys + b.Keys {
      assert k in MergeTables(a, b);
    }
  }

  lemma {:induction false} MergeZero(x: ModelAgg)
    ensures x.Merge(ZERO) == x
  {
  }

  lemma {:induction false} ColumnSumMerges(a: map<string, ModelAgg>, b: map<string, ModelAgg>, f: Field)
    ensures ColumnSum(MergeTables(a, b), f) == ColumnSum(a, f) + ColumnSum(b, f)
  {
    var keys := a.Keys + b.Keys;
    var c := MergeTables(a, b);
    assert c.Keys == keys && b.Keys + a.Keys == keys;
    ColumnAt(a, f);
    ColumnAt(b, f);
    ColumnAt(c, f);
    hide Column, At, Pick, ModelAgg.Merge;
    forall k | k in keys ensures At(Column(c, f), k) == At(Column(a, f), k) + At(Column(b, f), k) {
      LookupMerged(a, b, k);
      MergeAdds(Lookup(a, k), Lookup(b, k), f);
    }
    SumPointwise(keys, Column(a, f), Column(b, f), Column(c, f));
    SumWiden(a.Keys, b.Keys, Column(a, f));
    SumWiden(b.Keys, a.Keys, Column(b, f));
  }

  lemma {:induction false} ColumnSumAdds(m: map<string, ModelAgg>, k: string, r: UsageRecord, t: UsageTiming, f: Field)
    ensures ColumnSum(AddTo(m, k, r, t), f) == ColumnSum(m, f) + Given(r, t, f)
  {
    var n := AddTo(m, k, r, t);
    AddAdds(Lookup(m, k), r, t, f);
    assert n.Keys == m.Keys + {k};
    SumSplit(n.Keys, Column(n, f), k);
    SumSplit(n.Keys, Column(m, f), k);
    SumAgrees(n.Keys - {k}, Column(m, f), Column(n, f));
    SumWiden(m.Keys, {k}, Column(m, f));
  }

  lemma {:induction false} MergeOneMore(
    day: map<string, ModelAgg>, old_: map<string, ModelAgg>, todo: set<string>, k: string
  )
    requires k in todo && todo <= old_.Keys
    ensures var merged := MergeTables(day, old_ - todo);
      MergeTables(day, old_ - (todo - {k})) == merged[k := Lookup(merged, k).Merge(old_[k])]
  {
    MergeZero(Lookup(day, k));
    hide ModelAgg.Merge;
    assert k !in old_ - todo && k in old_ - (todo - {k});
    assert Lookup(MergeTables(day, old_ - todo), k) == if k in day then Lookup(day, k).Merge(ZERO) else ZERO;
    assert k !in day ==> Lookup(day, k) == ZERO;
    ZeroMerge(old_[k]);
  }

  lemma {:induction false} ZeroMerge(x: ModelAgg)
    ensures ZERO.Merge(x) == x
  {
  }

  lemma {:induction false} MergeNothing(day: map<string, ModelAgg>)
    ensures MergeTables(day, map[]) == day
  {
    forall k | k in day ensures day[k].Merge(ZERO) == day[k] {
      MergeZero(day[k]);
    }
    hide ModelAgg.Merge;
  }

  /** `for (k, v) in old { merged.entry(k).or_default().merge(&v) }`. */
  method MergeInto(day: map<string, ModelAgg>, old_: map<string, ModelAgg>) returns (merged: map<string, ModelAgg>)
    ensures merged == MergeTables(day, old_)
  {
    merged := day;
    var todo := old_.Keys;
    MergeNothing(day);
    assert old_ - todo == map[];
    hide MergeTables, Lookup, ModelAgg.Merge;
    while todo != {}
      invariant todo <= old_.Keys
      invariant merged == MergeTables(day, old_ - todo)
      decreases |todo|
    {
      var k :| k in todo;
      MergeOneMore(day, old_, todo, k);
      merged := merged[k := Lookup(merged, k).Merge(old_[k])];
      todo := todo - {k};
    }
    assert old_ - todo == old_;
  }

  // ---------- days ----------

  function MergeDays(day: DailyStats, old_: DailyStats): DailyStats {
    DailyStats(MergeTables(day.byModel, old_.byModel), MergeTables(day.byWorkspace, old_.byWorkspace),
               MergeTables(day.byKind, old_.byKind), day.total.Merge(old_.total))
  }

  function AddTo(m: map<string, ModelAgg>, k: string, r: UsageRecord, t: UsageTiming): map<string, ModelAgg> {
    m[k := Lookup(m, k).Add(r, t)]
  }

  /** The aggregation step of the writer. */
  function AddRecord(day: DailyStats, r: UsageRecord, t: UsageTiming): DailyStats {
    DailyStats(AddTo(day.byModel, r.modelId, r, t), AddTo(day.byWorkspace, r.workspace, r, t),
               AddTo(day.byKind, r.kind, r, t), day.total.Add(r, t))
  }

  /** Every breakdown adds up to the total, in every counter. */
  ghost predicate Balanced(day: DailyStats) {
    forall f :: && ColumnSum(day.byModel, f) == Pick(day.total, f)
                && ColumnSum(day.byWorkspace, f) == Pick(day.total, f)
                && ColumnSum(day.byKind, f) == Pick(day.total, f)
  }

  lemma {:induction false} AddRecordBalanced(day: DailyStats, r: UsageRecord, t: UsageTiming)
    requires Balanced(day)
    ensures Balanced(AddRecord(day, r, t))
  {
    hide ColumnSum, AddTo, Pick, ModelAgg.Add;
    forall f
      ensures var day' := AddRecord(day, r, t);
        && ColumnSum(day'.byModel, f) == Pick(day'.total, f)
        && ColumnSum(day'.byWorkspace, f) == Pick(day'.total, f)
        && ColumnSum(day'.byKind, f) == Pick(day'.total, f)
    {
      AddAdds(day.total, r, t, f);
      ColumnSumAdds(day.byModel, r.modelId, r, t, f);
      ColumnSumAdds(day.byWorkspace, r.workspace, r, t, f);
      ColumnSumAdds(day.byKind, r.kind, r, t, f);
    }
  }

  lemma {:induction false} MergeDaysBalanced(a: DailyStats, b: DailyStats)
    requires Balanced(a) && Balanced(b)
    ensures Balanced(MergeDays(a, b))
  {
    hide ColumnSum, MergeTables, Pick, ModelAgg.Merge;
    forall f
      ensures var day := MergeDays(a, b);
        && ColumnSum(day.byModel, f) == Pick(day.total, f)
        && ColumnSum(day.byWorkspace, f) == Pick(day.total, f)
        && ColumnSum(day.byKind, f) == Pick(day.total, f)
    {
      MergeAdds(a.total, b.total, f);
      ColumnSumMerges(a.byModel, b.byModel, f);
      ColumnSumMerges(a.byWorkspace, b.byWorkspace, f);
      ColumnSumMerges(a.byKind, b.byKind, f);
    }
  }

  // ---------- cells ----------

  /** One figure of a day. */
  datatype Bucket = Model(key: string) | Workspace(key: string) | Kind(key: string) | Total

  function Read(day: DailyStats, b: Bucket): ModelAgg {
    match b
    case Model(k) => Lookup(day.byModel, k)
    case Workspace(k) => Lookup(day.byWorkspace, k)
    case Kind(k) => Lookup(day.byKind, k)
    case Total => day.total
  }

  type Days = map<string, DailyStats>

  function DayAt(days: Days, date: string): DailyStats {
    if date in days then days[date] else NEW_DAY
  }

  /** One counter of one figure of one day. */
  function Amount(days: Days, date: string, b: Bucket, f: Field): nat {
    Pick(Read(DayAt(days, date), b), f)
  }

  /** What one record adds to one counter of one figure. */
  function Share(b: Bucket, r: UsageRecord, t: UsageTiming, f: Field): nat {
    if b == Model(r.modelId) || b == Workspace(r.workspace) || b == Kind(r.kind) || b == Total
    then Given(r, t, f) else 0
  }

  lemma {:induction false} AddRecordShares(day: DailyStats, r: UsageRecord, t: UsageTiming, b: Bucket, f: Field)
    ensures Pick(Read(AddRecord(day, r, t), b), f) == Pick(Read(day, b), f) + Share(b, r, t, f)
  {
    AddAdds(Read(day, b), r, t, f);
    hide ModelAgg.Add, Pick;
  }

  lemma {:induction false} MergeDaysAdds(a: DailyStats, c: DailyStats, b: Bucket, f: Field)
    ensures Pick(Read(MergeDays(a, c), b), f) == Pick(Read(a, b), f) + Pick(Read(c, b), f)
  {
    MergeAdds(Read(a, b), Read(c, b), f);
    hide ModelAgg.Merge, Pick, Lookup, MergeTables;
    match b
    case Model(k) => LookupMerged(a.byModel, c.byModel, k);
    case Workspace(k) => LookupMerged(a.byWorkspace, c.byWorkspace, k);
    case Kind(k) => LookupMerged(a.byKind, c.byKind, k);
    case Total =>
  }

  ghost predicate AllBalanced(days: Days) {
    forall d | d in days :: Balanced(days[d])
  }
}
