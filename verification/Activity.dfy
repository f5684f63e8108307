/** The in-process observer of runs and subagents (src-tauri/src/core/activity.rs). */
module Activity {
  import opened Wrappers

  const RECENT_LIMIT: nat := 50

  datatype SubStatus = Running | Done | Failed | Cancelled

  datatype Sub = Sub(
    id: string, title: string, step: nat, detail: string, status: SubStatus,
    ended: Option<string>, report: Option<string>)

  /** A published terminal state; the identity does not depend on titles or times. */
  datatype RecentId = OfSession(session: string, run: string) | OfSub(session: string, run: string, sub: string)

  datatype Recent = Recent(id: RecentId, title: string, status: string, sub: Option<Sub>)

  /** `asks` maps an open question to the subagent that asks it, if any. */
  datatype ObservedRun = ObservedRun(
    runId: string, title: string, activity: string, subs: seq<Sub>,
    subRuntimes: set<string>, asks: map<string, Option<string>>, finished: seq<string>)

  datatype State = State(revision: nat, runs: map<string, ObservedRun>, recent: seq<Recent>)

  const EMPTY := State(0, map[], [])

  // ---------- events ----------

  datatype RunEvent =
    | Doing(activity: string)
    | AskOpened(ask: Option<string>, sub: Option<string>)
    | AskClosed(closed: string)
    | SubSpawn(spawned: Option<string>, title: string)
    | SubStep(id: string, step: nat, detail: string)
    | SubReport(id: string, report: string)
    | SubDone(id: string, stepsUsed: nat, cancelled: bool, ended: Option<string>)
    | SubError(id: string, stepsUsed: nat, cancelled: bool, ended: Option<string>, error: string)
    | Unknown

  datatype Event =
    | Begin(session: string, run: string, title: string)
    | Finish(session: string, run: string, status: string, steps: map<string, nat>)
    | RegisterSub(session: string, sub: string, parentRun: Option<string>)
    | Title(session: string, title: string)
    | Observe(session: string, payloadRun: Option<string>, event: RunEvent)
    | Prune(session: string, run: string, title: string, sampled: set<string>, valid: set<string>)

  // ---------- recent history ----------

  function Ids(recent: seq<Recent>): (r: seq<RecentId>)
    ensures |r| == |recent| && forall i | 0 <= i < |r| :: r[i] == recent[i].id
  {
    seq(|recent|, i requires 0 <= i < |recent| => recent[i].id)
  }

  function Truncate(recent: seq<Recent>): (r: seq<Recent>)
    ensures |r| <= RECENT_LIMIT && r <= recent
  {
    if |recent| <= RECENT_LIMIT then recent else recent[..RECENT_LIMIT]
  }

  /** `push_recent`. */
  function Pushed(recent: seq<Recent>, item: Recent): seq<Recent> {
    if item.id in Ids(recent) then recent else Truncate([item] + recent)
  }

  function PushedAll(recent: seq<Recent>, items: seq<Recent>): seq<Recent>
    decreases |items|
  {
    if items == [] then recent else PushedAll(Pushed(recent, items[0]), items[1..])
  }

  // ---------- one run ----------

  function IndexOf(subs: seq<Sub>, id: string): (i: nat)
    ensures i <= |subs| && (i < |subs| ==> subs[i].id == id)
    ensures forall j | 0 <= j < i :: subs[j].id != id
  {
    if subs == [] then 0 else if subs[0].id == id then 0 else 1 + IndexOf(subs[1..], id)
  }

  predicate IsRunning(run: ObservedRun, id: string) {
    exists sub | sub in run.subs :: sub.id == id && sub.status == Running
  }

  function RunningIndex(subs: seq<Sub>, id: string): (i: nat)
    ensures i <= |subs| && (i < |subs| ==> subs[i].id == id && subs[i].status == Running)
    ensures i == |subs| ==> forall j | 0 <= j < |subs| :: !(subs[j].id == id && subs[j].status == Running)
  {
    if subs == [] then 0
    else if subs[0].id == id && subs[0].status == Running then 0
    else 1 + RunningIndex(subs[1..], id)
  }

  /** `subs.retain(|s| s.sub_id != id)`. */
  function WithoutSub(subs: seq<Sub>, id: string): seq<Sub> {
    if subs == [] then []
    else (if subs[0].id == id then [] else [subs[0]]) + WithoutSub(subs[1..], id)
  }

  function Max(a: nat, b: nat): nat {
    if a < b then b else a
  }

  function AllowedEnd(ended: Option<string>): Option<string> {
    if ended.Some? && ended.value in {"report", "partial", "budget", "no_report"} then ended else None
  }

  predicate Terminal(e: RunEvent) {
    e.SubDone? || e.SubError?
  }

  function TerminalSub(sub: Sub, e: RunEvent): Sub
    requires Terminal(e)
  {
    sub.(status := if e.SubDone? then Done else if e.cancelled then Cancelled else Failed,
         step := Max(sub.step, e.stepsUsed),
         ended := AllowedEnd(e.ended),
         detail := if e.SubError? then e.error else sub.detail)
  }

  function StatusText(s: SubStatus): string {
    match s
    case Running => "running"
    case Done => "done"
    case Failed => "error"
    case Cancelled => "cancelled"
  }

  function SubRecent(session: string, run: string, sub: Sub, status: string): Recent {
    Recent(OfSub(session, run, sub.id), sub.title, status, Some(sub))
  }

  /** A finished id enters at the back; the 51st pushes the oldest out, and its sub with it. */
  function Retire(run: ObservedRun, id: string): ObservedRun {
    var finished := run.finished + [id];
    var asks := map a | a in run.asks && run.asks[a] != Some(id) :: run.asks[a];
    var run' := run.(subRuntimes := run.subRuntimes - {id}, asks := asks);
    if |finished| > RECENT_LIMIT
    then run'.(finished := finished[1..], subs := WithoutSub(run.subs, finished[0]))
    else run'.(finished := finished)
  }

  /** The new run record, and whether the event counted at all. */
  function RunAfter(run: ObservedRun, e: RunEvent): Option<ObservedRun> {
    match e
    case Doing(activity) => Some(run.(activity := activity))
    case AskOpened(ask, sub) =>
      if (sub.Some? && sub.value !in run.subRuntimes) || ask.None? then None
      else Some(run.(asks := run.asks[ask.value := sub]))
    case AskClosed(ask) => Some(run.(asks := run.asks - {ask}))
    case SubSpawn(spawned, title) =>
      if spawned.None? || IndexOf(run.subs, spawned.value) < |run.subs| then None
      else Some(run.(subs := run.subs + [Sub(spawned.value, title, 0, "", Running, None, None)]))
    case SubStep(id, step, detail) =>
      var i := RunningIndex(run.subs, id);
      if i == |run.subs| then None
      else Some(run.(subs := run.subs[i := run.subs[i].(step := Max(run.subs[i].step, step), detail := detail)]))
    case SubReport(id, report) =>
      var i := RunningIndex(run.subs, id);
      if i == |run.subs| then None
      else Some(run.(subs := run.subs[i := run.subs[i].(report := Some(report))]))
    case Unknown => None
    case _ =>
      var i := RunningIndex(run.subs, e.id);
      if i == |run.subs| then None
      else Some(Retire(run.(subs := run.subs[i := TerminalSub(run.subs[i], e)]), e.id))
  }

  function TerminalRecents(session: string, run: ObservedRun, e: RunEvent): seq<Recent> {
    if !Terminal(e) || RunningIndex(run.subs, e.id) == |run.subs| then []
    else
      var sub := TerminalSub(run.subs[RunningIndex(run.subs, e.id)], e);
      [SubRecent(session, run.runId, sub, if e.cancelled then "cancelled" else StatusText(sub.status))]
  }

  // ---------- the state ----------

  function EndedSub(sub: Sub, status: string, steps: map<string, nat>): Sub {
    sub.(step := if sub.id in steps then Max(sub.step, steps[sub.id]) else sub.step,
         status := if status == "cancelled" then Cancelled else Failed,
         detail := if status == "cancelled" then "stopped with the session" else "session closed")
  }

  function EndStatus(status: string): string {
    if status == "cancelled" then status else "error"
  }

  /** What `finish` publishes for the subs that still run, in their order. */
  function EndedSubs(
    session: string, runId: string, subs: seq<Sub>, status: string, steps: map<string, nat>
  ): seq<Recent> {
    if subs == [] then []
    else
      (if subs[0].status == Running
       then [SubRecent(session, runId, EndedSub(subs[0], status, steps), EndStatus(status))] else [])
      + EndedSubs(session, runId, subs[1..], status, steps)
  }

  function SessionRecent(session: string, run: ObservedRun, status: string): Recent {
    Recent(OfSession(session, run.runId), run.title, status, None)
  }

  function Published(session: string, run: ObservedRun, status: string, steps: map<string, nat>): seq<Recent> {
    EndedSubs(session, run.runId, run.subs, status, steps) + [SessionRecent(session, run, status)]
  }

  function Retitled(recent: seq<Recent>, session: string, title: string): seq<Recent> {
    if recent == [] then []
    else
      [if recent[0].id.OfSession? && recent[0].id.session == session then recent[0].(title := title) else recent[0]]
      + Retitled(recent[1..], session, title)
  }

  /** A new title changes no id and no place. */
  lemma {:induction false} RetitledKeepsIds(recent: seq<Recent>, session: string, title: string)
    ensures |Retitled(recent, session, title)| == |recent|
    ensures forall i | 0 <= i < |recent| :: Retitled(recent, session, title)[i].id == recent[i].id
  {
    if recent != [] {
      RetitledKeepsIds(recent[1..], session, title);
      assert recent == [recent[0]] + recent[1..];
    }
  }

  function Step(s: State, e: Event): State {
    match e
    case Begin(session, run, title) =>
      s.(runs := s.runs[session := ObservedRun(run, title, "", [], {}, map[], [])], revision := s.revision + 1)
    case Finish(session, run, status, steps) =>
      if session !in s.runs || s.runs[session].runId != run then s
      else State(s.revision + 1, s.runs - {session},
        PushedAll(s.recent, Published(session, s.runs[session], status, steps)))
    case RegisterSub(session, sub, parentRun) =>
      if session in s.runs && Some(s.runs[session].runId) == parentRun && IsRunning(s.runs[session], sub)
      then s.(runs := s.runs[session := s.runs[session].(subRuntimes := s.runs[session].subRuntimes + {sub})])
      else s
    case Title(session, title) =>
      State(s.revision + 1,
            if session in s.runs then s.runs[session := s.runs[session].(title := title)] else s.runs,
            Retitled(s.recent, session, title))
    case Observe(session, payloadRun, event) =>
      if session !in s.runs || (payloadRun.Some? && payloadRun.value != s.runs[session].runId) then s
      else
        var run := s.runs[session];
        var run' := RunAfter(run, event);
        if run'.None? then s
        else State(s.revision + 1, s.runs[session := run'.value],
          PushedAll(s.recent, TerminalRecents(session, run, event)))
    case Prune(session, run, title, sampled, valid) =>
      if session in s.runs && s.runs[session].runId == run then
        var r := s.runs[session];
        var asks := map a | a in r.asks && (a !in sampled || a in valid) :: r.asks[a];
        var changed := |asks| != |r.asks| || r.title != title;
        State(if changed then s.revision + 1 else s.revision,
              s.runs[session := r.(title := title, asks := asks)], s.recent)
      else s
  }

  function Run(s: State, events: seq<Event>): State
    decreases |events|
  {
    if events == [] then s else Run(Step(s, events[0]), events[1..])
  }

  // ---------- invariants ----------

  predicate Distinct<T(==)>(s: seq<T>) {
    forall i, j | 0 <= i < j < |s| :: s[i] != s[j]
  }

  predicate DistinctSubs(subs: seq<Sub>) {
    forall i, j | 0 <= i < j < |subs| :: subs[i].id != subs[j].id
  }

  /** The subs of a run that no longer run are exactly its remembered finished ids. */
  ghost predicate FinishedMatches(subs: seq<Sub>, finished: seq<string>) {
    && (forall sub | sub in subs && sub.status != Running :: sub.id in finished)
    && (forall id | id in finished :: exists sub | sub in subs :: sub.id == id && sub.status != Running)
  }

  ghost predicate RunOk(run: ObservedRun) {
    && DistinctSubs(run.subs)
    && Distinct(run.finished) && |run.finished| <= RECENT_LIMIT
    && FinishedMatches(run.subs, run.finished)
    && (forall id | id in run.subRuntimes :: IsRunning(run, id))
    && (forall a | a in run.asks && run.asks[a].Some? :: run.asks[a].value in run.subRuntimes)
  }

  function Reverse(s: seq<string>): (r: seq<string>)
    ensures |r| == |s| && forall i | 0 <= i < |s| :: r[i] == s[|s| - 1 - i]
  {
    if s == [] then [] else Reverse(s[1..]) + [s[0]]
  }

  /** The subs of one run that recent history shows, newest first. */
  function SubsShown(ids: seq<RecentId>, session: string, run: string): (r: seq<string>)
    ensures |r| <= |ids|
  {
    if ids == [] then []
    else
      (if ids[0].OfSub? && ids[0].session == session && ids[0].run == run then [ids[0].sub] else [])
      + SubsShown(ids[1..], session, run)
  }

  /** For a live run, recent history shows its latest finishers, in order, and not the run itself. */
  ghost predicate ShownOk(ids: seq<RecentId>, session: string, run: ObservedRun) {
    && SubsShown(ids, session, run.runId) <= Reverse(run.finished)
    && OfSession(session, run.runId) !in ids
  }

  ghost predicate Inv(s: State) {
    && |s.recent| <= RECENT_LIMIT && Distinct(Ids(s.recent))
    && forall session | session in s.runs ::
         RunOk(s.runs[session]) && ShownOk(Ids(s.recent), session, s.runs[session])
  }

  /** A run id is new to the history when it begins: the host generates one per run. */
  predicate FreshRun(s: State, e: Event) {
    e.Begin? ==>
      && OfSession(e.session, e.run) !in Ids(s.recent)
      && SubsShown(Ids(s.recent), e.session, e.run) == []
  }

  // ---------- history ----------

  lemma {:induction false} ShownPrefix(ids: seq<RecentId>, n: nat, session: string, run: string)
    requires n <= |ids|
    ensures SubsShown(ids[..n], session, run) <= SubsShown(ids, session, run)
  {
    if n > 0 {
      ShownPrefix(ids[1..], n - 1, session, run);
      assert ids[..n][1..] == ids[1..][..n - 1];
    }
  }

  lemma {:induction false} ShownHas(ids: seq<RecentId>, session: string, run: string, sub: string)
    ensures OfSub(session, run, sub) in ids <==> sub in SubsShown(ids, session, run)
  {
    if ids != [] {
      ShownHas(ids[1..], session, run, sub);
      assert ids == [ids[0]] + ids[1..];
    }
  }

  predicate About(id: RecentId, session: string, run: string) {
    id.session == session && id.run == run
  }

  lemma {:induction false} PushedIds(recent: seq<Recent>, item: Recent)
    requires |recent| <= RECENT_LIMIT && Distinct(Ids(recent))
    ensures var r := Pushed(recent, item);
      && |r| <= RECENT_LIMIT && Distinct(Ids(r))
      && (item.id in Ids(recent) ==> r == recent)
      && (item.id !in Ids(recent) ==>
           && r == Truncate([item] + recent) && |r| >= 1 && r[0] == item
           && Ids(r) == ([item.id] + Ids(recent))[..|r|])
  {
  }

  /** Publishing something about another run keeps what the history shows of this one. */
  lemma {:induction false} PushOther(recent: seq<Recent>, item: Recent, session: string, run: ObservedRun)
    requires |recent| <= RECENT_LIMIT && Distinct(Ids(recent))
    requires ShownOk(Ids(recent), session, run) && !About(item.id, session, run.runId)
    ensures ShownOk(Ids(Pushed(recent, item)), session, run)
  {
    PushedIds(recent, item);
    var ids, ids' := Ids(recent), Ids(Pushed(recent, item));
    if ids' != ids {
      var all := [item.id] + ids;
      ShownPrefix(all, |ids'|, session, run.runId);
      assert all[1..] == ids;
    }
  }

  lemma {:induction false} PushAllOther(recent: seq<Recent>, items: seq<Recent>, session: string, run: ObservedRun)
    requires |recent| <= RECENT_LIMIT && Distinct(Ids(recent))
    requires ShownOk(Ids(recent), session, run)
    requires forall i | 0 <= i < |items| :: !About(items[i].id, session, run.runId)
    ensures ShownOk(Ids(PushedAll(recent, items)), session, run)
    decreases |items|
  {
    if items != [] {
      PushOther(recent, items[0], session, run);
      PushedIds(recent, items[0]);
      PushAllOther(Pushed(recent, items[0]), items[1..], session, run);
    }
  }

  lemma {:induction false} PushAllBounded(recent: seq<Recent>, items: seq<Recent>)
    requires |recent| <= RECENT_LIMIT && Distinct(Ids(recent))
    ensures |PushedAll(recent, items)| <= RECENT_LIMIT && Distinct(Ids(PushedAll(recent, items)))
    decreases |items|
  {
    if items != [] {
      PushedIds(recent, items[0]);
      PushAllBounded(Pushed(recent, items[0]), items[1..]);
    }
  }

  /**
   * A sub that finishes is shown first, and the 51st finisher leaves the history no later than it
   * leaves the run's own list.
   */
  lemma {:induction false} PushOwn(
    recent: seq<Recent>, item: Recent, session: string, runId: string, finished: seq<string>, id: string
  )
    requires |recent| <= RECENT_LIMIT && Distinct(Ids(recent))
    requires SubsShown(Ids(recent), session, runId) <= Reverse(finished)
    requires id !in finished && item.id == OfSub(session, runId, id) && |finished| <= RECENT_LIMIT
    ensures item.id !in Ids(recent)
    ensures var all := finished + [id];
      SubsShown(Ids(Pushed(recent, item)), session, runId)
      <= Reverse(if |all| > RECENT_LIMIT then all[1..] else all)
  {
    var shown := SubsShown(Ids(recent), session, runId);
    ShownHas(Ids(recent), session, runId, id);
    assert id !in shown by {
      forall i | 0 <= i < |shown| ensures shown[i] != id {
        assert shown[i] == Reverse(finished)[i];
      }
    }
    PushedIds(recent, item);
    var ids' := Ids(Pushed(recent, item));
    var longer := [item.id] + Ids(recent);
    ShownPrefix(longer, |ids'|, session, runId);
    assert longer[1..] == Ids(recent);
    assert SubsShown(longer, session, runId) == [id] + shown;
    var all := finished + [id];
    assert [id] + shown <= Reverse(all);
    var kept := if |all| > RECENT_LIMIT then all[1..] else all;
    assert Reverse(kept) == Reverse(all)[..|kept|];
  }

  // ---------- runs ----------

  lemma {:induction false} WithoutSubHas(subs: seq<Sub>, id: string, sub: Sub)
    ensures sub in WithoutSub(subs, id) <==> sub in subs && sub.id != id
  {
    if subs != [] {
      WithoutSubHas(subs[1..], id, sub);
      assert subs == [subs[0]] + subs[1..];
    }
  }

  lemma {:induction false} WithoutSubDistinct(subs: seq<Sub>, id: string)
    requires DistinctSubs(subs)
    ensures DistinctSubs(WithoutSub(subs, id))
  {
    if subs != [] {
      WithoutSubDistinct(subs[1..], id);
      forall sub | sub in WithoutSub(subs[1..], id) ensures sub.id != subs[0].id {
        WithoutSubHas(subs[1..], id, sub);
        var j :| 0 <= j < |subs[1..]| && subs[1..][j] == sub;
        assert subs[j + 1] == sub;
      }
    }
  }

  lemma {:induction false} SameIdSameSub(subs: seq<Sub>, x: Sub, y: Sub)
    requires DistinctSubs(subs) && x in subs && y in subs && x.id == y.id
    ensures x == y
  {
  }

  lemma {:induction false} UpdatedHas(subs: seq<Sub>, i: nat, sub: Sub, x: Sub)
    requires i < |subs| && DistinctSubs(subs) && sub.id == subs[i].id
    ensures x in subs[i := sub] <==> x == sub || (x in subs && x.id != sub.id)
    ensures DistinctSubs(subs[i := sub])
  {
    var new_ := subs[i := sub];
    if x in new_ {
      var k :| 0 <= k < |new_| && new_[k] == x;
    }
    if x in subs && x.id != sub.id {
      var k :| 0 <= k < |subs| && subs[k] == x;
      assert new_[k] == x;
    }
    assert new_[i] == sub;
  }

  lemma {:induction false} UpdateRunning(run: ObservedRun, i: nat, sub: Sub)
    requires RunOk(run) && i < |run.subs| && run.subs[i].status == Running
    requires sub.id == run.subs[i].id && sub.status == Running
    ensures RunOk(run.(subs := run.subs[i := sub]))
  {
    forall x ensures x in run.subs[i := sub] <==> x == sub || (x in run.subs && x.id != sub.id) {
      UpdatedHas(run.subs, i, sub, x);
    }
    UpdatedHas(run.subs, i, sub, sub);
    assert sub.id !in run.finished by {
      NotFinished(run, run.subs[i]);
    }
  }

  lemma {:induction false} NotFinished(run: ObservedRun, sub: Sub)
    requires RunOk(run) && sub in run.subs && sub.status == Running
    ensures sub.id !in run.finished
  {
    forall x | x in run.subs && x.id == sub.id ensures x == sub {
      SameIdSameSub(run.subs, sub, x);
    }
  }

  lemma {:induction false} FinishOne(subs: seq<Sub>, finished: seq<string>, i: nat, sub: Sub)
    requires DistinctSubs(subs) && FinishedMatches(subs, finished)
    requires i < |subs| && subs[i].status == Running && sub.id == subs[i].id && sub.status != Running
    ensures FinishedMatches(subs[i := sub], finished + [sub.id])
  {
    forall x ensures x in subs[i := sub] <==> x == sub || (x in subs && x.id != sub.id) {
      UpdatedHas(subs, i, sub, x);
    }
    forall x | x in subs && x.id == sub.id ensures x == subs[i] {
      SameIdSameSub(subs, x, subs[i]);
    }
    assert sub in subs[i := sub];
    forall id | id in finished
      ensures exists x | x in subs[i := sub] :: x.id == id && x.status != Running
    {
      var x :| x in subs && x.id == id && x.status != Running;
      assert x in subs[i := sub];
    }
  }

  lemma {:induction false} DropOldest(subs: seq<Sub>, finished: seq<string>)
    requires DistinctSubs(subs) && FinishedMatches(subs, finished) && Distinct(finished) && finished != []
    ensures FinishedMatches(WithoutSub(subs, finished[0]), finished[1..])
    ensures forall x | x in subs && x.status == Running :: x in WithoutSub(subs, finished[0])
  {
    forall x ensures x in WithoutSub(subs, finished[0]) <==> x in subs && x.id != finished[0] {
      WithoutSubHas(subs, finished[0], x);
    }
    assert finished == [finished[0]] + finished[1..];
    assert finished[0] !in finished[1..];
    assert finished[0] in finished;
    forall x | x in subs && x.status == Running ensures x.id != finished[0] {
      var y :| y in subs && y.id == finished[0] && y.status != Running;
      if x.id == finished[0] {
        SameIdSameSub(subs, x, y);
      }
    }
    forall id | id in finished[1..]
      ensures exists x | x in WithoutSub(subs, finished[0]) :: x.id == id && x.status != Running
    {
      assert id in finished && id != finished[0];
      var x :| x in subs && x.id == id && x.status != Running;
    }
  }

  lemma {:induction false} RetireKeepsRunning(run: ObservedRun, i: nat, sub: Sub)
    requires RunOk(run) && i < |run.subs| && run.subs[i].status == Running
    requires sub.id == run.subs[i].id && sub.status != Running
    ensures RunOk(Retire(run.(subs := run.subs[i := sub]), sub.id))
  {
    var subs := run.subs[i := sub];
    var finished := run.finished + [sub.id];
    var r := Retire(run.(subs := subs), sub.id);
    NotFinished(run, run.subs[i]);
    UpdatedHas(run.subs, i, sub, sub);
    FinishOne(run.subs, run.finished, i, sub);
    if |finished| > RECENT_LIMIT {
      DropOldest(subs, finished);
      WithoutSubDistinct(subs, finished[0]);
    }
    forall id | id in r.subRuntimes ensures IsRunning(r, id) {
      assert IsRunning(run, id);
      var x :| x in run.subs && x.id == id && x.status == Running;
      UpdatedHas(run.subs, i, sub, x);
    }
  }

  lemma {:induction false} SpawnKeeps(run: ObservedRun, id: string, title: string)
    requires RunOk(run) && IndexOf(run.subs, id) == |run.subs|
    ensures RunOk(run.(subs := run.subs + [Sub(id, title, 0, "", Running, None, None)]))
  {
    var run' := run.(subs := run.subs + [Sub(id, title, 0, "", Running, None, None)]);
    forall x | x in run.subs ensures x in run'.subs {}
    forall id | id in run.subRuntimes ensures IsRunning(run', id) {
      assert IsRunning(run, id);
    }
  }

  lemma {:induction false} RunAfterKeeps(run: ObservedRun, e: RunEvent)
    requires RunOk(run) && RunAfter(run, e).Some?
    ensures RunOk(RunAfter(run, e).value) && RunAfter(run, e).value.runId == run.runId
    ensures !Terminal(e) ==> RunAfter(run, e).value.finished == run.finished
  {
    match e
    case SubSpawn(spawned, title) => SpawnKeeps(run, spawned.value, title);
    case SubStep(id, step, detail) =>
      var i := RunningIndex(run.subs, id);
      UpdateRunning(run, i, run.subs[i].(step := Max(run.subs[i].step, step), detail := detail));
    case SubReport(id, report) =>
      var i := RunningIndex(run.subs, id);
      UpdateRunning(run, i, run.subs[i].(report := Some(report)));
    case SubDone(id, _, _, _) =>
      var i := RunningIndex(run.subs, id);
      RetireKeepsRunning(run, i, TerminalSub(run.subs[i], e));
    case SubError(id, _, _, _, _) =>
      var i := RunningIndex(run.subs, id);
      RetireKeepsRunning(run, i, TerminalSub(run.subs[i], e));
    case Doing(_) => KeepsRunning(run, RunAfter(run, e).value);
    case AskOpened(_, _) => KeepsRunning(run, RunAfter(run, e).value);
    case AskClosed(_) => KeepsRunning(run, RunAfter(run, e).value);
    case Unknown =>
  }

  lemma {:induction false} KeepsRunning(run: ObservedRun, run': ObservedRun)
    requires RunOk(run) && run'.subs == run.subs && run'.finished == run.finished && run'.subRuntimes == run.subRuntimes
    requires forall a | a in run'.asks && run'.asks[a].Some? :: run'.asks[a].value in run.subRuntimes
    ensures RunOk(run')
  {
    forall id | id in run'.subRuntimes ensures IsRunning(run', id) {
      assert IsRunning(run, id);
    }
  }

  // ---------- the state ----------

  lemma {:induction false} ObserveKeepsInv(s: State, session: string, e: RunEvent)
    requires Inv(s) && session in s.runs && RunAfter(s.runs[session], e).Some?
    ensures Inv(State(s.revision + 1, s.runs[session := RunAfter(s.runs[session], e).value],
                      PushedAll(s.recent, TerminalRecents(session, s.runs[session], e))))
  {
    var run := s.runs[session];
    var run' := RunAfter(run, e).value;
    var items := TerminalRecents(session, run, e);
    RunAfterKeeps(run, e);
    PushAllBounded(s.recent, items);
    forall other | other in s.runs && other != session
      ensures ShownOk(Ids(PushedAll(s.recent, items)), other, s.runs[other])
    {
      PushAllOther(s.recent, items, other, s.runs[other]);
    }
    ShownAfter(s.recent, session, run, e);
    hide RunAfter, RunOk, ShownOk, PushedAll, TerminalRecents;
  }

  lemma {:induction false} ShownAfter(recent: seq<Recent>, session: string, run: ObservedRun, e: RunEvent)
    requires |recent| <= RECENT_LIMIT && Distinct(Ids(recent))
    requires RunOk(run) && ShownOk(Ids(recent), session, run) && RunAfter(run, e).Some?
    ensures ShownOk(Ids(PushedAll(recent, TerminalRecents(session, run, e))), session, RunAfter(run, e).value)
  {
    if Terminal(e) {
      ShownAfterTerminal(recent, session, run, e);
    } else {
      RunAfterKeeps(run, e);
    }
  }

  lemma {:induction false} ShownAfterTerminal(recent: seq<Recent>, session: string, run: ObservedRun, e: RunEvent)
    requires |recent| <= RECENT_LIMIT && Distinct(Ids(recent))
    requires RunOk(run) && ShownOk(Ids(recent), session, run) && RunAfter(run, e).Some? && Terminal(e)
    ensures ShownOk(Ids(PushedAll(recent, TerminalRecents(session, run, e))), session, RunAfter(run, e).value)
  {
    TerminalShape(session, run, e);
    hide RunOk, RunAfter, TerminalRecents, Pushed, SubsShown, Reverse;
    var item := TerminalRecents(session, run, e)[0];
    PushOwn(recent, item, session, run.runId, run.finished, e.id);
    PushedIds(recent, item);
    PushOne(recent, item);
    assert OfSession(session, run.runId) !in ([item.id] + Ids(recent));
  }

  lemma {:induction false} TerminalShape(session: string, run: ObservedRun, e: RunEvent)
    requires RunOk(run) && Terminal(e) && RunAfter(run, e).Some?
    ensures var run', all := RunAfter(run, e).value, run.finished + [e.id];
      && run'.runId == run.runId && e.id !in run.finished && |run.finished| <= RECENT_LIMIT
      && run'.finished == (if |all| > RECENT_LIMIT then all[1..] else all)
    ensures var items := TerminalRecents(session, run, e);
      |items| == 1 && items == [items[0]] && items[0].id == OfSub(session, run.runId, e.id)
  {
    NotFinished(run, run.subs[RunningIndex(run.subs, e.id)]);
  }

  lemma {:induction false} PushOne(recent: seq<Recent>, item: Recent)
    ensures PushedAll(recent, [item]) == Pushed(recent, item)
  {
    assert [item][1..] == [];
  }

  lemma {:induction false} EndedSubsAbout(
    session: string, runId: string, subs: seq<Sub>, status: string, steps: map<string, nat>
  )
    ensures forall x | x in EndedSubs(session, runId, subs, status, steps) ::
      x.id.OfSub? && x.id.session == session && x.id.run == runId
  {
    if subs != [] {
      EndedSubsAbout(session, runId, subs[1..], status, steps);
    }
  }

  lemma {:induction false} FinishKeepsInv(s: State, session: string, status: string, steps: map<string, nat>)
    requires Inv(s) && session in s.runs
    ensures Inv(State(s.revision + 1, s.runs - {session},
                      PushedAll(s.recent, Published(session, s.runs[session], status, steps))))
  {
    var run := s.runs[session];
    var items := Published(session, run, status, steps);
    EndedSubsAbout(session, run.runId, run.subs, status, steps);
    assert forall x | x in items :: x.id.session == session;
    hide EndedSubs, RunOk, ShownOk, PushedAll, Published;
    PushAllBounded(s.recent, items);
    assert forall i | 0 <= i < |items| :: items[i] in items;
    forall other | other in s.runs && other != session
      ensures ShownOk(Ids(PushedAll(s.recent, items)), other, s.runs[other])
    {
      PushAllOther(s.recent, items, other, s.runs[other]);
    }
  }

  lemma {:induction false} RegisterKeeps(run: ObservedRun, sub: string)
    requires RunOk(run) && IsRunning(run, sub)
    ensures RunOk(run.(subRuntimes := run.subRuntimes + {sub}))
  {
    var run' := run.(subRuntimes := run.subRuntimes + {sub});
    forall id | id in run'.subRuntimes ensures IsRunning(run', id) {
      assert IsRunning(run, id);
    }
  }

  /** A run may be replaced by one that is sound and shows the same. */
  lemma {:induction false} PutRunKeeps(s: State, session: string, run: ObservedRun, revision: nat)
    requires Inv(s) && session in s.runs && RunOk(run)
    requires run.runId == s.runs[session].runId && run.finished == s.runs[session].finished
    ensures Inv(State(revision, s.runs[session := run], s.recent))
  {
    hide RunOk, Ids, SubsShown, Distinct;
  }

  lemma {:induction false} TitleKeepsInv(s: State, session: string, title: string)
    requires Inv(s)
    ensures Inv(Step(s, Title(session, title)))
  {
    RetitledKeepsIds(s.recent, session, title);
    assert Ids(Retitled(s.recent, session, title)) == Ids(s.recent);
    if session in s.runs {
      KeepsRunning(s.runs[session], s.runs[session].(title := title));
      PutRunKeeps(s, session, s.runs[session].(title := title), s.revision + 1);
    }
    hide RunOk, Ids, SubsShown, Retitled, Distinct;
  }

  lemma {:induction false} StepKeepsInv(s: State, e: Event)
    requires Inv(s) && FreshRun(s, e)
    ensures Inv(Step(s, e))
  {
    match e
    case Begin(session, run, title) => BeginKeepsInv(s, session, run, title);
    case Finish(session, run, status, steps) =>
      hide Inv;
      if session in s.runs && s.runs[session].runId == run {
        FinishKeepsInv(s, session, status, steps);
      }
    case RegisterSub(session, sub, parentRun) =>
      if session in s.runs && IsRunning(s.runs[session], sub) {
        RegisterKeeps(s.runs[session], sub);
        hide Inv, RunOk;
        PutRunKeeps(s, session, s.runs[session].(subRuntimes := s.runs[session].subRuntimes + {sub}), s.revision);
      }
    case Title(session, title) => TitleKeepsInv(s, session, title);
    case Observe(session, payloadRun, event) =>
      hide Inv;
      if session in s.runs && RunAfter(s.runs[session], event).Some? {
        ObserveKeepsInv(s, session, event);
      }
    case Prune(session, run, title, sampled, valid) =>
      if session in s.runs {
        var r := s.runs[session];
        var r' := r.(title := title, asks := map a | a in r.asks && (a !in sampled || a in valid) :: r.asks[a]);
        KeepsRunning(r, r');
        hide RunOk;
        PutRunKeeps(s, session, r', Step(s, e).revision);
        PutRunKeeps(s, session, r, s.revision);
        hide Inv;
      }
  }

  lemma {:induction false} BeginKeepsInv(s: State, session: string, run: string, title: string)
    requires Inv(s) && FreshRun(s, Event.Begin(session, run, title))
    ensures Inv(Step(s, Event.Begin(session, run, title)))
  {
    hide Ids;
  }

  ghost predicate FreshRuns(s: State, events: seq<Event>)
    decreases |events|
  {
    events == [] || (FreshRun(s, events[0]) && FreshRuns(Step(s, events[0]), events[1..]))
  }

  lemma {:induction false} RunKeepsInv(s: State, events: seq<Event>)
    requires Inv(s) && FreshRuns(s, events)
    ensures Inv(Run(s, events))
    decreases |events|
  {
    if events != [] {
      StepKeepsInv(s, events[0]);
      RunKeepsInv(Step(s, events[0]), events[1..]);
    }
  }

  /**
   * Every reachable state: the history has at most 50 entries with distinct ids, and of each live run exactly the
   * remembered finishers, at most 50, are subs that no longer run.
   */
  lemma {:induction false} EveryHistory(events: seq<Event>)
    requires FreshRuns(EMPTY, events)
    ensures var s := Run(EMPTY, events);
      && |s.recent| <= 50 && (forall i, j | 0 <= i < j < |s.recent| :: s.recent[i].id != s.recent[j].id)
      && forall session | session in s.runs ::
           var run := s.runs[session];
           && |run.finished| <= 50 && Distinct(run.finished) && DistinctSubs(run.subs)
           && (forall sub | sub in run.subs :: sub.status != Running <==> sub.id in run.finished)
           && (forall id | id in run.finished :: exists sub | sub in run.subs :: sub.id == id)
  {
    RunKeepsInv(EMPTY, events);
    var s := Run(EMPTY, events);
    hide Run, FreshRuns, ShownOk;
    assert forall i | 0 <= i < |s.recent| :: Ids(s.recent)[i] == s.recent[i].id;
    forall session, sub | session in s.runs && sub in s.runs[session].subs && sub.id in s.runs[session].finished
      ensures sub.status != Running
    {
      var run := s.runs[session];
      var other :| other in run.subs && other.id == sub.id && other.status != Running;
      SameIdSameSub(run.subs, sub, other);
    }
  }

  // ---------- what is published ----------

  function ReverseItems(items: seq<Recent>): (r: seq<Recent>)
    ensures |r| == |items|
  {
    if items == [] then [] else ReverseItems(items[1..]) + [items[0]]
  }

  lemma {:induction false} TruncateTwice(front: seq<Recent>, back: seq<Recent>)
    ensures Truncate(front + Truncate(back)) == Truncate(front + back)
  {
  }

  /** Items that are new to the history are all published, the last one first. */
  lemma {:induction false} NewItemsAreAllShown(recent: seq<Recent>, items: seq<Recent>)
    requires |recent| <= RECENT_LIMIT && Distinct(Ids(recent)) && Distinct(Ids(items))
    requires forall i | 0 <= i < |items| :: items[i].id !in Ids(recent)
    ensures PushedAll(recent, items) == Truncate(ReverseItems(items) + recent)
    decreases |items|
  {
    if items == [] {
      assert ReverseItems(items) + recent == recent;
    } else {
      var head, tail := items[0], items[1..];
      var recent' := Pushed(recent, head);
      PushedIds(recent, head);
      forall i | 0 <= i < |tail| ensures tail[i].id !in Ids(recent') {
        assert tail[i] == items[i + 1];
        assert Ids(items)[0] != Ids(items)[i + 1];
      }
      forall i, j | 0 <= i < j < |tail| ensures Ids(tail)[i] != Ids(tail)[j] {
        assert Ids(items)[i + 1] != Ids(items)[j + 1];
      }
      NewItemsAreAllShown(recent', tail);
      TruncateTwice(ReverseItems(tail), [head] + recent);
      assert ReverseItems(tail) + ([head] + recent) == ReverseItems(items) + recent;
    }
  }

  lemma {:induction false} EndedSubsExact(session: string, runId: string, subs: seq<Sub>, status: string,
                                          steps: map<string, nat>)
    requires DistinctSubs(subs)
    ensures var ended := EndedSubs(session, runId, subs, status, steps);
      && Distinct(Ids(ended))
      && (forall x | x in ended ::
           exists sub | sub in subs && sub.status == Running ::
             x == SubRecent(session, runId, EndedSub(sub, status, steps), EndStatus(status)))
      && (forall sub | sub in subs && sub.status == Running ::
           SubRecent(session, runId, EndedSub(sub, status, steps), EndStatus(status)) in ended)
  {
    if subs != [] {
      EndedSubsExact(session, runId, subs[1..], status, steps);
      var rest := EndedSubs(session, runId, subs[1..], status, steps);
      forall x | x in rest ensures x.id != OfSub(session, runId, subs[0].id) {
        var sub :| sub in subs[1..] && sub.status == Running
          && x == SubRecent(session, runId, EndedSub(sub, status, steps), EndStatus(status));
        var j :| 0 <= j < |subs[1..]| && subs[1..][j] == sub;
        assert subs[j + 1] == sub;
      }
      DistinctCons(SubRecent(session, runId, EndedSub(subs[0], status, steps), EndStatus(status)), rest);
      assert [] + rest == rest;
    }
  }

  lemma {:induction false} DistinctCons(first: Recent, rest: seq<Recent>)
    requires Distinct(Ids(rest)) && forall x | x in rest :: x.id != first.id
    ensures Distinct(Ids([first] + rest))
  {
    assert Ids([first] + rest) == [first.id] + Ids(rest);
    assert forall i | 0 <= i < |rest| :: rest[i] in rest && Ids(rest)[i] != first.id;
    hide Ids;
  }

  /** Nothing the history shows of a live run can hide one of its running subs, or the run itself. */
  lemma {:induction false} RunningNotShown(s: State, session: string, sub: Sub)
    requires Inv(s) && session in s.runs && sub in s.runs[session].subs && sub.status == Running
    ensures OfSub(session, s.runs[session].runId, sub.id) !in Ids(s.recent)
  {
    var run := s.runs[session];
    assert RunOk(run) && ShownOk(Ids(s.recent), session, run);
    NotFinished(run, sub);
    var shown := SubsShown(Ids(s.recent), session, run.runId);
    ShownHas(Ids(s.recent), session, run.runId, sub.id);
    forall i | 0 <= i < |shown| ensures shown[i] != sub.id {
      assert shown[i] == Reverse(run.finished)[i];
    }
  }

  /** What a finished run publishes: its still-running subs, each as ended, and then the session; all of it new. */
  lemma {:induction false} PublishedExactly(s: State, session: string, status: string, steps: map<string, nat>)
    requires Inv(s) && session in s.runs
    ensures var run := s.runs[session];
      var items := Published(session, run, status, steps);
      && Distinct(Ids(items)) && (forall x | x in items :: x.id !in Ids(s.recent))
      && (forall sub | sub in run.subs && sub.status == Running ::
           SubRecent(session, run.runId, EndedSub(sub, status, steps), EndStatus(status)) in items)
      && (forall x | x in items ::
           x == SessionRecent(session, run, status)
           || exists sub | sub in run.subs && sub.status == Running ::
                x == SubRecent(session, run.runId, EndedSub(sub, status, steps), EndStatus(status)))
  {
    var run := s.runs[session];
    assert RunOk(run) && ShownOk(Ids(s.recent), session, run);
    var ended, last := EndedSubs(session, run.runId, run.subs, status, steps), SessionRecent(session, run, status);
    EndedSubsExact(session, run.runId, run.subs, status, steps);
    forall x | x in ended ensures x.id !in Ids(s.recent) && x.id.OfSub? {
      var sub :| sub in run.subs && sub.status == Running
        && x == SubRecent(session, run.runId, EndedSub(sub, status, steps), EndStatus(status));
      RunningNotShown(s, session, sub);
    }
    assert last.id.OfSession? && last.id !in Ids(s.recent);
    hide RunOk, ShownOk, EndedSubs, SubRecent, SessionRecent, EndedSub, Inv;
    DistinctAppend(ended, last);
  }

  lemma {:induction false} DistinctAppend(items: seq<Recent>, last: Recent)
    requires Distinct(Ids(items)) && forall x | x in items :: x.id != last.id
    ensures Distinct(Ids(items + [last]))
  {
    assert Ids(items + [last]) == Ids(items) + [last.id];
    assert forall i | 0 <= i < |items| :: items[i] in items && Ids(items)[i] != last.id;
    hide Ids;
  }

  /**
   * Finishing a run publishes exactly its still-running subs and then the session, all of them new, and forgets the
   * run. Up to the size of the history nothing is dropped.
   */
  lemma {:induction false} FinishPublishes(s: State, session: string, status: string, steps: map<string, nat>)
    requires Inv(s) && session in s.runs
    ensures var run := s.runs[session];
      var items := Published(session, run, status, steps);
      var s' := Step(s, Finish(session, run.runId, status, steps));
      && session !in s'.runs
      && s'.recent == Truncate(ReverseItems(items) + s.recent)
      && Distinct(Ids(items)) && (forall x | x in items :: x.id !in Ids(s.recent))
      && (forall sub | sub in run.subs && sub.status == Running ::
           SubRecent(session, run.runId, EndedSub(sub, status, steps), EndStatus(status)) in items)
      && (forall x | x in items ::
           x == SessionRecent(session, run, status)
           || exists sub | sub in run.subs && sub.status == Running ::
                x == SubRecent(session, run.runId, EndedSub(sub, status, steps), EndStatus(status)))
  {
    PublishedExactly(s, session, status, steps);
    assert |s.recent| <= RECENT_LIMIT && Distinct(Ids(s.recent));
    hide Inv, Published, SubRecent, SessionRecent, EndedSub;
    NewItemsAreAllShown(s.recent, Published(session, s.runs[session], status, steps));
    hide PushedAll, ReverseItems, Truncate;
  }

  lemma {:induction false} TerminalNamesRunningSub(run: ObservedRun, e: RunEvent)
    requires Terminal(e) && RunAfter(run, e).Some?
    ensures var i := RunningIndex(run.subs, e.id);
      i < |run.subs| && run.subs[i].status == Running && run.subs[i].id == e.id
  {
  }

  lemma {:induction false} ObserveRecent(s: State, session: string, e: RunEvent)
    requires session in s.runs && RunAfter(s.runs[session], e).Some?
    ensures Step(s, Observe(session, None, e)).recent ==
      PushedAll(s.recent, TerminalRecents(session, s.runs[session], e))
  {
    hide RunAfter, TerminalRecents, PushedAll;
  }

  /** A sub's terminal event is published at once: no earlier entry can swallow it. */
  lemma {:induction false} TerminalIsPublished(s: State, session: string, e: RunEvent)
    requires Inv(s) && session in s.runs && Terminal(e) && RunAfter(s.runs[session], e).Some?
    ensures var items := TerminalRecents(session, s.runs[session], e);
      && |items| == 1
      && var recent := Step(s, Observe(session, None, e)).recent;
         |recent| >= 1 && recent[0] == items[0] && recent == Truncate(items + s.recent)
  {
    var run := s.runs[session];
    assert RunOk(run) && ShownOk(Ids(s.recent), session, run);
    TerminalNamesRunningSub(run, e);
    TerminalShape(session, run, e);
    var items := TerminalRecents(session, run, e);
    assert |s.recent| <= RECENT_LIMIT && Distinct(Ids(s.recent));
    ObserveRecent(s, session, e);
    hide RunOk, ShownOk, RunAfter, TerminalRecents, RunningIndex, Inv, Terminal, Step, PushedAll;
    RunningNotShown(s, session, run.subs[RunningIndex(run.subs, e.id)]);
    PushOne(s.recent, items[0]);
    PushedIds(s.recent, items[0]);
    assert items + s.recent == [items[0]] + s.recent;
  }

  lemma {:induction false} EndedSubRun(session: string, run: ObservedRun, e: RunEvent, i: nat)
    requires Terminal(e) && i == RunningIndex(run.subs, e.id) && i < |run.subs|
    ensures RunAfter(run, e) == Some(Retire(run.(subs := run.subs[i := TerminalSub(run.subs[i], e)]), e.id))
    ensures Retire(run.(subs := run.subs[i := TerminalSub(run.subs[i], e)]), e.id).runId == run.runId
    ensures var sub := TerminalSub(run.subs[i], e);
      TerminalRecents(session, run, e) ==
        [SubRecent(session, run.runId, sub, if e.cancelled then "cancelled" else StatusText(sub.status))]
  {
    hide RunningIndex, TerminalSub, WithoutSub, SubRecent;
  }

  lemma {:induction false} TerminalStep(s: State, session: string, e: RunEvent)
    requires session in s.runs && Terminal(e)
    ensures var run := s.runs[session];
      Step(s, Event.Observe(session, None, e)) ==
        if RunningIndex(run.subs, e.id) == |run.subs| then s
        else State(s.revision + 1, s.runs[session := RunAfter(run, e).value],
                   PushedAll(s.recent, TerminalRecents(session, run, e)))
    ensures RunningIndex(s.runs[session].subs, e.id) < |s.runs[session].subs| ==> RunAfter(s.runs[session], e).Some?
  {
    hide RunningIndex, TerminalSub, Retire, TerminalRecents, PushedAll;
  }

  /** A finished sub leaves its runtime and questions behind; the oldest of 51 finishers leaves the run. */
  method RetireSub(run: ObservedRun, id: string) returns (r: ObservedRun)
    ensures r == Retire(run, id)
  {
    r := run.(subRuntimes := run.subRuntimes - {id},
              asks := map a | a in run.asks && run.asks[a] != Some(id) :: run.asks[a],
              finished := run.finished + [id]);
    if |r.finished| > RECENT_LIMIT {
      r := r.(subs := WithoutSub(r.subs, r.finished[0]), finished := r.finished[1..]);
    }
  }

  // ---------- the object ----------

  class ActivityState {
    var revision: nat
    var runs: map<string, ObservedRun>
    var recent: seq<Recent>

    ghost function Contents(): State
      reads this
    {
      State(revision, runs, recent)
    }

    constructor ()
      ensures Contents() == EMPTY
    {
      revision, runs, recent := 0, map[], [];
    }

    method PushRecent(item: Recent)
      modifies this`recent
      ensures recent == Pushed(old(recent), item)
    {
      for i := 0 to |recent|
        invariant forall j | 0 <= j < i :: recent[j].id != item.id
        invariant recent == old(recent)
      {
        if recent[i].id == item.id {
          assert Ids(recent)[i] == item.id;
          return;
        }
      }
      assert item.id !in Ids(recent);
      recent := [item] + recent;
      if |recent| > RECENT_LIMIT {
        recent := recent[..RECENT_LIMIT];
      }
    }

    /** `begin`, for a main session. */
    method Begin(session: string, run: string, title: string)
      modifies this
      ensures Contents() == Step(old(Contents()), Event.Begin(session, run, title))
    {
      runs := runs[session := ObservedRun(run, title, "", [], {}, map[], [])];
      revision := revision + 1;
    }

    /** One sub that is still running when its run finishes. */
    method PublishSub(session: string, run: string, running: Sub, status: string, steps: map<string, nat>)
      modifies this`recent
      ensures recent ==
        Pushed(old(recent), SubRecent(session, run, EndedSub(running, status, steps), EndStatus(status)))
    {
      var sub := running;
      if sub.id in steps && steps[sub.id] > sub.step {
        sub := sub.(step := steps[sub.id]);
      }
      sub := if status == "cancelled" then sub.(status := Cancelled, detail := "stopped with the session")
             else sub.(status := Failed, detail := "session closed");
      PushRecent(SubRecent(session, run, sub, if status == "cancelled" then status else "error"));
    }

    method Finish(session: string, run: string, status: string, steps: map<string, nat>)
      modifies this
      ensures Contents() == Step(old(Contents()), Event.Finish(session, run, status, steps))
    {
      if session !in runs || runs[session].runId != run {
        return;
      }
      var ended := runs[session];
      runs := runs - {session};
      hide PushedAll, Pushed, EndedSubs;
      PublishSubs(session, run, ended.subs, status, steps, SessionRecent(session, ended, status));
      PushRecent(Recent(OfSession(session, run), ended.title, status, None));
      revision := revision + 1;
    }

    /** All subs that are still running; `last` is what will be published after them. */
    method PublishSubs(
      session: string, run: string, subs: seq<Sub>, status: string, steps: map<string, nat>, ghost last: Recent
    )
      modifies this`recent
      ensures Pushed(recent, last) == PushedAll(old(recent), EndedSubs(session, run, subs, status, steps) + [last])
    {
      hide PushedAll, Pushed, EndedSubs, SubRecent, EndedSub, EndStatus;
      var i := 0;
      assert subs[0..] == subs;
      while i < |subs|
        invariant 0 <= i <= |subs|
        invariant PushedAll(old(recent), EndedSubs(session, run, subs, status, steps) + [last]) ==
          PushedAll(recent, EndedSubs(session, run, subs[i..], status, steps) + [last])
      {
        EndedStep(session, run, subs, i, status, steps, recent, last);
        if subs[i].status == Running {
          PublishSub(session, run, subs[i], status, steps);
        }
        i := i + 1;
      }
      EndedNone(session, run, subs[i..], status, steps, recent, last);
    }

    method RegisterSub(session: string, sub: string, parentRun: Option<string>)
      modifies this
      ensures Contents() == Step(old(Contents()), Event.RegisterSub(session, sub, parentRun))
    {
      if session in runs && Some(runs[session].runId) == parentRun && IsRunning(runs[session], sub) {
        runs := runs[session := runs[session].(subRuntimes := runs[session].subRuntimes + {sub})];
      }
    }

    /** The part of `reconcile` for a run that is still live. */
    method Reconcile(session: string, run: string, title: string, sampled: set<string>, valid: set<string>)
      modifies this
      ensures Contents() == Step(old(Contents()), Event.Prune(session, run, title, sampled, valid))
    {
      if session !in runs || runs[session].runId != run {
        return;
      }
      var r := runs[session];
      var asks := map a | a in r.asks && (a !in sampled || a in valid) :: r.asks[a];
      if |asks| != |r.asks| || r.title != title {
        revision := revision + 1;
      }
      runs := runs[session := r.(title := title, asks := asks)];
    }

    /** `observe`; an event of another run, or of a session without one, changes nothing. */
    method Observe(session: string, payloadRun: Option<string>, event: RunEvent)
      modifies this
      ensures Contents() == Step(old(Contents()), Event.Observe(session, payloadRun, event))
      ensures session !in old(runs) || (payloadRun.Some? && payloadRun.value != old(runs)[session].runId)
        ==> Contents() == old(Contents())
    {
      if session !in runs {
        return;
      }
      var run := runs[session];
      if payloadRun.Some? && payloadRun.value != run.runId {
        return;
      }
      if Terminal(event) {
        EndSub(session, event);
        return;
      }
      var next := RunAfter(run, event);
      if next.None? {
        return;
      }
      runs := runs[session := next.value];
      revision := revision + 1;
    }

    /** The end of one sub of a live run. */
    method EndSub(session: string, event: RunEvent)
      requires session in runs && Terminal(event)
      modifies this
      ensures Contents() == Step(old(Contents()), Event.Observe(session, None, event))
    {
      TerminalStep(Contents(), session, event);
      hide Step;
      var run := runs[session];
      var i := RunningIndex(run.subs, event.id);
      if i == |run.subs| {
        return;
      }
      var sub := TerminalSub(run.subs[i], event);
      EndedSubRun(session, run, event, i);
      hide RunAfter, TerminalRecents, RunningIndex, Terminal, TerminalSub, Retire, SubRecent, Pushed, PushedAll;
      run := RetireSub(run.(subs := run.subs[i := sub]), event.id);
      runs := runs[session := run];
      var item := SubRecent(session, run.runId, sub, if event.cancelled then "cancelled" else StatusText(sub.status));
      PushOne(recent, item);
      PushRecent(item);
      revision := revision + 1;
    }
  }

  lemma {:induction false} EndedStep(session: string, run: string, subs: seq<Sub>, i: nat, status: string,
                                     steps: map<string, nat>, recent: seq<Recent>, last: Recent)
    requires i < |subs|
    ensures var rest := EndedSubs(session, run, subs[i + 1..], status, steps) + [last];
      PushedAll(recent, EndedSubs(session, run, subs[i..], status, steps) + [last]) ==
        if subs[i].status == Running
        then PushedAll(
          Pushed(recent, SubRecent(session, run, EndedSub(subs[i], status, steps), EndStatus(status))), rest)
        else PushedAll(recent, rest)
  {
    assert subs[i..][1..] == subs[i + 1..];
    var tail := EndedSubs(session, run, subs[i + 1..], status, steps);
    if subs[i].status == Running {
      var item := SubRecent(session, run, EndedSub(subs[i], status, steps), EndStatus(status));
      assert [item] + tail + [last] == [item] + (tail + [last]);
      PushedAllCons(recent, item, tail + [last]);
    } else {
      assert [] + tail == tail;
    }
  }

  lemma {:induction false} EndedNone(session: string, run: string, subs: seq<Sub>, status: string,
                                     steps: map<string, nat>, recent: seq<Recent>, last: Recent)
    requires subs == []
    ensures PushedAll(recent, EndedSubs(session, run, subs, status, steps) + [last]) == Pushed(recent, last)
  {
    assert [] + [last] == [last];
    PushOne(recent, last);
  }

  lemma {:induction false} PushedAllCons(recent: seq<Recent>, item: Recent, rest: seq<Recent>)
    ensures PushedAll(recent, [item] + rest) == PushedAll(Pushed(recent, item), rest)
  {
    assert ([item] + rest)[1..] == rest;
  }
}
