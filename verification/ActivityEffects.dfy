/** What each event of the activity observer does, and when it counts (src-tauri/src/core/activity.rs). */
module ActivityEffects {
  import opened Wrappers
  import opened Activity

  // ---------- one sub ----------

  predicate RunningSub(run: ObservedRun, id: string, sub: Sub) {
    sub in run.subs && sub.id == id && sub.status == Running
  }

  /** One sub is replaced, in its place, and the others are as they were. */
  predicate Becomes(before: seq<Sub>, after: seq<Sub>, sub: Sub, new_: Sub) {
    && |after| == |before|
    && forall i | 0 <= i < |before| :: after[i] == if before[i].id == sub.id then new_ else before[i]
  }

  /** The larger of two step counts. */
  predicate Later(step: nat, a: nat, b: nat) {
    step >= a && step >= b && (step == a || step == b)
  }

  lemma {:induction false} RunningIs(run: ObservedRun, id: string)
    requires DistinctSubs(run.subs)
    ensures var i := RunningIndex(run.subs, id);
      && (i < |run.subs| <==> exists sub :: RunningSub(run, id, sub))
      && (forall sub | RunningSub(run, id, sub) :: i < |run.subs| && run.subs[i] == sub)
  {
    var i := RunningIndex(run.subs, id);
    forall sub | RunningSub(run, id, sub) ensures i < |run.subs| && run.subs[i] == sub {
      var j :| 0 <= j < |run.subs| && run.subs[j] == sub;
      assert i == j;
    }
    assert i < |run.subs| ==> RunningSub(run, id, run.subs[i]);
  }

  lemma {:induction false} ReplacedBecomes(subs: seq<Sub>, i: nat, new_: Sub)
    requires DistinctSubs(subs) && i < |subs|
    ensures Becomes(subs, subs[i := new_], subs[i], new_)
  {
  }

  /** A step counts for a running sub only; it raises the step count and replaces the detail. */
  lemma {:induction false} StepMeans(run: ObservedRun, id: string, step: nat, detail: string)
    requires DistinctSubs(run.subs)
    ensures var r := RunAfter(run, SubStep(id, step, detail));
      && (r.Some? <==> exists sub :: RunningSub(run, id, sub))
      && forall sub | RunningSub(run, id, sub) ::
           && r.value == run.(subs := r.value.subs)
           && exists n :: Later(n, sub.step, step)
                && Becomes(run.subs, r.value.subs, sub, sub.(step := n, detail := detail))
  {
    RunningIs(run, id);
    var i := RunningIndex(run.subs, id);
    if i < |run.subs| {
      var n := Max(run.subs[i].step, step);
      assert Later(n, run.subs[i].step, step);
      ReplacedBecomes(run.subs, i, run.subs[i].(step := n, detail := detail));
    }
    hide RunningIndex, Becomes;
  }

  /** A report counts for a running sub only, and is kept with it. */
  lemma {:induction false} ReportMeans(run: ObservedRun, id: string, report: string)
    requires DistinctSubs(run.subs)
    ensures var r := RunAfter(run, SubReport(id, report));
      && (r.Some? <==> exists sub :: RunningSub(run, id, sub))
      && forall sub | RunningSub(run, id, sub) ::
           && r.value == run.(subs := r.value.subs)
           && Becomes(run.subs, r.value.subs, sub, sub.(report := Some(report)))
  {
    RunningIs(run, id);
    var i := RunningIndex(run.subs, id);
    if i < |run.subs| {
      ReplacedBecomes(run.subs, i, run.subs[i].(report := Some(report)));
    }
    hide RunningIndex, Becomes;
  }

  /** A sub is announced once; it then runs, behind the others, at step 0. */
  lemma {:induction false} SpawnMeans(run: ObservedRun, spawned: Option<string>, title: string)
    ensures var r := RunAfter(run, SubSpawn(spawned, title));
      && (r.Some? <==> spawned.Some? && forall sub | sub in run.subs :: sub.id != spawned.value)
      && (r.Some? ==> exists sub ::
           && r.value == run.(subs := run.subs + [sub]) && sub.id == spawned.value && sub.title == title
           && sub.status == Running && sub.step == 0 && sub.ended.None? && sub.report.None?)
  {
    if spawned.Some? {
      var i := IndexOf(run.subs, spawned.value);
      if i < |run.subs| {
        assert run.subs[i] in run.subs;
      }
      assert RunAfter(run, SubSpawn(spawned, title)).Some? ==>
        RunAfter(run, SubSpawn(spawned, title)).value.subs[|run.subs|] ==
          Sub(spawned.value, title, 0, "", Running, None, None);
    }
  }

  /** A question counts if it has an id and comes from the session or from a registered sub; closing takes it away. */
  lemma {:induction false} AsksMean(run: ObservedRun, ask: Option<string>, sub: Option<string>, closed: string)
    ensures var r := RunAfter(run, AskOpened(ask, sub));
      && (r.Some? <==> ask.Some? && (sub.None? || sub.value in run.subRuntimes))
      && (r.Some? ==>
           && r.value == run.(asks := r.value.asks) && ask.value in r.value.asks && r.value.asks[ask.value] == sub
           && forall a | a != ask.value ::
                (a in r.value.asks <==> a in run.asks) && (a in run.asks ==> r.value.asks[a] == run.asks[a]))
    ensures var r := RunAfter(run, AskClosed(closed));
      && r.Some? && r.value == run.(asks := r.value.asks)
      && forall a :: (a in r.value.asks <==> a in run.asks && a != closed)
           && (a in r.value.asks ==> r.value.asks[a] == run.asks[a])
  {
  }

  /** Any other event of the run changes the text of what it does, or does not count. */
  lemma {:induction false} DoingMeans(run: ObservedRun, activity: string)
    ensures RunAfter(run, Doing(activity)) == Some(run.(activity := activity)) && RunAfter(run, Unknown).None?
  {
  }

  // ---------- the end of a sub ----------

  /** How a sub stands after its terminal event. */
  predicate EndsAs(sub: Sub, e: RunEvent, new_: Sub)
    requires e.SubDone? || e.SubError?
  {
    && new_.id == sub.id && new_.title == sub.title && new_.report == sub.report
    && new_.status == (if e.SubDone? then Done else if e.cancelled then Cancelled else Failed)
    && Later(new_.step, sub.step, e.stepsUsed)
    && new_.detail == (if e.SubError? then e.error else sub.detail)
    && new_.ended ==
         if e.ended in {Some("report"), Some("partial"), Some("budget"), Some("no_report")} then e.ended else None
  }

  function EndText(e: RunEvent): string
    requires e.SubDone? || e.SubError?
  {
    if e.cancelled then "cancelled" else if e.SubDone? then "done" else "error"
  }

  /**
   * A terminal event counts for a running sub only. The sub ends as the event says, is no longer registered and asks
   * nothing any more, and joins the finished ones; when that makes more than 50, the one that finished first goes, and
   * its sub with it. One entry about it is published.
   */
  lemma {:induction false} EndMeans(session: string, run: ObservedRun, e: RunEvent, sub: Sub)
    requires DistinctSubs(run.subs) && (e.SubDone? || e.SubError?) && RunningSub(run, e.id, sub)
    requires |run.finished| <= 50
    ensures RunAfter(run, e).Some?
    ensures exists new_ ::
      && EndsAs(sub, e, new_) && Retires(run, RunAfter(run, e).value, e.id, new_)
      && TerminalRecents(session, run, e) ==
           [Recent(OfSub(session, run.runId, e.id), sub.title, EndText(e), Some(new_))]
  {
    RunningIs(run, e.id);
    var i := RunningIndex(run.subs, e.id);
    assert run.subs[i] == sub;
    var new_ := TerminalSub(sub, e);
    assert EndsAs(sub, e, new_);
    assert RunAfter(run, e) == Some(Retire(run.(subs := run.subs[i := new_]), e.id));
    hide RunningIndex, TerminalSub, EndsAs, RunAfter, TerminalRecents, Retire, Retires;
    TerminalRecentIs(session, run, e, sub, i);
    ReplacedRetires(run, e.id, i, new_);
  }

  /** The run without a sub that has ended: it stays as `new_`, and the first of 50 finished ones goes. */
  ghost predicate Retires(run: ObservedRun, r: ObservedRun, id: string, new_: Sub)
    requires |run.finished| <= 50
  {
    && r == run.(subs := r.subs, asks := r.asks, subRuntimes := r.subRuntimes, finished := r.finished)
    && (forall x :: x in r.subs <==>
         (x == new_ || (x in run.subs && x.id != id)) && (|run.finished| == 50 ==> x.id != run.finished[0]))
    && r.subRuntimes == run.subRuntimes - {id}
    && (forall a :: (a in r.asks <==> a in run.asks && run.asks[a] != Some(id))
         && (a in r.asks ==> r.asks[a] == run.asks[a]))
    && r.finished == (if |run.finished| == 50 then run.finished[1..] else run.finished) + [id]
  }

  lemma {:induction false} ReplacedRetires(run: ObservedRun, id: string, i: nat, new_: Sub)
    requires |run.finished| <= 50 && DistinctSubs(run.subs) && i < |run.subs|
    requires run.subs[i].id == id == new_.id
    ensures Retires(run, Retire(run.(subs := run.subs[i := new_]), id), id, new_)
  {
    RetireMeans(run.(subs := run.subs[i := new_]), id);
    ReplacedSubs(run.subs, i, new_);
    hide Retire;
  }

  lemma {:induction false} TerminalRecentIs(session: string, run: ObservedRun, e: RunEvent, sub: Sub, i: nat)
    requires (e.SubDone? || e.SubError?) && i == RunningIndex(run.subs, e.id) && i < |run.subs| && run.subs[i] == sub
    ensures TerminalRecents(session, run, e) ==
      [Recent(OfSub(session, run.runId, e.id), sub.title, EndText(e), Some(TerminalSub(sub, e)))]
  {
  }

  lemma {:induction false} ReplacedSubs(subs: seq<Sub>, i: nat, new_: Sub)
    requires i < |subs| && DistinctSubs(subs) && new_.id == subs[i].id
    ensures forall x :: x in subs[i := new_] <==> x == new_ || (x in subs && x.id != new_.id)
  {
    var after := subs[i := new_];
    forall x | x in after ensures x == new_ || (x in subs && x.id != new_.id) {
      var j :| 0 <= j < |after| && after[j] == x;
      if j < i { assert subs[j].id != subs[i].id; }
      if i < j { assert subs[i].id != subs[j].id; }
    }
    assert after[i] == new_;
    forall x | x in subs && x.id != new_.id ensures x in after {
      var j :| 0 <= j < |subs| && subs[j] == x;
      assert after[j] == x;
    }
  }

  lemma {:induction false} RetireMeans(run: ObservedRun, id: string)
    requires |run.finished| <= 50
    ensures var r := Retire(run, id);
      && r == run.(subs := r.subs, asks := r.asks, subRuntimes := r.subRuntimes, finished := r.finished)
      && r.subRuntimes == run.subRuntimes - {id}
      && (forall a :: (a in r.asks <==> a in run.asks && run.asks[a] != Some(id))
           && (a in r.asks ==> r.asks[a] == run.asks[a]))
      && (forall x :: x in r.subs <==> x in run.subs && (|run.finished| == 50 ==> x.id != run.finished[0]))
      && r.finished == (if |run.finished| == 50 then run.finished[1..] else run.finished) + [id]
  {
    assert (run.finished + [id])[0] == if |run.finished| == 0 then id else run.finished[0];
    assert |run.finished| == 50 ==> (run.finished + [id])[1..] == run.finished[1..] + [id];
    if |run.finished| == 50 {
      forall x ensures x in WithoutSub(run.subs, run.finished[0]) <==> x in run.subs && x.id != run.finished[0] {
        WithoutSubHas(run.subs, run.finished[0], x);
      }
    }
    hide WithoutSub;
  }

  // ---------- the state ----------

  /** The other sessions are as they were. */
  predicate OnlyRun(s: State, s': State, session: string) {
    && (forall k | k in s.runs && k != session :: k in s'.runs && s'.runs[k] == s.runs[k])
    && (forall k | k in s'.runs && k != session :: k in s.runs)
  }

  /** A run begins without subs and questions, in the place of whatever the session did before. */
  lemma {:induction false} BeginMeans(s: State, session: string, run: string, title: string)
    ensures var s' := Step(s, Begin(session, run, title));
      && OnlyRun(s, s', session) && s'.recent == s.recent && s'.revision == s.revision + 1
      && session in s'.runs
      && var r := s'.runs[session];
        && r.runId == run && r.title == title && r.subs == [] && r.asks == map[] && r.subRuntimes == {}
        && r.finished == []
  {
  }

  /** A sub that runs is registered with the run it was started for, and nothing else. */
  lemma {:induction false} RegisterMeans(s: State, session: string, sub: string, parentRun: Option<string>)
    ensures var s' := Step(s, RegisterSub(session, sub, parentRun));
      if session in s.runs && parentRun == Some(s.runs[session].runId)
        && exists x :: RunningSub(s.runs[session], sub, x)
      then
        && OnlyRun(s, s', session) && s'.recent == s.recent && s'.revision == s.revision && session in s'.runs
        && var (r, r') := (s.runs[session], s'.runs[session]);
          r' == r.(subRuntimes := r'.subRuntimes) && r'.subRuntimes == r.subRuntimes + {sub}
      else s' == s
  {
    if session in s.runs {
      var r := s.runs[session];
      if IsRunning(r, sub) {
        var x :| x in r.subs && x.id == sub && x.status == Running;
        assert RunningSub(r, sub, x);
      }
    }
  }

  /** A title reaches the live run and the entries of its session in the history, and nothing else of them. */
  lemma {:induction false} TitleMeans(s: State, session: string, title: string)
    ensures var s' := Step(s, Title(session, title));
      && OnlyRun(s, s', session) && s'.revision == s.revision + 1 && s'.runs.Keys == s.runs.Keys
      && (session in s.runs ==> s'.runs[session] == s.runs[session].(title := title))
      && |s'.recent| == |s.recent|
      && forall i | 0 <= i < |s.recent| ::
           if s.recent[i].id.OfSession? && s.recent[i].id.session == session
           then s'.recent[i] == s.recent[i].(title := title) else s'.recent[i] == s.recent[i]
  {
    RetitledAt(s.recent, session, title);
    hide Retitled;
  }

  lemma {:induction false} RetitledAt(recent: seq<Recent>, session: string, title: string)
    ensures var r := Retitled(recent, session, title);
      && |r| == |recent|
      && forall i | 0 <= i < |recent| ::
           if recent[i].id.OfSession? && recent[i].id.session == session
           then r[i] == recent[i].(title := title) else r[i] == recent[i]
  {
    if recent != [] {
      RetitledAt(recent[1..], session, title);
      assert forall i | 0 < i < |recent| :: recent[i] == recent[1..][i - 1];
    }
  }

  /** An event of another run or of no live session, or one that does not count, changes nothing. */
  lemma {:induction false} ObserveMeans(s: State, session: string, payloadRun: Option<string>, e: RunEvent)
    ensures var s' := Step(s, Observe(session, payloadRun, e));
      if session in s.runs && payloadRun in {None, Some(s.runs[session].runId)} && RunAfter(s.runs[session], e).Some?
      then
        && OnlyRun(s, s', session) && s'.revision == s.revision + 1
        && session in s'.runs && s'.runs[session] == RunAfter(s.runs[session], e).value
        && (!(e.SubDone? || e.SubError?) ==> s'.recent == s.recent)
      else s' == s
  {
    hide RunAfter, Pushed;
    if session in s.runs && !Terminal(e) {
      assert TerminalRecents(session, s.runs[session], e) == [];
    }
  }

  /** What the end of a session makes of a sub that still runs, and what is published about it. */
  lemma {:induction false} EndedMeans(sub: Sub, status: string, steps: map<string, nat>, session: string, run: string)
    ensures var new_ := EndedSub(sub, status, steps);
      && new_.id == sub.id && new_.title == sub.title && new_.report == sub.report && new_.ended == sub.ended
      && new_.status == (if status == "cancelled" then Cancelled else Failed)
      && (if sub.id in steps then Later(new_.step, sub.step, steps[sub.id]) else new_.step == sub.step)
      && new_.detail == (if status == "cancelled" then "stopped with the session" else "session closed")
      && SubRecent(session, run, new_, EndStatus(status)) == Recent(OfSub(session, run, sub.id), sub.title,
           if status == "cancelled" then "cancelled" else "error", Some(new_))
  {
  }

  /** The newest entry after the end of a session is the session itself, with its title and the status it ended with. */
  lemma {:induction false} SessionEndsFirst(s: State, session: string, status: string, steps: map<string, nat>)
    requires Inv(s) && session in s.runs
    ensures var run := s.runs[session];
      var recent := Step(s, Finish(session, run.runId, status, steps)).recent;
      recent != [] && recent[0] == Recent(OfSession(session, run.runId), run.title, status, None)
  {
    FinishPublishes(s, session, status, steps);
    var run := s.runs[session];
    var items := Published(session, run, status, steps);
    LastComesFirst(items);
    assert items[|items| - 1] == SessionRecent(session, run, status);
    hide Step, Inv, Published, ReverseItems;
  }

  lemma {:induction false} LastComesFirst(items: seq<Recent>)
    requires items != []
    ensures |ReverseItems(items)| == |items| && ReverseItems(items)[0] == items[|items| - 1]
  {
    if |items| > 1 {
      LastComesFirst(items[1..]);
    }
  }

  /** Questions that were sampled and are not valid go; the revision rises if and only if something changed. */
  lemma {:induction false} PruneMeans(
    s: State, session: string, run: string, title: string, sampled: set<string>, valid: set<string>
  )
    ensures var s' := Step(s, Prune(session, run, title, sampled, valid));
      if session in s.runs && s.runs[session].runId == run then
        && OnlyRun(s, s', session) && s'.recent == s.recent && session in s'.runs
        && var (r, r') := (s.runs[session], s'.runs[session]);
          && r' == r.(title := title, asks := r'.asks)
          && (forall a :: (a in r'.asks <==> a in r.asks && (a !in sampled || a in valid))
               && (a in r'.asks ==> r'.asks[a] == r.asks[a]))
          && s'.revision == s.revision + if r' == r then 0 else 1
      else s' == s
  {
    if session in s.runs && s.runs[session].runId == run {
      var r := s.runs[session];
      var asks := map a | a in r.asks && (a !in sampled || a in valid) :: r.asks[a];
      assert Step(s, Prune(session, run, title, sampled, valid)).runs[session].asks == asks;
      KeysBySize(asks, r.asks);
    }
  }

  lemma {:induction false} KeysBySize(part: map<string, Option<string>>, all: map<string, Option<string>>)
    requires forall a | a in part :: a in all && part[a] == all[a]
    ensures |part| == |all| <==> part == all
  {
    assert part.Keys <= all.Keys;
    if part != all {
      assert part.Keys == all.Keys ==> part == all;
      SmallerSubset(part.Keys, all.Keys);
      assert |part| == |part.Keys| && |all| == |all.Keys|;
    }
  }

  lemma {:induction false} SmallerSubset(a: set<string>, b: set<string>)
    requires a < b
    ensures |a| < |b|
    decreases |a|
  {
    if a != {} {
      var x :| x in a;
      var y :| y in b && y !in a;
      assert y in b - {x} && y !in a - {x};
      SmallerSubset(a - {x}, b - {x});
    }
  }

  /** Events one after the other: the last one meets what the others left. */
  lemma {:induction false} RunThen(s: State, events: seq<Event>, last: Event)
    ensures Run(s, events + [last]) == Step(Run(s, events), last)
    decreases |events|
  {
    hide Step;
    if events == [] {
      assert events + [last] == [last];
    } else {
      assert (events + [last])[1..] == events[1..] + [last];
      RunThen(Step(s, events[0]), events[1..], last);
    }
  }
}
