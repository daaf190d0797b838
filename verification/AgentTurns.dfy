/** The turn history and the stuck counter, compared with the full record of applied turns. A refresh writes back
    what it copied when it started, so turns applied meanwhile are lost; which ones is said exactly. */
module AgentTurns {
  import opened Wrappers
  import opened AgentActivity
  import opened AgentWindow
  import opened AgentReconcile
  import opened AgentRuns
  import opened AgentEpochs

  /** All turns ever applied to a worktree, newest first. */
  function History(log: seq<Event>, path: Path): seq<Turn> {
    if log == [] then []
    else
      var last, earlier := log[|log| - 1], History(log[..|log| - 1], path);
      if last.Applied? && last.path == path then [last.turn] + earlier else earlier
  }

  /** How many of the newest turns in a row have the same diff summary. */
  function RunLength(history: seq<Turn>): nat {
    if history == [] then 0
    else if |history| > 1 && history[0].summary == history[1].summary then 1 + RunLength(history[1..])
    else 1
  }

  /** RunLength is the length of the longest stretch of equal summaries at the newest end. */
  lemma {:induction false} RunLengthIsLongest(history: seq<Turn>)
    requires history != []
    ensures 1 <= RunLength(history) <= |history|
    ensures forall i :: 0 <= i < RunLength(history) ==> history[i].summary == history[0].summary
    ensures RunLength(history) < |history| ==> history[RunLength(history)].summary != history[0].summary
    decreases |history|
  {
    if |history| > 1 && history[0].summary == history[1].summary {
      RunLengthIsLongest(history[1..]);
      forall i | 0 <= i < RunLength(history)
        ensures history[i].summary == history[0].summary
      {
        if i > 0 {
          assert history[i] == history[1..][i - 1];
        }
      }
    }
  }

  function StuckCount(history: seq<Turn>): nat {
    if history == [] then 0 else RunLength(history) - 1
  }

  // ---------- what refreshes leave ----------

  /** Something recorded at position a was written over: a refresh that started before it ended after it. */
  ghost predicate LostAt(log: seq<Event>, a: nat) {
    exists e: nat :: a < e < |log| && log[e].Refreshed? && log[e].since <= a
  }

  predicate AppliesAt(log: seq<Event>, path: Path, a: nat) {
    a < |log| && log[a].Applied? && log[a].path == path
  }

  /** The turns applied among the first n events and not written over since, newest first. */
  ghost function SurvivorsUpTo(log: seq<Event>, path: Path, n: nat): seq<Turn>
    requires n <= |log|
  {
    if n == 0 then []
    else if AppliesAt(log, path, n - 1) && !LostAt(log, n - 1)
    then [log[n - 1].turn] + SurvivorsUpTo(log, path, n - 1)
    else SurvivorsUpTo(log, path, n - 1)
  }

  ghost function Survivors(log: seq<Event>, path: Path): seq<Turn> {
    SurvivorsUpTo(log, path, |log|)
  }

  /** A worktree keeps the five newest surviving turns and counts the repetitions over all of them. */
  ghost predicate TurnsFit(w: Worktree, log: seq<Event>) {
    && w.recentTurns == Take(Survivors(log, w.path), 5)
    && w.stuckTurnCount == StuckCount(Survivors(log, w.path))
  }

  /** The copies of a refresh under way fit the log as it was when the refresh started, and no refresh has ended
      since. */
  ghost predicate CopiesFit(run: Run, refresh: Refresh) {
    && Paths(refresh.copies) == Paths(run.app.worktrees)
    && refresh.since <= |run.log|
    && (forall i :: 0 <= i < |refresh.copies| ==> TurnsFit(refresh.copies[i], run.log[..refresh.since]))
    && (forall e :: refresh.since <= e < |run.log| ==> !run.log[e].Refreshed?)
  }

  predicate AppliedBy(log: seq<Event>, a: nat, j: nat) {
    a < |log| && log[a].Applied? && log[a].job == j
  }

  ghost predicate TurnInv(run: Run) {
    && DistinctPaths(run.app.worktrees)
    && (forall i :: 0 <= i < |run.app.worktrees| ==> TurnsFit(run.app.worktrees[i], run.log))
    && (run.refresh.Some? ==> CopiesFit(run, run.refresh.value))
    && (forall a: nat, b: nat, j: nat :: AppliedBy(run.log, a, j) && AppliedBy(run.log, b, j) ==> a == b)
    && (forall a: nat, j: nat :: AppliedBy(run.log, a, j) ==> j < |run.jobs| && run.jobs[j].phase.Finished?)
  }

  // ---------- one more event ----------

  lemma {:induction false} SamePrefixSurvives(log: seq<Event>, log': seq<Event>, path: Path, n: nat)
    requires n <= |log| && n <= |log'|
    requires forall a :: 0 <= a < n ==> log'[a] == log[a] && (LostAt(log', a) <==> LostAt(log, a))
    ensures SurvivorsUpTo(log', path, n) == SurvivorsUpTo(log, path, n)
  {
    hide LostAt;
    if n > 0 {
      SamePrefixSurvives(log, log', path, n - 1);
    }
  }

  /** An event that is not the end of a refresh writes nothing over. */
  lemma SurvivorsNext(log: seq<Event>, event: Event, path: Path)
    requires !event.Refreshed?
    ensures Survivors(log + [event], path)
         == if event.Applied? && event.path == path then [event.turn] + Survivors(log, path) else Survivors(log, path)
  {
    var log' := log + [event];
    forall a | 0 <= a < |log|
      ensures LostAt(log', a) <==> LostAt(log, a)
    {
      if e: nat :| a < e < |log| && log[e].Refreshed? && log[e].since <= a {
        assert log'[e] == log[e];
      }
    }
    assert !LostAt(log', |log|);
    SamePrefixSurvives(log, log', path, |log|);
  }

  /** The end of a refresh leaves exactly what had survived when it started. */
  lemma SurvivorsRefreshed(log: seq<Event>, since: nat, path: Path)
    requires since <= |log| && forall e :: since <= e < |log| ==> !log[e].Refreshed?
    ensures Survivors(log + [Refreshed(since)], path) == Survivors(log[..since], path)
  {
    var log', start := log + [Refreshed(since)], log[..since];
    forall a: nat | a < since
      ensures LostAt(log', a) <==> LostAt(start, a)
    {
      if e: nat :| a < e < |log'| && log'[e].Refreshed? && log'[e].since <= a {
        assert e < since;
        assert start[e] == log'[e];
      }
      if e: nat :| a < e < |start| && start[e].Refreshed? && start[e].since <= a {
        assert log'[e] == start[e];
      }
    }
    SamePrefixSurvives(start, log', path, since);
    NothingSurvives(log', path, since, |log'|);
  }

  lemma {:induction false} NothingSurvives(log: seq<Event>, path: Path, since: nat, n: nat)
    requires since < |log| && since <= n <= |log| && log[|log| - 1] == Refreshed(since)
    ensures SurvivorsUpTo(log, path, n) == SurvivorsUpTo(log, path, since)
  {
    if n > since {
      NothingSurvives(log, path, since, n - 1);
      assert n - 1 < |log| - 1 ==> LostAt(log, n - 1);
    }
  }

  /** Keeping five turns at a time is keeping the newest five of all. */
  lemma TurnNext(w: Worktree, log: seq<Event>, j: nat, turn: Turn)
    requires TurnsFit(w, log)
    ensures TurnsFit(WithTurn(w, turn), log + [Applied(j, w.path, turn)])
  {
    var past := Survivors(log, w.path);
    SurvivorsNext(log, Applied(j, w.path, turn), w.path);
    hide Survivors;
    assert ([turn] + past)[1..] == past;
    assert past != [] ==> w.recentTurns[0] == past[0];
    assert Take([turn] + Take(past, 5), 5) == Take([turn] + past, 5);
  }

  lemma OtherTurn(w: Worktree, log: seq<Event>, event: Event)
    requires TurnsFit(w, log) && !event.Refreshed? && !(event.Applied? && event.path == w.path)
    ensures TurnsFit(w, log + [event])
  {
    SurvivorsNext(log, event, w.path);
    hide Survivors;
  }

  /** The copies of a refresh still fit while no refresh ends. */
  lemma CopiesStayFit(before: Run, after: Run)
    requires before.refresh.Some? && CopiesFit(before, before.refresh.value) && after.refresh == before.refresh
    requires Paths(after.app.worktrees) == Paths(before.app.worktrees)
    requires after.log == before.log || exists e :: after.log == before.log + [e] && !e.Refreshed?
    ensures CopiesFit(after, after.refresh.value)
  {
    hide TurnsFit, Paths;
    var since := before.refresh.value.since;
    assert after.log[..since] == before.log[..since];
  }

  /** Checkpoint results and reconciliation leave the turns alone. */
  lemma SameTurns(w: Worktree, w': Worktree, log: seq<Event>)
    requires TurnsFit(w, log) && w'.path == w.path
    requires w'.recentTurns == w.recentTurns && w'.stuckTurnCount == w.stuckTurnCount
    ensures TurnsFit(w', log)
  {
  }

  // ---------- the steps ----------

  lemma ReconcileKeepsTurns(app: App, allow: bool, i: nat)
    requires DistinctPaths(app.worktrees) && i < |app.worktrees|
    ensures var after := Reconciled(app, allow);
      && |after.worktrees| == |app.worktrees|
      && after.worktrees[i].path == app.worktrees[i].path
      && after.worktrees[i].recentTurns == app.worktrees[i].recentTurns
      && after.worktrees[i].stuckTurnCount == app.worktrees[i].stuckTurnCount
  {
    SweepIsPointwise(app.worktrees, app.epochs, DerivedStates(app), allow, !app.outpostActive);
    hide SweepOver, DerivedOver;
  }

  lemma ReceiveKeepsTurns(run: Run, message: Message)
    requires TurnInv(run)
    ensures TurnInv(Step(run, Receive(message)))
  {
    var app, allow := Prepared(run.app, message), AllowsTransitions(message);
    var after := Step(run, Receive(message));
    SamePaths(app, allow);
    assert after.app == Reconciled(app, allow) && after.log == run.log;
    assert forall j :: 0 <= j < |run.jobs| ==> after.jobs[j] == run.jobs[j];
    if run.refresh.Some? {
      CopiesStayFit(run, after);
    }
    hide Reconciled, ReconcileRequests, TurnsFit, CopiesFit;
    assert |after.app.worktrees| == |Paths(after.app.worktrees)| == |Paths(app.worktrees)|;
    forall i | 0 <= i < |after.app.worktrees|
      ensures TurnsFit(after.app.worktrees[i], after.log)
    {
      ReconcileKeepsTurns(app, allow, i);
      SameTurns(run.app.worktrees[i], after.app.worktrees[i], run.log);
    }
  }

  /** Steps that only move a job and record nothing about turns. */
  ghost predicate Quiet(before: Run, after: Run) {
    && after.app.worktrees == before.app.worktrees
    && after.refresh == before.refresh
    && |after.jobs| == |before.jobs|
    && (forall j :: 0 <= j < |before.jobs| && before.jobs[j].phase.Finished? ==> after.jobs[j].phase.Finished?)
    && (after.log == before.log || exists e :: after.log == before.log + [e] && !e.Applied? && !e.Refreshed?)
  }

  lemma QuietKeepsTurns(before: Run, after: Run)
    requires TurnInv(before) && Quiet(before, after)
    ensures TurnInv(after)
  {
    if before.refresh.Some? {
      CopiesStayFit(before, after);
    }
    hide TurnsFit, CopiesFit;
    if after.log != before.log {
      var e :| after.log == before.log + [e] && !e.Applied? && !e.Refreshed?;
      forall i | 0 <= i < |after.app.worktrees|
        ensures TurnsFit(after.app.worktrees[i], after.log)
      {
        OtherTurn(before.app.worktrees[i], before.log, e);
      }
      assert forall a: nat, j: nat :: AppliedBy(after.log, a, j) ==> AppliedBy(before.log, a, j);
    }
  }

  lemma OtherStepsQuiet(run: Run, action: Action)
    requires !Reconciles(action) && !action.Report? && !action.StartRefresh?
    ensures Quiet(run, Step(run, action))
  {
    var after := Step(run, action);
    if |after.log| == |run.log| + 1 {
      assert after.log == run.log + [after.log[|run.log|]];
    }
  }

  lemma ReportKeepsTurns(run: Run, j: nat)
    requires TurnInv(run)
    ensures TurnInv(ReportStep(run, j))
  {
    if j < |run.jobs| && run.jobs[j].phase.Reporting? {
      var outcome := OutcomeOf(run.jobs[j], run.jobs[j].phase.result);
      var target, after := Target(run.app, outcome), ReportStep(run, j);
      ResultKeepsStates(run.app, outcome);
      hide FindWorktree, TurnsFit, WithTurn, WithCheckpoint;
      if run.refresh.Some? {
        assert Paths(after.app.worktrees) == Paths(run.app.worktrees);
        CopiesStayFit(run, after);
      }
      hide CopiesFit;
      if target.None? {
        assert forall a: nat, k: nat :: AppliedBy(after.log, a, k) ==> AppliedBy(run.log, a, k);
      } else {
        var w := run.app.worktrees[target.value];
        var turn := TurnOf(w, outcome);
        assert w.path == outcome.path;
        TurnApplied(run, after, j, target.value, turn, outcome.autoCheckpoint);
      }
    }
  }

  lemma TurnApplied(run: Run, after: Run, j: nat, t: nat, turn: Turn, checkpoint: Option<Checkpoint>)
    requires TurnInv(run) && t < |run.app.worktrees| && j < |run.jobs| == |after.jobs|
    requires !run.jobs[j].phase.Finished? && after.jobs[j].phase.Finished?
    requires forall k :: 0 <= k < |run.jobs| && k != j ==> after.jobs[k] == run.jobs[k]
    requires after.app.worktrees
          == run.app.worktrees[t := WithCheckpoint(WithTurn(run.app.worktrees[t], turn), checkpoint)]
    requires after.log == run.log + [Applied(j, run.app.worktrees[t].path, turn)]
    requires after.refresh.Some? ==> CopiesFit(after, after.refresh.value)
    ensures TurnInv(after)
  {
    var w, event := run.app.worktrees[t], Applied(j, run.app.worktrees[t].path, turn);
    TurnNext(w, run.log, j, turn);
    SameTurns(WithTurn(w, turn), WithCheckpoint(WithTurn(w, turn), checkpoint), after.log);
    assert WithCheckpoint(WithTurn(w, turn), checkpoint).path == w.path;
    hide TurnsFit, WithTurn, WithCheckpoint, CopiesFit;
    forall i | 0 <= i < |after.app.worktrees|
      ensures TurnsFit(after.app.worktrees[i], after.log)
    {
      if i != t {
        assert run.app.worktrees[i].path != w.path;
        OtherTurn(run.app.worktrees[i], run.log, event);
      }
    }
    assert forall a: nat, k: nat :: AppliedBy(after.log, a, k) <==> AppliedBy(run.log, a, k) || (a == |run.log| && k == j);
    assert forall a: nat :: !AppliedBy(run.log, a, j);
  }

  lemma StartRefreshKeepsTurns(run: Run)
    requires TurnInv(run)
    ensures TurnInv(StartRefreshStep(run))
  {
    assert run.log[..|run.log|] == run.log;
    hide TurnsFit;
  }

  lemma {:induction false} PreviousAt(copies: seq<Worktree>, i: nat)
    requires DistinctPaths(copies) && i < |copies|
    ensures Previous(copies, copies[i].path) == Some(copies[i])
    decreases |copies|
  {
    if i < |copies| - 1 {
      PreviousAt(copies[..|copies| - 1], i);
    }
  }

  lemma CopyOf(run: Run, listing: seq<Listed>, i: nat)
    requires RefreshEnds(run, listing) && DistinctPaths(run.app.worktrees)
    requires Paths(run.refresh.value.copies) == Paths(run.app.worktrees) && i < |run.app.worktrees|
    ensures i < |run.refresh.value.copies| && i < |listing|
    ensures var w, copy := Rebuilt(run.refresh.value.copies, listing[i]), run.refresh.value.copies[i];
      && w.path == copy.path == run.app.worktrees[i].path && w.agentState == copy.agentState
      && w.recentTurns == copy.recentTurns && w.stuckTurnCount == copy.stuckTurnCount
      && w.lastActivity == MergeTimestamp(listing[i].activity, copy.lastActivity)
  {
    var copies := run.refresh.value.copies;
    EqualPathsDistinct(run.app.worktrees, copies);
    assert Paths(copies)[i] == Paths(run.app.worktrees)[i] == ListedPaths(listing)[i];
    PreviousAt(copies, i);
  }

  lemma EndRefreshKeepsTurns(run: Run, listing: seq<Listed>)
    requires TurnInv(run)
    ensures TurnInv(EndRefreshStep(run, listing))
  {
    if RefreshEnds(run, listing) {
      var refresh, after := run.refresh.value, EndRefreshStep(run, listing);
      var replaced := Replaced(run.app, refresh.copies, listing);
      EqualPathsDistinct(run.app.worktrees, replaced.worktrees);
      SamePaths(replaced, false);
      assert after.log == run.log + [Refreshed(refresh.since)] && after.jobs == run.jobs;
      assert after.app == Reconciled(replaced, false);
      hide Reconciled, TurnsFit, Rebuilt;
      forall i | 0 <= i < |after.app.worktrees|
        ensures TurnsFit(after.app.worktrees[i], after.log)
      {
        ReconcileKeepsTurns(replaced, false, i);
        CopyOf(run, listing, i);
        RefreshFits(refresh.copies[i], after.app.worktrees[i], run.log, refresh.since);
      }
      assert forall a: nat, j: nat :: AppliedBy(after.log, a, j) ==> AppliedBy(run.log, a, j);
    }
  }

  lemma RefreshFits(copy: Worktree, w: Worktree, log: seq<Event>, since: nat)
    requires since <= |log| && forall e :: since <= e < |log| ==> !log[e].Refreshed?
    requires TurnsFit(copy, log[..since]) && w.path == copy.path
    requires w.recentTurns == copy.recentTurns && w.stuckTurnCount == copy.stuckTurnCount
    ensures TurnsFit(w, log + [Refreshed(since)])
  {
    SurvivorsRefreshed(log, since, w.path);
    hide Survivors;
  }

  lemma {:induction false} TurnInvAlways(run: Run, actions: seq<Action>)
    requires Initial(run)
    ensures TurnInv(After(run, actions))
    decreases |actions|
  {
    if actions != [] {
      hide Step, TurnInv;
      var previous, action := After(run, actions[..|actions| - 1]), actions[|actions| - 1];
      TurnInvAlways(run, actions[..|actions| - 1]);
      if action.Receive? {
        ReceiveKeepsTurns(previous, action.message);
      } else if action.Report? {
        ReportKeepsTurns(previous, action.job);
        ReportIs(previous, action.job);
      } else if action.StartRefresh? {
        StartRefreshKeepsTurns(previous);
        RefreshStepsAre(previous, []);
      } else if action.EndRefresh? {
        EndRefreshKeepsTurns(previous, action.listing);
        RefreshStepsAre(previous, action.listing);
      } else {
        OtherStepsQuiet(previous, action);
        QuietKeepsTurns(previous, Step(previous, action));
      }
    }
  }

  lemma ReportIs(run: Run, j: nat)
    ensures Step(run, Report(j)) == ReportStep(run, j)
  {
  }

  lemma RefreshStepsAre(run: Run, listing: seq<Listed>)
    ensures Step(run, StartRefresh) == StartRefreshStep(run)
    ensures Step(run, EndRefresh(listing)) == EndRefreshStep(run, listing)
  {
  }

  // ---------- main results ----------

  /** In every interleaving a worktree shows the newest five of its surviving turns, and its stuck counter is one
      less than their newest run of equal diffs, however long that run is. */
  lemma TurnsMatchSurvivors(run: Run, actions: seq<Action>, i: nat)
    requires Initial(run) && i < |After(run, actions).app.worktrees|
    ensures var end := After(run, actions); var w := end.app.worktrees[i];
      && w.recentTurns == Take(Survivors(end.log, w.path), 5)
      && w.stuckTurnCount == StuckCount(Survivors(end.log, w.path))
  {
    hide After;
    TurnInvAlways(run, actions);
    assert TurnsFit(After(run, actions).app.worktrees[i], After(run, actions).log);
  }

  ghost predicate NoneLost(log: seq<Event>, path: Path) {
    forall a: nat :: AppliesAt(log, path, a) ==> !LostAt(log, a)
  }

  ghost predicate SomeLost(log: seq<Event>, path: Path, n: nat) {
    exists a: nat :: a < n && AppliesAt(log, path, a) && LostAt(log, a)
  }

  lemma {:induction false} SurvivorsCounted(log: seq<Event>, path: Path, n: nat)
    requires n <= |log|
    ensures |SurvivorsUpTo(log, path, n)| <= |History(log[..n], path)|
    ensures if SomeLost(log, path, n) then |SurvivorsUpTo(log, path, n)| < |History(log[..n], path)|
            else SurvivorsUpTo(log, path, n) == History(log[..n], path)
  {
    hide LostAt;
    if n > 0 {
      SurvivorsCounted(log, path, n - 1);
      assert log[..n][..n - 1] == log[..n - 1];
      if a: nat :| a < n && AppliesAt(log, path, a) && LostAt(log, a) {
        assert a == n - 1 || SomeLost(log, path, n - 1);
      }
    }
  }

  /** The surviving turns of a worktree are all its turns exactly if none was applied between the start and the end
      of a refresh that completed. */
  lemma SurvivorsAreAllExactly(log: seq<Event>, path: Path)
    ensures Survivors(log, path) == History(log, path)
       <==> NoneLost(log, path)
  {
    assert log[..|log|] == log;
    SurvivorsCounted(log, path, |log|);
    hide LostAt, History, SurvivorsUpTo;
  }

  /** As long as no turn was applied during a refresh that completed, a worktree shows the newest five of all turns
      ever applied to it and counts the newest run of equal diffs over all of them. */
  lemma TurnsMatchHistory(run: Run, actions: seq<Action>, i: nat)
    requires Initial(run) && i < |After(run, actions).app.worktrees|
    requires NoneLost(After(run, actions).log, After(run, actions).app.worktrees[i].path)
    ensures var end := After(run, actions); var w := end.app.worktrees[i];
      && w.recentTurns == Take(History(end.log, w.path), 5)
      && w.stuckTurnCount == StuckCount(History(end.log, w.path))
  {
    hide After, LostAt;
    TurnsMatchSurvivors(run, actions, i);
    SurvivorsAreAllExactly(After(run, actions).log, After(run, actions).app.worktrees[i].path);
  }

  /** No job's outcome is applied twice. */
  lemma AppliedAtMostOnce(run: Run, actions: seq<Action>, a: nat, b: nat)
    requires Initial(run)
    requires a < |After(run, actions).log| && b < |After(run, actions).log|
    requires After(run, actions).log[a].Applied? && After(run, actions).log[b].Applied?
    requires After(run, actions).log[a].job == After(run, actions).log[b].job
    ensures a == b
  {
    hide After;
    TurnInvAlways(run, actions);
    assert AppliedBy(After(run, actions).log, a, After(run, actions).log[a].job);
    assert AppliedBy(After(run, actions).log, b, After(run, actions).log[a].job);
  }

  // ---------- settled states ----------

  lemma StepSettles(run: Run, action: Action)
    requires DistinctPaths(run.app.worktrees)
    requires action.Receive? || Settled(run.app)
    ensures Settled(Step(run, action).app)
  {
    if action.Receive? {
      ReconcileSettles(Prepared(run.app, action.message), AllowsTransitions(action.message));
      hide MessageRequests;
    } else if action.EndRefresh? {
      if RefreshEnds(run, action.listing) {
        var replaced := Replaced(run.app, run.refresh.value.copies, action.listing);
        EqualPathsDistinct(run.app.worktrees, replaced.worktrees);
        ReconcileSettles(replaced, false);
      }
    } else {
      JobStepsDisturbNothing(run, action);
      UndisturbedStaysSettled(run, Step(run, action));
    }
    hide Settled, Reconciled;
  }

  /** From the first message on, whatever the background jobs and refreshes do, the states shown are the ones the
      session map dictates. */
  lemma {:induction false} StatesFollowSessions(run: Run, actions: seq<Action>, k: nat)
    requires Initial(run) && k < |actions| && actions[k].Receive?
    ensures Settled(After(run, actions).app)
    decreases |actions|
  {
    hide Step, Settled;
    var n := |actions| - 1;
    EpochInvAlways(run, actions[..n]);
    if !actions[n].Receive? {
      StatesFollowSessions(run, actions[..n], k);
    }
    StepSettles(After(run, actions[..n]), actions[n]);
  }
}
