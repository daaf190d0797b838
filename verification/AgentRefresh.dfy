/** What a refresh of the worktree records can undo: it ends by writing back what it copied when it started. */
module AgentRefresh {
  import opened Wrappers
  import opened AgentActivity
  import opened AgentWindow
  import opened AgentReconcile
  import opened AgentRuns
  import opened AgentEpochs
  import opened AgentTurns

  // ---------- last activity ----------

  /** The last activity is still there and no earlier. */
  predicate KeepsActivity(before: Option<nat>, after: Option<nat>) {
    before.Some? ==> after.Some? && before.value <= after.value
  }

  /** Some session of the worktree is at least as recent. */
  ghost predicate SessionSince(app: App, path: Path, time: nat) {
    exists id :: id in app.sessions && app.sessions[id].updatedAt.Some? && app.sessions[id].updatedAt.value >= time
                 && Deepest(Paths(app.worktrees), app.sessions[id].cwd, path)
  }

  /** A reconciliation gives a worktree its sessions' latest time, if that is later than its own. */
  lemma DerivedActivity(app: App, i: nat, time: nat)
    requires i < |app.worktrees|
    ensures var w := app.worktrees[i];
      KeepsActivity(Some(time), WithState(w, DerivedStates(app)).lastActivity)
      <==> KeepsActivity(Some(time), w.lastActivity) || SessionSince(app, w.path, time)
  {
    hide BestMatch, Latest, Deepest;
    var paths, p := Paths(app.worktrees), app.worktrees[i].path;
    assert paths[i] == p;
    forall id | id in app.sessions
      ensures Owned(app.sessions, paths, id, p) <==> Deepest(paths, app.sessions[id].cwd, p)
    {
      DeepestIsBest(paths, app.sessions[id].cwd, p);
    }
    var stamps := Stamps(app.sessions, paths, app.sessions.Keys, p);
    if SessionSince(app, p, time) {
      var id :| id in app.sessions && app.sessions[id].updatedAt.Some? && app.sessions[id].updatedAt.value >= time
                && Deepest(paths, app.sessions[id].cwd, p);
      assert app.sessions[id].updatedAt.value in stamps;
    }
    assert IsLatest(stamps, Latest(stamps));
  }

  lemma ReconciledActivity(app: App, allow: bool, i: nat, time: nat)
    requires DistinctPaths(app.worktrees) && i < |app.worktrees|
    ensures var after := Reconciled(app, allow); var w := app.worktrees[i];
      && |after.worktrees| == |app.worktrees|
      && (KeepsActivity(Some(time), after.worktrees[i].lastActivity)
          <==> KeepsActivity(Some(time), w.lastActivity) || SessionSince(app, w.path, time))
  {
    SweepIsPointwise(app.worktrees, app.epochs, DerivedStates(app), allow, !app.outpostActive);
    DerivedActivity(app, i, time);
    hide SweepOver, DerivedOver, WithState, SessionSince;
  }

  /** What the end of a refresh leaves of a worktree's last activity. */
  ghost predicate RefreshKeepsActivity(run: Run, listing: seq<Listed>, i: nat)
    requires i < |run.app.worktrees| && run.app.worktrees[i].lastActivity.Some?
  {
    RefreshEnds(run, listing) && i < |run.refresh.value.copies| && i < |listing| ==>
      var w := run.app.worktrees[i];
      || KeepsActivity(w.lastActivity, run.refresh.value.copies[i].lastActivity)
      || KeepsActivity(w.lastActivity, listing[i].activity)
      || SessionSince(run.app, w.path, w.lastActivity.value)
  }

  lemma EndRefreshActivity(run: Run, listing: seq<Listed>, i: nat)
    requires DistinctPaths(run.app.worktrees) && RefreshEnds(run, listing)
    requires Paths(run.refresh.value.copies) == Paths(run.app.worktrees)
    requires i < |run.app.worktrees| && run.app.worktrees[i].lastActivity.Some?
    ensures var after := EndRefreshStep(run, listing).app;
      && |after.worktrees| == |run.app.worktrees|
      && (KeepsActivity(run.app.worktrees[i].lastActivity, after.worktrees[i].lastActivity)
          <==> RefreshKeepsActivity(run, listing, i))
  {
    var replaced, time := Replaced(run.app, run.refresh.value.copies, listing), run.app.worktrees[i].lastActivity.value;
    EqualPathsDistinct(run.app.worktrees, replaced.worktrees);
    CopyOf(run, listing, i);
    ReconciledActivity(replaced, false, i, time);
    assert SessionSince(replaced, run.app.worktrees[i].path, time)
      <==> SessionSince(run.app, run.app.worktrees[i].path, time);
    hide Reconciled, SessionSince, Rebuilt, RebuiltAll;
  }

  /** In every interleaving, a step lowers a worktree's last activity exactly if it ends a refresh, and the activity
      copied when the refresh started, git's, and every session of the worktree are earlier. */
  lemma ActivityKeptExactly(run: Run, actions: seq<Action>, action: Action, i: nat)
    requires Initial(run) && i < |After(run, actions).app.worktrees|
    requires After(run, actions).app.worktrees[i].lastActivity.Some?
    ensures var now := After(run, actions); var after := Step(now, action).app;
      && |after.worktrees| == |now.app.worktrees|
      && (KeepsActivity(now.app.worktrees[i].lastActivity, after.worktrees[i].lastActivity)
          <==> (action.EndRefresh? ==> RefreshKeepsActivity(now, action.listing, i)))
  {
    var now := After(run, actions);
    TurnInvAlways(run, actions);
    hide After, TurnsFit, RefreshKeepsActivity;
    match action
    case Receive(message) =>
      hide MessageRequests;
      ReconciledActivity(Prepared(now.app, message), AllowsTransitions(message), i, now.app.worktrees[i].lastActivity.value);
      hide Reconciled;
    case EndRefresh(listing) =>
      if RefreshEnds(now, listing) {
        EndRefreshActivity(now, listing, i);
      } else {
        NoRefreshEnds(now, listing, i);
      }
      hide EndRefreshStep;
    case _ =>
      JobStepsDisturbNothing(now, action);
      hide Step;
      assert |Step(now, action).app.worktrees| == |Paths(now.app.worktrees)|;
  }

  lemma NoRefreshEnds(run: Run, listing: seq<Listed>, i: nat)
    requires i < |run.app.worktrees| && run.app.worktrees[i].lastActivity.Some? && !RefreshEnds(run, listing)
    ensures EndRefreshStep(run, listing) == run && RefreshKeepsActivity(run, listing, i)
  {
  }

  // ---------- epochs ----------

  lemma EndRefreshEpoch(run: Run, listing: seq<Listed>, i: nat)
    requires DistinctPaths(run.app.worktrees) && RefreshEnds(run, listing) && Settled(run.app)
    requires Paths(run.refresh.value.copies) == Paths(run.app.worktrees) && i < |run.app.worktrees|
    ensures var w, copies, after := run.app.worktrees[i], run.refresh.value.copies, EndRefreshStep(run, listing).app;
      && i < |copies| && i < |after.worktrees|
      && after.worktrees[i].agentState == w.agentState
      && EpochOf(after.epochs, w.path)
         == if copies[i].agentState != w.agentState then Bump(EpochOf(run.app.epochs, w.path))
            else EpochOf(run.app.epochs, w.path)
  {
    var replaced := Replaced(run.app, run.refresh.value.copies, listing);
    EqualPathsDistinct(run.app.worktrees, replaced.worktrees);
    CopyOf(run, listing, i);
    EpochsCountChanges(replaced, false, i);
    ReconcileRefinesSpec(replaced, false, i);
    hide Reconciled, SpecState, Rebuilt;
  }

  /** Once a message has been received, the end of a refresh advances a worktree's epoch, and so retires its
      outstanding request, exactly if the state copied when the refresh started is no longer the worktree's; the
      state itself never changes. */
  lemma RefreshRetiresExactly(run: Run, actions: seq<Action>, k: nat, listing: seq<Listed>, i: nat)
    requires Initial(run) && k < |actions| && actions[k].Receive?
    requires RefreshEnds(After(run, actions), listing) && i < |After(run, actions).app.worktrees|
    ensures var now := After(run, actions); var w, copies := now.app.worktrees[i], now.refresh.value.copies;
      var after := Step(now, EndRefresh(listing)).app;
      && i < |copies| && i < |after.worktrees|
      && after.worktrees[i].agentState == w.agentState
      && EpochOf(after.epochs, w.path)
         == if copies[i].agentState != w.agentState then Bump(EpochOf(now.app.epochs, w.path))
            else EpochOf(now.app.epochs, w.path)
  {
    hide After, TurnsFit, Settled, EndRefreshStep;
    TurnInvAlways(run, actions);
    StatesFollowSessions(run, actions, k);
    EndRefreshEpoch(After(run, actions), listing, i);
    RefreshStepsAre(After(run, actions), listing);
    hide Step;
  }

  /** What a refresh carries over besides: the diff summary copied when it started, and the divergence copied or listed,
      as the listing says. */
  lemma RefreshCarriesOver(run: Run, actions: seq<Action>, listing: seq<Listed>, i: nat)
    requires Initial(run) && RefreshEnds(After(run, actions), listing) && i < |After(run, actions).app.worktrees|
    ensures var now := After(run, actions); var copies := now.refresh.value.copies;
      var after := Step(now, EndRefresh(listing)).app;
      && i < |copies| && i < |listing| && i < |after.worktrees|
      && after.worktrees[i].path == copies[i].path == now.app.worktrees[i].path
      && after.worktrees[i].diffSummary == copies[i].diffSummary
      && after.worktrees[i].branchDivergence
         == if listing[i].keepsDivergence then copies[i].branchDivergence else listing[i].divergence
  {
    hide After, TurnsFit;
    TurnInvAlways(run, actions);
    EndRefreshCarries(After(run, actions), listing, i);
    RefreshStepsAre(After(run, actions), listing);
    hide Step, EndRefreshStep;
  }

  lemma EndRefreshCarries(run: Run, listing: seq<Listed>, i: nat)
    requires DistinctPaths(run.app.worktrees) && RefreshEnds(run, listing)
    requires Paths(run.refresh.value.copies) == Paths(run.app.worktrees) && i < |run.app.worktrees|
    ensures var copies, after := run.refresh.value.copies, EndRefreshStep(run, listing).app;
      && i < |copies| && i < |listing| && i < |after.worktrees|
      && after.worktrees[i].path == copies[i].path == run.app.worktrees[i].path
      && after.worktrees[i].diffSummary == copies[i].diffSummary
      && after.worktrees[i].branchDivergence
         == if listing[i].keepsDivergence then copies[i].branchDivergence else listing[i].divergence
  {
    var copies := run.refresh.value.copies;
    var replaced := Replaced(run.app, copies, listing);
    EqualPathsDistinct(run.app.worktrees, replaced.worktrees);
    EqualPathsDistinct(run.app.worktrees, copies);
    assert Paths(copies)[i] == Paths(run.app.worktrees)[i] == ListedPaths(listing)[i];
    PreviousAt(copies, i);
    SweepIsPointwise(replaced.worktrees, replaced.epochs, DerivedStates(replaced), false, !replaced.outpostActive);
    hide SweepOver, DerivedOver, PointwiseRequests;
  }

  // ---------- where it goes wrong ----------

  function Listing(path: Path): seq<Listed> {
    [Listed(path, None, None, false)]
  }

  /** A job about to report, in a window just started in which one agent has started and stopped. */
  ghost predicate ReadyToReport(run: Run, path: Path, j: nat) {
    && Flipped(run, path, 2)
    && j < |run.jobs| && run.jobs[j].phase == Reporting(None)
    && run.jobs[j].request.path == path && run.jobs[j].request.epoch == 2
  }

  lemma GetReady(path: Path) returns (actions: seq<Action>, j: nat)
    ensures ReadyToReport(After(FreshWindow(path), actions), path, j)
  {
    hide After, Step, FreshWindow, Flip, Flips;
    var start := FreshWindow(path);
    FlipMany(path, 1);
    FlipMany(path, 2);
    FlipNext(path, 1);
    var working, stopped := After(start, Flips(path, 1)), After(start, Flips(path, 2));
    j := |working.jobs|;
    StopRequests(working, path, 1);
    NewJobStays(working, path, 1);
    Evaluated(stopped, j);
    actions := Flips(path, 2) + [Evaluate(j, None, false, false)];
    AfterNext(start, Flips(path, 2), Evaluate(j, None, false, false));
  }

  lemma ReportApplies(run: Run, path: Path, j: nat)
    requires ReadyToReport(run, path, j)
    ensures var reported := ReportStep(StartRefreshStep(run), j);
      && (exists turn :: reported.log == [Applied(j, path, turn)])
      && reported.refresh == Some(Refresh(run.app.worktrees, 0))
      && Paths(reported.app.worktrees) == [path]
  {
    var started := StartRefreshStep(run);
    var outcome := OutcomeOf(run.jobs[j], None);
    var found := FindWorktree(started.app.worktrees, path);
    assert found == Some(0);
    hide FindWorktree;
    assert Target(started.app, outcome) == Some(0);
    ResultKeepsStates(started.app, outcome);
    var turn := TurnOf(run.app.worktrees[0], outcome);
    hide AfterResult, Target;
    assert ReportStep(started, j).log == [Applied(j, path, turn)];
  }

  /** Reporting during a refresh applies a turn; the end of the refresh takes it away. */
  lemma ReportDuringRefresh(run: Run, path: Path, j: nat)
    requires ReadyToReport(run, path, j)
    ensures var end := EndRefreshStep(ReportStep(StartRefreshStep(run), j), Listing(path));
      && |History(end.log, path)| == 1
      && Survivors(end.log, path) == []
      && Paths(end.app.worktrees) == [path]
  {
    var reported := ReportStep(StartRefreshStep(run), j);
    ReportApplies(run, path, j);
    hide ReportStep, StartRefreshStep;
    var turn :| reported.log == [Applied(j, path, turn)];
    LostTurn(j, path, turn);
    assert ListedPaths(Listing(path)) == [path];
    var replaced := Replaced(reported.app, run.app.worktrees, Listing(path));
    assert |replaced.worktrees| == 1;
    SamePaths(replaced, false);
    hide Reconciled, Survivors, History;
    assert EndRefreshStep(reported, Listing(path)).log == [Applied(j, path, turn), Refreshed(0)];
  }

  lemma LostTurn(j: nat, path: Path, turn: Turn)
    ensures var log := [Applied(j, path, turn), Refreshed(0)];
      |History(log, path)| == 1 && Survivors(log, path) == []
  {
    var first := [Applied(j, path, turn)];
    var log := first + [Refreshed(0)];
    assert first[..0] == [];
    assert History(first, path) == [turn] + History([], path);
    assert log[..1] == first;
    assert log == [Applied(j, path, turn), Refreshed(0)];
    SurvivorsRefreshed(first, 0, path);
  }

  /** A turn applied while a refresh is under way is gone when it ends. */
  lemma RefreshLosesTurn(path: Path)
    ensures exists actions ::
      var end := After(FreshWindow(path), actions);
      && Initial(FreshWindow(path))
      && |History(end.log, path)| == 1
      && |end.app.worktrees| == 1 && end.app.worktrees[0].path == path && end.app.worktrees[0].recentTurns == []
  {
    hide After, Step, Survivors, History, ReadyToReport;
    var start := FreshWindow(path);
    var ready, j := GetReady(path);
    var a1 := ready + [StartRefresh];
    var a2 := a1 + [Report(j)];
    var a3 := a2 + [EndRefresh(Listing(path))];
    AfterNext(start, ready, StartRefresh);
    AfterNext(start, a1, Report(j));
    AfterNext(start, a2, EndRefresh(Listing(path)));
    ReportDuringRefresh(After(start, ready), path, j);
    RefreshStepsAre(After(start, ready), []);
    ReportIs(After(start, a1), j);
    RefreshStepsAre(After(start, a2), Listing(path));
    hide StartRefreshStep, ReportStep, EndRefreshStep;
    StartsFresh(path);
    var end := After(start, a3);
    assert Paths(end.app.worktrees)[0] == end.app.worktrees[0].path;
    TurnsMatchSurvivors(start, a3, 0);
    assert end.app.worktrees[0].recentTurns == [];
  }

  /** Where the window is while a session comes and goes during a refresh. */
  ghost predicate Refreshing(run: Run, path: Path, time: nat, sessions: map<string, Session>) {
    && run.refresh.Some? && run.refresh.value.copies == FreshWindow(path).app.worktrees
    && Paths(run.app.worktrees) == [path] && |run.app.worktrees| == 1
    && KeepsActivity(Some(time), run.app.worktrees[0].lastActivity)
    && run.app.sessions == sessions
  }

  lemma SessionComes(run: Run, path: Path, time: nat)
    requires run.refresh.Some? && run.refresh.value.copies == FreshWindow(path).app.worktrees
    requires run.app == FreshWindow(path).app
    ensures var session := Session(path, Waiting, Some(time));
      Refreshing(Step(run, Receive(Update([Entry("s", session)]))), path, time, map["s" := session])
  {
    var session := Session(path, Waiting, Some(time));
    var message := Update([Entry("s", session)]);
    var ready := Prepared(run.app, message);
    InsertedOne(run.app.sessions, Entry("s", session));
    assert ready.sessions == map["s" := session];
    assert Paths(ready.worktrees) == [path];
    assert Deepest(Paths(ready.worktrees), session.cwd, path);
    assert ready.sessions["s"].cwd == path && SessionSince(ready, path, time);
    ReconciledActivity(ready, true, 0, time);
    SamePaths(ready, true);
    hide Reconciled, MessageRequests, Inserted;
  }

  lemma SessionGoes(run: Run, path: Path, time: nat, session: Session)
    requires Refreshing(run, path, time, map["s" := session])
    ensures Refreshing(Step(run, Receive(Clear("s"))), path, time, map[])
  {
    var ready := Prepared(run.app, Clear("s"));
    assert ready.sessions == map[];
    assert Paths(ready.worktrees)[0] == ready.worktrees[0].path;
    ReconciledActivity(ready, false, 0, time);
    SamePaths(ready, false);
    hide Reconciled, MessageRequests;
  }

  lemma NothingLeft(run: Run, path: Path, time: nat)
    requires Refreshing(run, path, time, map[])
    ensures var after := EndRefreshStep(run, Listing(path)).app;
      |after.worktrees| == 1 && after.worktrees[0].lastActivity == None
  {
    var copies := run.refresh.value.copies;
    var replaced := Replaced(run.app, copies, Listing(path));
    assert ListedPaths(Listing(path)) == [path];
    PreviousAt(copies, 0);
    assert replaced.worktrees[0].lastActivity == None;
    ReconciledActivity(replaced, false, 0, 0);
    hide Reconciled, Rebuilt, RebuiltAll;
  }

  /** A session seen only while a refresh is under way leaves no trace of its time. */
  lemma RefreshLowersActivity(path: Path, time: nat)
    ensures exists actions, listing ::
      var now := After(FreshWindow(path), actions);
      var after := Step(now, EndRefresh(listing)).app;
      && Initial(FreshWindow(path))
      && |now.app.worktrees| == 1 && KeepsActivity(Some(time), now.app.worktrees[0].lastActivity)
      && |after.worktrees| == 1 && after.worktrees[0].lastActivity == None
  {
    hide After;
    var start, session := FreshWindow(path), Session(path, Waiting, Some(time));
    var a1 := [StartRefresh];
    var a2 := a1 + [Receive(Update([Entry("s", session)]))];
    var a3 := a2 + [Receive(Clear("s"))];
    AfterOne(start, StartRefresh);
    AfterNext(start, a1, Receive(Update([Entry("s", session)])));
    AfterNext(start, a2, Receive(Clear("s")));
    StartsFresh(path);
    RefreshStepsAre(start, []);
    hide Step;
    SessionComes(After(start, a1), path, time);
    SessionGoes(After(start, a2), path, time, session);
    NothingLeft(After(start, a3), path, time);
    RefreshStepsAre(After(start, a3), Listing(path));
    hide EndRefreshStep;
  }
}
