/** Stale work is recognised: in every interleaving, a request whose epoch is still current belongs to a
    worktree that is still waiting. */
module AgentEpochs {
  import opened Wrappers
  import opened AgentActivity
  import opened AgentWindow
  import opened AgentReconcile
  import opened AgentRuns

  ghost predicate WaitingAt(worktrees: seq<Worktree>, path: Path) {
    forall i :: 0 <= i < |worktrees| && worktrees[i].path == path ==> worktrees[i].agentState == Some(Waiting)
  }

  ghost predicate EpochsBounded(epochs: map<Path, nat>) {
    forall p :: EpochOf(epochs, p) <= U64_MAX
  }

  /** A request was issued for a known worktree at an epoch it has reached; if that epoch is current and the
      counter has not run out, the worktree is waiting. */
  ghost predicate RequestFits(app: App, request: Request) {
    && request.path in Paths(app.worktrees)
    && request.epoch <= EpochOf(app.epochs, request.path)
    && (request.epoch == EpochOf(app.epochs, request.path) < U64_MAX ==> WaitingAt(app.worktrees, request.path))
  }

  /** Requests for one path are issued at increasing epochs. */
  predicate Later(first: Request, second: Request) {
    first.path == second.path ==>
      first.epoch <= second.epoch && (second.epoch < U64_MAX ==> first.epoch < second.epoch)
  }

  ghost predicate EpochInv(run: Run) {
    && DistinctPaths(run.app.worktrees)
    && EpochsBounded(run.app.epochs)
    && (run.jobs != [] ==> Settled(run.app))
    && (forall j :: 0 <= j < |run.jobs| ==> RequestFits(run.app, run.jobs[j].request))
    && (forall i, j :: 0 <= i < j < |run.jobs| ==> Later(run.jobs[i].request, run.jobs[j].request))
  }

  // ---------- messages ----------

  /** The application a message is reconciled against. */
  function Prepared(app: App, message: Message): App {
    app.(sessions := SessionsAfter(app.sessions, message))
  }

  lemma BumpGrows(epoch: nat)
    requires epoch <= U64_MAX
    ensures epoch <= Bump(epoch) <= U64_MAX
    ensures Bump(epoch) < U64_MAX ==> epoch < Bump(epoch)
  {
  }

  /** One worktree across a reconciliation: its epoch never falls, and stands still below the limit only if
      its state did. */
  ghost predicate StepsTogether(before: App, after: App, i: nat)
    requires i < |before.worktrees| == |after.worktrees|
  {
    var w, w', p := before.worktrees[i], after.worktrees[i], before.worktrees[i].path;
    && w'.path == p
    && EpochOf(before.epochs, p) <= EpochOf(after.epochs, p) <= U64_MAX
    && (EpochOf(before.epochs, p) == EpochOf(after.epochs, p) < U64_MAX ==> w'.agentState == w.agentState)
  }

  lemma ReconcileSteps(app: App, allow: bool)
    requires DistinctPaths(app.worktrees) && EpochsBounded(app.epochs)
    ensures var after := Reconciled(app, allow);
      && |after.worktrees| == |app.worktrees|
      && EpochsBounded(after.epochs)
      && forall i :: 0 <= i < |app.worktrees| ==> StepsTogether(app, after, i)
  {
    var after, derived := Reconciled(app, allow), DerivedStates(app);
    SweepIsPointwise(app.worktrees, app.epochs, derived, allow, !app.outpostActive);
    hide SweepOver, DerivedOver;
    forall i | 0 <= i < |app.worktrees|
      ensures StepsTogether(app, after, i)
    {
      BumpGrows(EpochOf(app.epochs, app.worktrees[i].path));
    }
    forall p
      ensures EpochOf(after.epochs, p) <= U64_MAX
    {
      if p in Paths(app.worktrees) {
        var i :| 0 <= i < |app.worktrees| && Paths(app.worktrees)[i] == p;
        assert StepsTogether(app, after, i);
      }
    }
  }

  /** A request that fitted before a reconciliation fits after it. */
  lemma RequestStillFits(app: App, allow: bool, request: Request)
    requires DistinctPaths(app.worktrees) && EpochsBounded(app.epochs) && RequestFits(app, request)
    ensures RequestFits(Reconciled(app, allow), request)
  {
    var after := Reconciled(app, allow);
    ReconcileSteps(app, allow);
    SamePaths(app, allow);
    hide Reconciled, Paths;
    var i :| 0 <= i < |app.worktrees| && Paths(app.worktrees)[i] == request.path;
    assert StepsTogether(app, after, i);
    forall k | 0 <= k < |after.worktrees| && after.worktrees[k].path == request.path
      ensures k == i
    {
      assert StepsTogether(app, after, k);
    }
  }

  /** A request just issued carries the epoch just reached, and its worktree is waiting. */
  lemma NewRequestFits(app: App, allow: bool, k: nat)
    requires DistinctPaths(app.worktrees) && EpochsBounded(app.epochs)
    requires k < |ReconcileRequests(app, allow)|
    ensures var r, after := ReconcileRequests(app, allow)[k], Reconciled(app, allow);
      && allow
      && RequestFits(after, r)
      && r.epoch == Bump(EpochOf(app.epochs, r.path)) == EpochOf(after.epochs, r.path)
  {
    var r, after, derived := ReconcileRequests(app, allow)[k], Reconciled(app, allow), DerivedStates(app);
    SweepIsPointwise(app.worktrees, app.epochs, derived, allow, !app.outpostActive);
    SamePaths(app, allow);
    hide SweepOver, DerivedOver;
    assert FromSome(app.worktrees, app.epochs, derived, allow, !app.outpostActive, r);
    var i :| 0 <= i < |app.worktrees|
      && RequestFor(r, app.worktrees[i], derived, app.epochs, allow, !app.outpostActive);
    RequestPath(r, app.worktrees[i], derived, app.epochs, allow, !app.outpostActive);
    hide WithState, RequestFor;
    assert Paths(after.worktrees)[i] == Paths(app.worktrees)[i] == r.path;
    forall m | 0 <= m < |after.worktrees| && after.worktrees[m].path == r.path
      ensures m == i
    {
      assert Paths(after.worktrees)[m] == Paths(app.worktrees)[m];
    }
  }

  lemma RequestsApart(app: App, allow: bool)
    requires DistinctPaths(app.worktrees)
    ensures var requests := ReconcileRequests(app, allow);
      forall i, j :: 0 <= i < j < |requests| ==> requests[i].path != requests[j].path
  {
    SweepIsPointwise(app.worktrees, app.epochs, DerivedStates(app), allow, !app.outpostActive);
  }

  /** Later requests stay later when a message issues new ones. */
  lemma ReceiveKeepsOrder(run: Run, message: Message, i: nat, j: nat)
    requires EpochInv(run) && i < j < |Step(run, Receive(message)).jobs|
    ensures var jobs := Step(run, Receive(message)).jobs; Later(jobs[i].request, jobs[j].request)
  {
    hide Inserted, Bump, Settled;
    var app, allow := Prepared(run.app, message), AllowsTransitions(message);
    var after, requests := Step(run, Receive(message)), ReconcileRequests(app, allow);
    var n := |run.jobs|;
    if j < n {
      assert Later(run.jobs[i].request, run.jobs[j].request);
    } else {
      NewRequestFits(app, allow, j - n);
      hide Reconciled, ReconcileRequests;
      if i < n {
        assert RequestFits(run.app, run.jobs[i].request);
        BumpGrows(EpochOf(app.epochs, requests[j - n].path));
      } else {
        RequestsApart(app, allow);
        assert requests[i - n].path != requests[j - n].path;
      }
    }
  }

  lemma ReceiveKeepsEpochs(run: Run, message: Message)
    requires EpochInv(run)
    ensures EpochInv(Step(run, Receive(message)))
  {
    hide Inserted;
    var app, allow := Prepared(run.app, message), AllowsTransitions(message);
    var after, n := Step(run, Receive(message)), |run.jobs|;
    SamePaths(app, allow);
    ReconcileSteps(app, allow);
    ReconcileSettles(app, allow);
    assert after.app == Reconciled(app, allow);
    assert after.jobs == run.jobs + NewJobs(ReconcileRequests(app, allow));
    hide Reconciled, ReconcileRequests, Settled, Step, Later;
    forall j | 0 <= j < |after.jobs|
      ensures RequestFits(after.app, after.jobs[j].request)
    {
      if j < n {
        assert RequestFits(app, run.jobs[j].request);
        RequestStillFits(app, allow, run.jobs[j].request);
      } else {
        NewRequestFits(app, allow, j - n);
      }
    }
    forall i, j | 0 <= i < j < |after.jobs|
      ensures Later(after.jobs[i].request, after.jobs[j].request)
    {
      ReceiveKeepsOrder(run, message, i, j);
    }
  }

  // ---------- refreshes ----------

  lemma EqualPathsDistinct(worktrees1: seq<Worktree>, worktrees2: seq<Worktree>)
    requires Paths(worktrees1) == Paths(worktrees2) && DistinctPaths(worktrees1)
    ensures DistinctPaths(worktrees2)
  {
    assert |worktrees1| == |worktrees2|;
    assert forall i :: 0 <= i < |worktrees1| ==> Paths(worktrees1)[i] == worktrees1[i].path == worktrees2[i].path;
  }

  /** Whatever states the new records start from, epochs do not fall, and a request still current finds its
      worktree in the state the sessions dictated before. */
  lemma RefreshKeepsRequest(app: App, copies: seq<Worktree>, listing: seq<Listed>, request: Request)
    requires DistinctPaths(app.worktrees) && EpochsBounded(app.epochs) && Settled(app) && RequestFits(app, request)
    requires ListedPaths(listing) == Paths(app.worktrees)
    ensures RequestFits(AfterRefresh(app, copies, listing), request)
  {
    var replaced := Replaced(app, copies, listing);
    var after := AfterRefresh(app, copies, listing);
    assert Paths(replaced.worktrees) == Paths(app.worktrees) && replaced.epochs == app.epochs;
    EqualPathsDistinct(app.worktrees, replaced.worktrees);
    SamePaths(replaced, false);
    ReconcileSteps(replaced, false);
    ReconcileSettles(replaced, false);
    assert after.sessions == app.sessions;
    hide Reconciled, Paths, SpecState, Rebuilt, RebuiltAll, Replaced;
    var i :| 0 <= i < |replaced.worktrees| && Paths(replaced.worktrees)[i] == request.path;
    assert StepsTogether(replaced, after, i);
    forall k | 0 <= k < |after.worktrees| && after.worktrees[k].path == request.path
      ensures after.worktrees[k].agentState == app.worktrees[k].agentState && app.worktrees[k].path == request.path
    {
      assert Paths(after.worktrees)[k] == Paths(app.worktrees)[k];
    }
  }

  lemma EndRefreshKeepsEpochs(run: Run, listing: seq<Listed>)
    requires EpochInv(run)
    ensures EpochInv(Step(run, EndRefresh(listing)))
  {
    if RefreshEnds(run, listing) {
      var copies, after := run.refresh.value.copies, Step(run, EndRefresh(listing));
      var replaced := Replaced(run.app, copies, listing);
      EqualPathsDistinct(run.app.worktrees, replaced.worktrees);
      SamePaths(replaced, false);
      ReconcileSteps(replaced, false);
      ReconcileSettles(replaced, false);
      assert after.jobs == run.jobs;
      assert after.app == Reconciled(replaced, false);
      hide Reconciled, Settled, RequestFits, Replaced;
      forall j | 0 <= j < |after.jobs|
        ensures RequestFits(after.app, after.jobs[j].request)
      {
        RefreshKeepsRequest(run.app, copies, listing, run.jobs[j].request);
      }
    }
  }

  // ---------- job steps ----------

  /** Nothing a job does touches an epoch or a worktree's state, and its request never changes. */
  ghost predicate Undisturbed(before: Run, after: Run) {
    && after.app.epochs == before.app.epochs
    && after.app.sessions == before.app.sessions
    && Paths(after.app.worktrees) == Paths(before.app.worktrees)
    && (forall i :: 0 <= i < |before.app.worktrees| ==>
          && after.app.worktrees[i].agentState == before.app.worktrees[i].agentState
          && after.app.worktrees[i].lastActivity == before.app.worktrees[i].lastActivity)
    && |after.jobs| == |before.jobs|
    && (forall j :: 0 <= j < |before.jobs| ==> after.jobs[j].request == before.jobs[j].request)
  }

  lemma ResultKeepsStates(app: App, outcome: Outcome)
    ensures var after := AfterResult(app, outcome);
      && after.(worktrees := app.worktrees) == app
      && |after.worktrees| == |app.worktrees|
      && forall i :: 0 <= i < |app.worktrees| ==>
           && after.worktrees[i].path == app.worktrees[i].path
           && after.worktrees[i].agentState == app.worktrees[i].agentState
           && after.worktrees[i].lastActivity == app.worktrees[i].lastActivity
  {
    hide FindWorktree;
  }

  lemma ReportDisturbsNothing(run: Run, j: nat)
    ensures Undisturbed(run, ReportStep(run, j))
  {
    if j < |run.jobs| && run.jobs[j].phase.Reporting? {
      ResultKeepsStates(run.app, OutcomeOf(run.jobs[j], run.jobs[j].phase.result));
    }
    hide AfterResult, Target;
  }

  lemma JobStepsDisturbNothing(run: Run, action: Action)
    requires !Reconciles(action)
    ensures Undisturbed(run, Step(run, action))
  {
    hide ReportStep, AfterMessage, MessageRequests, AfterRefresh;
    if action.Report? {
      ReportDisturbsNothing(run, action.job);
    }
  }

  lemma UndisturbedStaysSettled(before: Run, after: Run)
    requires Settled(before.app) && Undisturbed(before, after)
    ensures Settled(after.app)
  {
    hide SpecState;
    forall i | 0 <= i < |after.app.worktrees|
      ensures after.app.worktrees[i].agentState
           == SpecState(after.app.sessions, Paths(after.app.worktrees), after.app.worktrees[i].path)
    {
      assert Paths(after.app.worktrees)[i] == Paths(before.app.worktrees)[i];
    }
  }

  lemma UndisturbedKeepsEpochs(before: Run, after: Run)
    requires EpochInv(before) && Undisturbed(before, after)
    ensures EpochInv(after)
  {
    forall i | 0 <= i < |after.app.worktrees|
      ensures after.app.worktrees[i].path == before.app.worktrees[i].path
    {
      assert Paths(after.app.worktrees)[i] == Paths(before.app.worktrees)[i];
    }
    if before.jobs != [] {
      UndisturbedStaysSettled(before, after);
    }
    hide Settled;
    forall j | 0 <= j < |after.jobs|
      ensures RequestFits(after.app, after.jobs[j].request)
    {
      assert RequestFits(before.app, before.jobs[j].request);
    }
    forall i, j | 0 <= i < j < |after.jobs|
      ensures Later(after.jobs[i].request, after.jobs[j].request)
    {
      assert Later(before.jobs[i].request, before.jobs[j].request);
    }
  }

  lemma {:induction false} EpochInvAlways(run: Run, actions: seq<Action>)
    requires Initial(run)
    ensures EpochInv(After(run, actions))
    decreases |actions|
  {
    hide Step, EpochInv;
    if actions == [] {
      StartsWell(run);
    } else {
      var previous, action := After(run, actions[..|actions| - 1]), actions[|actions| - 1];
      EpochInvAlways(run, actions[..|actions| - 1]);
      if action.Receive? {
        ReceiveKeepsEpochs(previous, action.message);
      } else if action.EndRefresh? {
        EndRefreshKeepsEpochs(previous, action.listing);
      } else {
        JobStepsDisturbNothing(previous, action);
        UndisturbedKeepsEpochs(previous, Step(previous, action));
      }
    }
  }

  lemma StartsWell(run: Run)
    requires Initial(run)
    ensures EpochInv(run)
  {
  }

  // ---------- main results ----------

  /** In every interleaving, as long as the counter of its path has not run out, a request whose epoch is
      current means that its worktree is waiting. */
  lemma CurrentMeansWaiting(run: Run, actions: seq<Action>, j: nat, i: nat)
    requires Initial(run)
    requires j < |After(run, actions).jobs| && i < |After(run, actions).app.worktrees|
    requires After(run, actions).app.worktrees[i].path == After(run, actions).jobs[j].request.path
    requires Current(After(run, actions), j) && After(run, actions).jobs[j].request.epoch < U64_MAX
    ensures After(run, actions).app.worktrees[i].agentState == Some(Waiting)
  {
    hide After;
    EpochInvAlways(run, actions);
    assert RequestFits(After(run, actions).app, After(run, actions).jobs[j].request);
  }

  /** No step lowers an epoch. */
  lemma EpochsGrow(run: Run, action: Action, path: Path)
    requires EpochInv(run)
    ensures EpochOf(run.app.epochs, path) <= EpochOf(Step(run, action).app.epochs, path)
  {
    if action.Receive? {
      ReconcileRaises(Prepared(run.app, action.message), AllowsTransitions(action.message), path);
    } else if action.EndRefresh? {
      if RefreshEnds(run, action.listing) {
        var replaced := Replaced(run.app, run.refresh.value.copies, action.listing);
        EqualPathsDistinct(run.app.worktrees, replaced.worktrees);
        ReconcileRaises(replaced, false, path);
      }
    } else {
      JobStepsDisturbNothing(run, action);
    }
    hide Reconciled, MessageRequests;
  }

  lemma ReconcileRaises(app: App, allow: bool, path: Path)
    requires DistinctPaths(app.worktrees) && EpochsBounded(app.epochs)
    ensures EpochOf(app.epochs, path) <= EpochOf(Reconciled(app, allow).epochs, path)
  {
    SweepIsPointwise(app.worktrees, app.epochs, DerivedStates(app), allow, !app.outpostActive);
    hide SweepOver, DerivedOver;
    if path in Paths(app.worktrees) {
      var i :| 0 <= i < |app.worktrees| && Paths(app.worktrees)[i] == path;
      BumpGrows(EpochOf(app.epochs, app.worktrees[i].path));
    }
  }

  lemma {:induction false} EpochsGrowOver(run: Run, actions: seq<Action>, more: seq<Action>, path: Path)
    requires Initial(run)
    ensures EpochOf(After(run, actions).app.epochs, path) <= EpochOf(After(run, actions + more).app.epochs, path)
    decreases |more|
  {
    hide Step, EpochInv;
    if more == [] {
      assert actions + more == actions;
    } else {
      var n := |more| - 1;
      EpochsGrowOver(run, actions, more[..n], path);
      EpochInvAlways(run, actions + more[..n]);
      EpochsGrow(After(run, actions + more[..n]), more[n], path);
      assert (actions + more)[..|actions + more| - 1] == actions + more[..n];
    }
  }

  /** A job whose epoch is current below the limit has found its worktree waiting at every moment since it was asked
      for: no message, snapshots and clears included, and no refresh has changed the state in between. */
  lemma WaitingThroughout(run: Run, actions: seq<Action>, more: seq<Action>, j: nat, i: nat)
    requires Initial(run)
    requires j < |After(run, actions).jobs| && i < |After(run, actions).app.worktrees|
    requires After(run, actions).app.worktrees[i].path == After(run, actions).jobs[j].request.path
    requires After(run, actions).jobs[j].request.epoch < U64_MAX
    requires LooksCurrent(After(run, actions + more), j)
    ensures After(run, actions).app.worktrees[i].agentState == Some(Waiting)
  {
    var earlier := After(run, actions);
    AfterMore(run, actions, more);
    RequestsStay(earlier, more, j);
    EpochsGrowOver(run, actions, more, earlier.jobs[j].request.path);
    EpochInvAlways(run, actions);
    hide After;
    assert RequestFits(earlier.app, earlier.jobs[j].request);
  }

  /** Two requests for one path share an epoch exactly if the earlier one was issued at the counter's limit. */
  lemma RequestsDistinct(run: Run, actions: seq<Action>, i: nat, j: nat)
    requires Initial(run) && i < j < |After(run, actions).jobs|
    requires After(run, actions).jobs[i].request.path == After(run, actions).jobs[j].request.path
    ensures After(run, actions).jobs[i].request.epoch == After(run, actions).jobs[j].request.epoch
       <==> After(run, actions).jobs[i].request.epoch == U64_MAX
  {
    EpochInvAlways(run, actions);
    hide After;
    var now := After(run, actions);
    assert Later(now.jobs[i].request, now.jobs[j].request);
    assert RequestFits(now.app, now.jobs[j].request) && EpochsBounded(now.app.epochs);
    assert EpochOf(now.app.epochs, now.jobs[j].request.path) <= U64_MAX;
  }

  /** A reported outcome that is applied belongs to the latest request for its path, and its worktree is
      waiting at that moment. */
  lemma AppliedIsLatest(run: Run, actions: seq<Action>, j: nat, k: nat)
    requires Initial(run)
    requires j < k < |After(run, actions).jobs|
    requires After(run, actions).jobs[j].phase.Reporting? && After(run, actions).jobs[j].request.epoch < U64_MAX
    requires Target(After(run, actions).app,
                    OutcomeOf(After(run, actions).jobs[j], After(run, actions).jobs[j].phase.result)).Some?
    ensures After(run, actions).jobs[k].request.path != After(run, actions).jobs[j].request.path
  {
    hide After, FindWorktree;
    EpochInvAlways(run, actions);
    var now := After(run, actions);
    assert Later(now.jobs[j].request, now.jobs[k].request);
    assert RequestFits(now.app, now.jobs[k].request);
  }

  /** The outcome of a superseded request is applied exactly if it was issued at the counter's limit and its
      worktree happens to be waiting. */
  lemma SupersededAppliedExactly(run: Run, actions: seq<Action>, j: nat, k: nat)
    requires Initial(run) && j < k < |After(run, actions).jobs|
    requires After(run, actions).jobs[j].phase.Reporting?
    requires After(run, actions).jobs[j].request.path == After(run, actions).jobs[k].request.path
    ensures var now := After(run, actions); var job := now.jobs[j];
      Target(now.app, OutcomeOf(job, job.phase.result)).Some?
      <==> job.request.epoch == U64_MAX && WaitingAt(now.app.worktrees, job.request.path)
  {
    EpochInvAlways(run, actions);
    hide After, FindWorktree;
    var now := After(run, actions);
    assert Later(now.jobs[j].request, now.jobs[k].request);
    assert RequestFits(now.app, now.jobs[j].request) && RequestFits(now.app, now.jobs[k].request);
    assert EpochOf(now.app.epochs, now.jobs[j].request.path) <= U64_MAX;
    var found := FindWorktree(now.app.worktrees, now.jobs[j].request.path);
    assert found.Some?;
    assert forall i :: (0 <= i < |now.app.worktrees| && i != found.value
      ==> now.app.worktrees[i].path != now.app.worktrees[found.value].path);
  }

  // ---------- the limit of the counter ----------

  lemma {:induction false} AfterMore(run: Run, actions: seq<Action>, more: seq<Action>)
    ensures After(run, actions + more) == After(After(run, actions), more)
    decreases |more|
  {
    hide Step;
    if more == [] {
      assert actions + more == actions;
    } else {
      var n := |more| - 1;
      AfterMore(run, actions, more[..n]);
      assert (actions + more)[..|actions + more| - 1] == actions + more[..n];
    }
  }

  lemma AfterNext(run: Run, actions: seq<Action>, action: Action)
    ensures After(run, actions + [action]) == Step(After(run, actions), action)
  {
    hide Step;
    assert (actions + [action])[..|actions|] == actions;
  }

  lemma AfterOne(run: Run, action: Action)
    ensures After(run, [action]) == Step(run, action)
  {
    hide Step;
    assert [action][..0] == [];
  }

  /** Job j is still the one it was. */
  ghost predicate SameRequest(before: Run, after: Run, j: nat) {
    j < |before.jobs| && j < |after.jobs| && after.jobs[j].request == before.jobs[j].request
  }

  lemma StepKeepsRequest(run: Run, action: Action, j: nat)
    requires j < |run.jobs|
    ensures SameRequest(run, Step(run, action), j)
  {
    if Reconciles(action) {
      hide AfterMessage, MessageRequests, AfterRefresh;
    } else {
      JobStepsDisturbNothing(run, action);
      hide Step;
    }
  }

  lemma {:induction false} RequestsStay(run: Run, more: seq<Action>, j: nat)
    requires j < |run.jobs|
    ensures SameRequest(run, After(run, more), j)
    decreases |more|
  {
    hide Step;
    if more != [] {
      RequestsStay(run, more[..|more| - 1], j);
      StepKeepsRequest(After(run, more[..|more| - 1]), more[|more| - 1], j);
    }
  }

  ghost predicate LooksCurrent(run: Run, j: nat) {
    j < |run.jobs| && Current(run, j)
  }

  /** Whatever happens next, whenever the job's epoch is current its worktree is waiting. */
  ghost predicate CurrencyCanBeTrusted(run: Run, j: nat)
    requires j < |run.jobs|
  {
    forall more: seq<Action> ::
      LooksCurrent(After(run, more), j) ==> WaitingAt(After(run, more).app.worktrees, run.jobs[j].request.path)
  }

  /** In every interleaving, a current epoch can be trusted to mean a waiting worktree exactly if it is below the
      limit of the counter. */
  lemma TrustedExactly(run: Run, actions: seq<Action>, j: nat)
    requires Initial(run) && j < |After(run, actions).jobs|
    ensures CurrencyCanBeTrusted(After(run, actions), j) <==> After(run, actions).jobs[j].request.epoch < U64_MAX
  {
    var now := After(run, actions);
    EpochInvAlways(run, actions);
    assert RequestFits(now.app, now.jobs[j].request) && EpochsBounded(now.app.epochs);
    hide After;
    if now.jobs[j].request.epoch < U64_MAX {
      forall more: seq<Action> | LooksCurrent(After(now, more), j)
        ensures WaitingAt(After(now, more).app.worktrees, now.jobs[j].request.path)
      {
        AfterMore(run, actions, more);
        RequestsStay(now, more, j);
        forall i | 0 <= i < |After(now, more).app.worktrees|
                   && After(now, more).app.worktrees[i].path == now.jobs[j].request.path
          ensures After(now, more).app.worktrees[i].agentState == Some(Waiting)
        {
          CurrentMeansWaiting(run, actions + more, j, i);
        }
      }
    } else {
      SpentEpochMisleads(now, j);
    }
  }

  function OneSession(path: Path, state: AgentState): Message {
    Update([Entry("s", Session(path, state, None))])
  }

  /** At the limit, an agent that starts again leaves the epoch as it was. */
  lemma SpentEpochMisleads(run: Run, j: nat)
    requires EpochInv(run) && j < |run.jobs| && run.jobs[j].request.epoch >= U64_MAX
    ensures !CurrencyCanBeTrusted(run, j)
  {
    var path := run.jobs[j].request.path;
    assert RequestFits(run.app, run.jobs[j].request);
    assert EpochOf(run.app.epochs, path) == U64_MAX == run.jobs[j].request.epoch;
    var i: nat :| i < |run.app.worktrees| && run.app.worktrees[i].path == path;
    var start := Receive(OneSession(path, Working));
    SessionStarts(run.app, i, Working);
    AfterOne(run, start);
    hide After, AfterMessage, MessageRequests;
    var after := After(run, [start]);
    assert LooksCurrent(after, j);
    assert !WaitingAt(after.app.worktrees, path);
  }

  /** An update about one more session in a worktree's own directory. */
  lemma SessionStarts(app: App, i: nat, state: AgentState)
    requires DistinctPaths(app.worktrees) && i < |app.worktrees|
    requires state == Working || forall id :: id in app.sessions ==> id == "s"
    ensures var path := app.worktrees[i].path;
      var after := AfterMessage(app, OneSession(path, state));
      && |after.worktrees| == |app.worktrees|
      && after.worktrees[i].path == path
      && after.worktrees[i].agentState == Some(state)
      && EpochOf(after.epochs, path)
         == if app.worktrees[i].agentState != Some(state) then Bump(EpochOf(app.epochs, path))
            else EpochOf(app.epochs, path)
  {
    var path := app.worktrees[i].path;
    InsertedOne(app.sessions, Entry("s", Session(path, state, None)));
    var ready := Prepared(app, OneSession(path, state));
    OwnDirectory(ready.sessions, app.worktrees, i, state);
    ReconcileRefinesSpec(ready, true, i);
    EpochsCountChanges(ready, true, i);
    hide Reconciled, SpecState, Inserted;
  }

  lemma OwnDirectory(sessions: map<string, Session>, worktrees: seq<Worktree>, i: nat, state: AgentState)
    requires i < |worktrees|
    requires "s" in sessions && sessions["s"] == Session(worktrees[i].path, state, None)
    requires state == Working || forall id :: id in sessions ==> id == "s"
    ensures SpecState(sessions, Paths(worktrees), worktrees[i].path) == Some(state)
  {
    var path := worktrees[i].path;
    assert Paths(worktrees)[i] == path;
    assert Deepest(Paths(worktrees), sessions["s"].cwd, path);
    assert HasSession(sessions, Paths(worktrees), path, state);
  }

  lemma InsertedOne(sessions: map<string, Session>, entry: Entry)
    ensures Inserted(sessions, [entry]) == sessions[entry.sessionId := entry.session]
  {
    assert [entry][..0] == [];
  }

  // ---------- reaching the limit ----------

  /** A window as it starts: one idle worktree, no session seen and no epoch counted. */
  function FreshWindow(path: Path): Run {
    Run(App([Worktree(path, None, None, [], 0, None, None)], map[], map[], {}, false), [], [], None)
  }

  /** An agent that starts and stops in turn. */
  function Flip(path: Path, k: nat): Action {
    Receive(OneSession(path, if k % 2 == 0 then Working else Waiting))
  }

  function Flips(path: Path, count: nat): (actions: seq<Action>)
    ensures |actions| == count
    ensures forall k :: 0 <= k < count ==> actions[k] == Flip(path, k)
  {
    seq(count, k requires 0 <= k < count => Flip(path, k))
  }

  /** Where the window is after some flips. */
  ghost predicate Flipped(run: Run, path: Path, count: nat) {
    && |run.app.worktrees| == 1 && run.app.worktrees[0].path == path
    && run.app.worktrees[0].agentState == (if count == 0 then None else Some(if count % 2 == 1 then Working else Waiting))
    && EpochOf(run.app.epochs, path) == Min(count, U64_MAX)
    && (forall id :: id in run.app.sessions ==> id == "s")
    && run.log == [] && run.refresh.None? && run.app.inFlight == {} && !run.app.outpostActive
  }

  lemma FlipOnce(run: Run, path: Path, count: nat)
    requires Flipped(run, path, count)
    ensures Flipped(Step(run, Flip(path, count)), path, count + 1)
  {
    var state := if count % 2 == 0 then Working else Waiting;
    SessionStarts(run.app, 0, state);
    InsertedOne(run.app.sessions, Entry("s", Session(path, state, None)));
    SessionsAre(run.app, OneSession(path, state));
    hide AfterMessage, MessageRequests, Inserted;
  }

  lemma SessionsAre(app: App, message: Message)
    ensures AfterMessage(app, message).sessions == SessionsAfter(app.sessions, message)
  {
    hide SweepOver;
  }

  lemma {:induction false} FlipMany(path: Path, count: nat)
    ensures Flipped(After(FreshWindow(path), Flips(path, count)), path, count)
  {
    if count > 0 {
      FlipMany(path, count - 1);
      assert Flips(path, count)[..count - 1] == Flips(path, count - 1);
      hide Flipped, Step, Flip;
      FlipOnce(After(FreshWindow(path), Flips(path, count - 1)), path, count - 1);
    }
  }

  /** The worktree's only session stops. */
  lemma LoneStop(app: App, path: Path)
    requires |app.worktrees| == 1 && app.worktrees[0].path == path && app.worktrees[0].agentState == Some(Working)
    requires app.sessions == map["s" := Session(path, Waiting, None)]
    ensures var requests := ReconcileRequests(app, true);
      |requests| == 1 && requests[0].path == path && requests[0].epoch == Bump(EpochOf(app.epochs, path))
  {
    hide SpecState, DerivedOver, SweepOver, Bump;
    OwnDirectory(app.sessions, app.worktrees, 0, Waiting);
    DerivedIsSpec(app, 0);
    LoneRequests(app, DerivedStates(app));
  }

  /** Stopping issues a request, at the limit if the counter has reached it. */
  lemma StopRequests(run: Run, path: Path, count: nat)
    requires Flipped(run, path, count) && count % 2 == 1
    ensures var after := Step(run, Flip(path, count));
      |after.jobs| == |run.jobs| + 1
      && after.jobs[|run.jobs|].request.path == path
      && after.jobs[|run.jobs|].request.epoch == Min(count + 1, U64_MAX)
  {
    hide AfterMessage, ReconcileRequests, Inserted;
    var message := OneSession(path, Waiting);
    InsertedOne(run.app.sessions, Entry("s", Session(path, Waiting, None)));
    LoneStop(Prepared(run.app, message), path);
  }

  lemma LoneRequests(app: App, derived: map<Path, Derived>)
    requires |app.worktrees| == 1
    ensures SweepOver(app.worktrees, app.epochs, derived, true, !app.outpostActive).requests
         == StepRequests(app.worktrees[0], derived, app.epochs, true, !app.outpostActive)
  {
    hide StepRequests;
    assert app.worktrees[..0] == [];
  }

  /** The limit is within reach of a fresh window: after 2^64 starts and stops a request is issued at the limit,
      and once the agent starts again its epoch is still current. */
  lemma SaturatedEpochsMislead(path: Path)
    ensures exists actions, j: nat ::
      var start := FreshWindow(path);
      var end := After(start, actions);
      && Initial(start) && start.app.epochs == map[]
      && LooksCurrent(end, j) && end.jobs[j].request.path == path && end.jobs[j].request.epoch == U64_MAX
      && |end.app.worktrees| == 1 && end.app.worktrees[0].path == path
      && end.app.worktrees[0].agentState == Some(Working)
  {
    hide After, Flips, LooksCurrent;
    Misled(path, U64_MAX);
    StartsFresh(path);
  }

  lemma StartsFresh(path: Path)
    ensures Initial(FreshWindow(path)) && FreshWindow(path).app.epochs == map[]
  {
  }

  lemma Misled(path: Path, n: nat)
    requires n == U64_MAX
    ensures var end := After(FreshWindow(path), Flips(path, n + 2)); var j := |After(FreshWindow(path), Flips(path, n)).jobs|;
      && LooksCurrent(end, j) && end.jobs[j].request.path == path && end.jobs[j].request.epoch == U64_MAX
      && Flipped(end, path, n + 2)
  {
    hide After, Step, FreshWindow, Flip, Flips;
    var limit := After(FreshWindow(path), Flips(path, n));
    var stopped := After(FreshWindow(path), Flips(path, n + 1));
    var end := After(FreshWindow(path), Flips(path, n + 2));
    FlipMany(path, n);
    FlipMany(path, n + 2);
    FlipNext(path, n);
    FlipNext(path, n + 1);
    StopRequests(limit, path, n);
    StepKeepsRequest(stopped, Flip(path, n + 1), |limit.jobs|);
  }

  /** A job just asked for, and still there after another message. */
  lemma NewJobStays(run: Run, path: Path, count: nat)
    requires Flipped(run, path, count) && count % 2 == 1
    ensures var after := Step(run, Flip(path, count));
      |run.jobs| < |after.jobs| && after.jobs[|run.jobs|].phase == Evaluating
  {
    StopRequests(run, path, count);
    hide AfterMessage, MessageRequests, Flipped;
  }

  lemma MessagesKeepJobs(run: Run, message: Message, j: nat)
    requires j < |run.jobs|
    ensures var after := Step(run, Receive(message)); j < |after.jobs| && after.jobs[j] == run.jobs[j]
  {
    hide AfterMessage, MessageRequests;
  }

  lemma Evaluated(run: Run, j: nat)
    requires j < |run.jobs| && run.jobs[j].phase == Evaluating
    ensures var after := Step(run, Evaluate(j, None, false, false));
      after.app == run.app && after.log == run.log && after.refresh == run.refresh
      && |after.jobs| == |run.jobs| && after.jobs[j].phase == Reporting(None)
      && forall i :: 0 <= i < |run.jobs| ==> after.jobs[i].request == run.jobs[i].request
  {
  }

  ghost predicate AppliesSuperseded(run: Run, j: nat, k: nat) {
    && j < k < |run.jobs| && run.jobs[j].phase.Reporting?
    && run.jobs[j].request.path == run.jobs[k].request.path
    && Target(run.app, OutcomeOf(run.jobs[j], run.jobs[j].phase.result)).Some?
  }

  /** Beyond the limit an outcome is applied although a later request for its path has been issued. */
  lemma SupersededOutcomeApplied(path: Path)
    ensures exists actions, j, k :: AppliesSuperseded(After(FreshWindow(path), actions), j, k)
  {
    hide After, Flips, AppliesSuperseded;
    var j, k := SupersededAt(path, U64_MAX);
  }

  lemma SupersededAt(path: Path, n: nat) returns (j: nat, k: nat)
    requires n == U64_MAX
    ensures AppliesSuperseded(
      After(FreshWindow(path), Flips(path, n + 3) + [Evaluate(j, None, false, false)]), j, k)
  {
    hide After, Step, FreshWindow, Flip, Flips, Target, Initial;
    var start := FreshWindow(path);
    var limit, stopped := After(start, Flips(path, n)), After(start, Flips(path, n + 1));
    var working, again := After(start, Flips(path, n + 2)), After(start, Flips(path, n + 3));
    FlipMany(path, n);
    FlipMany(path, n + 2);
    FlipMany(path, n + 3);
    FlipNext(path, n);
    FlipNext(path, n + 1);
    FlipNext(path, n + 2);
    j, k := |limit.jobs|, |working.jobs|;
    StopRequests(limit, path, n);
    NewJobStays(limit, path, n);
    FlipKeepsJobs(stopped, path, n + 1, j);
    StopRequests(working, path, n + 2);
    FlipKeepsJobs(working, path, n + 2, j);
    Evaluated(again, j);
    var actions := Flips(path, n + 3) + [Evaluate(j, None, false, false)];
    AfterMore(start, Flips(path, n + 3), [Evaluate(j, None, false, false)]);
    AfterOne(again, Evaluate(j, None, false, false));
    StartsFresh(path);
    SupersededAppliedExactly(start, actions, j, k);
  }

  lemma FlipKeepsJobs(run: Run, path: Path, count: nat, j: nat)
    requires j < |run.jobs|
    ensures var after := Step(run, Flip(path, count)); j < |after.jobs| && after.jobs[j] == run.jobs[j]
  {
    hide Step;
    MessagesKeepJobs(run, Flip(path, count).message, j);
  }

  lemma FlipNext(path: Path, n: nat)
    ensures After(FreshWindow(path), Flips(path, n + 1)) == Step(After(FreshWindow(path), Flips(path, n)), Flip(path, n))
  {
    hide Step, Flip;
    assert Flips(path, n + 1)[..n] == Flips(path, n);
  }
}
