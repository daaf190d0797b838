/** What background jobs did, read off the steps of a run: what each was told, what it was allowed, what it committed
    and what its report put into the worktree. */
module AgentJobs {
  import opened Wrappers
  import opened AgentActivity
  import opened AgentWindow
  import opened AgentReconcile
  import opened AgentRuns
  import opened AgentEpochs
  import opened AgentTurns
  import AgentMessages

  // ---------- steps that happened ----------

  /** Step a of the run was this one, taken while the job was in this phase. */
  ghost predicate HappenedAt(run: Run, actions: seq<Action>, a: nat, action: Action, j: nat, phase: Phase) {
    a < |actions| && actions[a] == action && AtPhase(After(run, actions[..a]), j, phase)
  }

  ghost predicate Happened(run: Run, actions: seq<Action>, action: Action, j: nat, phase: Phase) {
    exists a: nat :: HappenedAt(run, actions, a, action, j, phase)
  }

  lemma HappenedAtNext(run: Run, actions: seq<Action>, next: Action, a: nat, action: Action, j: nat, phase: Phase)
    ensures HappenedAt(run, actions + [next], a, action, j, phase)
       <==> if a < |actions| then HappenedAt(run, actions, a, action, j, phase)
            else a == |actions| && next == action && AtPhase(After(run, actions), j, phase)
  {
    hide After, AtPhase;
    if a < |actions| {
      assert (actions + [next])[..a] == actions[..a];
    } else if a == |actions| {
      assert (actions + [next])[..a] == actions;
    }
  }

  lemma HappenedNext(run: Run, actions: seq<Action>, next: Action, action: Action, j: nat, phase: Phase)
    ensures Happened(run, actions + [next], action, j, phase)
       <==> Happened(run, actions, action, j, phase) || (next == action && AtPhase(After(run, actions), j, phase))
  {
    hide After, AtPhase, HappenedAt;
    forall a: nat
      ensures HappenedAt(run, actions + [next], a, action, j, phase)
         <==> if a < |actions| then HappenedAt(run, actions, a, action, j, phase)
              else a == |actions| && next == action && AtPhase(After(run, actions), j, phase)
    {
      HappenedAtNext(run, actions, next, a, action, j, phase);
    }
    forall a: nat | HappenedAt(run, actions, a, action, j, phase)
      ensures a < |actions|
    {
      HappenedWithin(run, actions, a, action, j, phase);
    }
    if next == action && AtPhase(After(run, actions), j, phase) {
      assert HappenedAt(run, actions + [next], |actions|, action, j, phase);
    }
  }

  lemma HappenedWithin(run: Run, actions: seq<Action>, a: nat, action: Action, j: nat, phase: Phase)
    requires HappenedAt(run, actions, a, action, j, phase)
    ensures a < |actions|
  {
  }

  /** The job's first check found its epoch current. */
  ghost predicate FoundCurrentAt(run: Run, actions: seq<Action>, a: nat, j: nat) {
    HappenedAt(run, actions, a, CheckEpoch(j), j, Checking) && Current(After(run, actions[..a]), j)
  }

  ghost predicate FoundCurrent(run: Run, actions: seq<Action>, j: nat) {
    exists a: nat :: FoundCurrentAt(run, actions, a, j)
  }

  lemma FoundCurrentNext(run: Run, actions: seq<Action>, next: Action, j: nat)
    requires FoundCurrent(run, actions, j)
          || (next == CheckEpoch(j) && AtPhase(After(run, actions), j, Checking) && Current(After(run, actions), j))
    ensures FoundCurrent(run, actions + [next], j)
  {
    hide After;
    var longer, n := actions + [next], |actions|;
    assert longer[..n] == actions && longer[n] == next;
    if a: nat :| FoundCurrentAt(run, actions, a, j) {
      assert longer[..a] == actions[..a];
      assert FoundCurrentAt(run, longer, a, j);
    } else {
      assert FoundCurrentAt(run, longer, n, j);
    }
  }

  // ---------- what a job's phase says about its past ----------

  ghost predicate Told(run: Run, actions: seq<Action>, j: nat, summary: Option<DiffSummary>, notify: bool, auto: bool) {
    Happened(run, actions, Evaluate(j, summary, notify, auto), j, Evaluating)
  }

  ghost predicate DidCommit(run: Run, actions: seq<Action>, j: nat, summary: Option<DiffSummary>,
                            divergence: Option<Divergence>)
  {
    Happened(run, actions, Commit(j, CommitDone(summary, divergence)), j, Committing)
  }

  ghost predicate FoundChanges(run: Run, actions: seq<Action>, j: nat) {
    Happened(run, actions, Inspect(j, SomethingChanged), j, Inspecting)
  }

  /** Phases of a job that may commit or has tried to. */
  predicate Admitted(phase: Phase) {
    match phase
    case Evaluating => false
    case Reporting(result) => result.Some?
    case Finished => false
    case _ => true
  }

  function ResultOf(phase: Phase): Option<Checkpoint> {
    match phase
    case Releasing(result) => result
    case Reporting(result) => result
    case _ => None
  }

  predicate HasCommitted(phase: Phase) {
    ResultOf(phase).Some? && ResultOf(phase).value.committed
  }

  /** The job was told exactly once, and it carries what it was told. */
  ghost predicate ToldOnce(run: Run, actions: seq<Action>, j: nat, job: Job) {
    && (forall summary, notify, auto :: Told(run, actions, j, summary, notify, auto) ==>
          !job.phase.Evaluating? && job.diffSummary == summary && job.notificationsAllowed == notify)
    && (!job.phase.Evaluating? ==> exists auto :: Told(run, actions, j, job.diffSummary, job.notificationsAllowed, auto))
  }

  ghost predicate Allowed(run: Run, actions: seq<Action>, j: nat, job: Job) {
    job.request.allowAutoCheckpoint && Told(run, actions, j, job.diffSummary, job.notificationsAllowed, true)
  }

  ghost predicate Earned(run: Run, actions: seq<Action>, j: nat, job: Job) {
    && (Admitted(job.phase) ==> Allowed(run, actions, j, job))
    && (Admitted(job.phase) && !job.phase.Checking? ==> FoundCurrent(run, actions, j))
    && (job.phase.Rechecking? || job.phase.Committing? ==> FoundChanges(run, actions, j))
  }

  ghost predicate Outcomes(run: Run, actions: seq<Action>, j: nat, job: Job) {
    && (HasCommitted(job.phase) ==>
          forall summary, divergence :: DidCommit(run, actions, j, summary, divergence)
            <==> summary == ResultOf(job.phase).value.diffSummary && divergence == ResultOf(job.phase).value.divergence)
    && (!HasCommitted(job.phase) && !job.phase.Finished? ==>
          forall summary, divergence :: !DidCommit(run, actions, j, summary, divergence))
  }

  ghost predicate JobFits(run: Run, actions: seq<Action>, j: nat, job: Job) {
    ToldOnce(run, actions, j, job) && Earned(run, actions, j, job) && Outcomes(run, actions, j, job)
  }

  // ---------- one step ----------

  /** The job a step moves. */
  function Mover(action: Action): Option<nat> {
    match action
    case Receive(_) => None
    case SetOutpost(_) => None
    case Evaluate(j, _, _, _) => Some(j)
    case CheckEpoch(j) => Some(j)
    case TakeSlot(j) => Some(j)
    case Inspect(j, _) => Some(j)
    case Recheck(j) => Some(j)
    case Commit(j, _) => Some(j)
    case ReleaseSlot(j) => Some(j)
    case Report(j) => Some(j)
    case StartRefresh => None
    case EndRefresh(_) => None
  }

  lemma OthersUntouched(run: Run, action: Action, j: nat)
    requires j < |run.jobs| && Mover(action) != Some(j)
    ensures j < |Step(run, action).jobs| && Step(run, action).jobs[j] == run.jobs[j]
  {
    hide AfterMessage, MessageRequests, AfterRefresh, AfterResult, Target;
  }

  /** How a step may move the job it is about; its request never changes. */
  ghost predicate Moves(run: Run, action: Action, j: nat, job: Job, job': Job)
    requires j < |run.jobs|
  {
    && job'.request == job.request
    && match action
       case Evaluate(_, summary, notify, auto) =>
         if job.phase.Evaluating? then
           job'.diffSummary == summary && job'.notificationsAllowed == notify
           && job'.phase == (if job.request.allowAutoCheckpoint && auto then Checking else Reporting(None))
         else job' == job
       case CheckEpoch(_) =>
         if job.phase.Checking? then job' == job.(phase := if Current(run, j) then TakingSlot else Reporting(None))
         else job' == job
       case TakeSlot(_) =>
         job' == job || (job.phase.TakingSlot? && (job'.phase == Inspecting || job'.phase == Reporting(None))
                         && job' == job.(phase := job'.phase))
       case Inspect(_, found) =>
         if job.phase.Inspecting? then
           job' == job.(phase := match found
                                 case InspectionFailed => Releasing(Some(Checkpoint(false, None, None)))
                                 case NothingChanged => Releasing(None)
                                 case SomethingChanged => Rechecking)
         else job' == job
       case Recheck(_) =>
         if job.phase.Rechecking? then job' == job.(phase := if Current(run, j) then Committing else Releasing(None))
         else job' == job
       case Commit(_, outcome) =>
         if job.phase.Committing? then
           job' == job.(phase := match outcome
                                 case CommitDone(s, d) => Releasing(Some(Checkpoint(true, s, d)))
                                 case NothingToCommit => Releasing(None)
                                 case CommitFailed => Releasing(Some(Checkpoint(false, None, None))))
         else job' == job
       case ReleaseSlot(_) =>
         if job.phase.Releasing? then job' == job.(phase := Reporting(job.phase.result)) else job' == job
       case Report(_) => if job.phase.Reporting? then job' == job.(phase := Finished) else job' == job
       case _ => false
  }

  lemma MoverMoves(run: Run, action: Action, j: nat)
    requires j < |run.jobs| && Mover(action) == Some(j)
    ensures j < |Step(run, action).jobs| && Moves(run, action, j, run.jobs[j], Step(run, action).jobs[j])
  {
    hide AfterResult, Target, FindWorktree;
  }

  lemma ToldOnceNext(run: Run, actions: seq<Action>, next: Action, j: nat, job: Job, job': Job)
    requires ToldOnce(run, actions, j, job) && AtPhase(After(run, actions), j, job.phase)
    requires if Mover(next) == Some(j) then Moves(After(run, actions), next, j, job, job') else job' == job
    ensures ToldOnce(run, actions + [next], j, job')
  {
    hide After, Happened;
    forall summary, notify, auto
      ensures Told(run, actions + [next], j, summary, notify, auto)
         <==> (|| Told(run, actions, j, summary, notify, auto)
               || (next == Evaluate(j, summary, notify, auto) && job.phase.Evaluating?))
    {
      HappenedNext(run, actions, next, Evaluate(j, summary, notify, auto), j, Evaluating);
    }
    hide Told, Current;
    if !job.phase.Evaluating? {
      var auto :| Told(run, actions, j, job.diffSummary, job.notificationsAllowed, auto);
      assert Told(run, actions + [next], j, job.diffSummary, job.notificationsAllowed, auto);
    } else if next.Evaluate? && next.job == j {
      assert Told(run, actions + [next], j, next.summary, next.notify, next.autoCheckpoint);
    }
  }

  lemma EarnedNext(run: Run, actions: seq<Action>, next: Action, j: nat, job: Job, job': Job)
    requires Earned(run, actions, j, job) && AtPhase(After(run, actions), j, job.phase)
    requires After(run, actions).jobs[j] == job
    requires if Mover(next) == Some(j) then Moves(After(run, actions), next, j, job, job') else job' == job
    ensures Earned(run, actions + [next], j, job')
  {
    hide After, Happened, FoundCurrent;
    HappenedNext(run, actions, next, Evaluate(j, job'.diffSummary, job'.notificationsAllowed, true), j, Evaluating);
    HappenedNext(run, actions, next, Inspect(j, SomethingChanged), j, Inspecting);
    if FoundCurrent(run, actions, j)
      || (next == CheckEpoch(j) && job.phase.Checking? && Current(After(run, actions), j))
    {
      FoundCurrentNext(run, actions, next, j);
    }
    hide Current;
  }

  lemma OutcomesNext(run: Run, actions: seq<Action>, next: Action, j: nat, job: Job, job': Job)
    requires Outcomes(run, actions, j, job) && AtPhase(After(run, actions), j, job.phase)
    requires if Mover(next) == Some(j) then Moves(After(run, actions), next, j, job, job') else job' == job
    ensures Outcomes(run, actions + [next], j, job')
  {
    hide After, Happened;
    forall summary, divergence
      ensures DidCommit(run, actions + [next], j, summary, divergence)
         <==> (|| DidCommit(run, actions, j, summary, divergence)
               || (next == Commit(j, CommitDone(summary, divergence)) && job.phase.Committing?))
    {
      HappenedNext(run, actions, next, Commit(j, CommitDone(summary, divergence)), j, Committing);
    }
    hide DidCommit, Current;
  }

  lemma JobNext(run: Run, actions: seq<Action>, next: Action, j: nat)
    requires j < |After(run, actions).jobs| && JobFits(run, actions, j, After(run, actions).jobs[j])
    ensures j < |Step(After(run, actions), next).jobs|
    ensures JobFits(run, actions + [next], j, Step(After(run, actions), next).jobs[j])
  {
    hide After, ToldOnce, Earned, Outcomes, Moves;
    var now := After(run, actions);
    if Mover(next) == Some(j) {
      MoverMoves(now, next, j);
    } else {
      OthersUntouched(now, next, j);
    }
    hide Step;
    ToldOnceNext(run, actions, next, j, now.jobs[j], Step(now, next).jobs[j]);
    EarnedNext(run, actions, next, j, now.jobs[j], Step(now, next).jobs[j]);
    OutcomesNext(run, actions, next, j, now.jobs[j], Step(now, next).jobs[j]);
  }

  // ---------- whole runs ----------

  lemma JobsGrow(run: Run, action: Action)
    ensures |run.jobs| <= |Step(run, action).jobs|
    ensures !action.Receive? ==> |Step(run, action).jobs| == |run.jobs|
  {
    if !Reconciles(action) {
      JobStepsDisturbNothing(run, action);
      hide Step;
    } else {
      hide AfterMessage, MessageRequests, AfterRefresh;
    }
  }

  /** Nothing has happened to a job not asked for yet. */
  lemma {:induction false} NothingBefore(run: Run, actions: seq<Action>, action: Action, j: nat, phase: Phase)
    requires j >= |After(run, actions).jobs|
    ensures !Happened(run, actions, action, j, phase)
    decreases |actions|
  {
    hide Step, Happened;
    if actions == [] {
      NothingYet(run, action, j, phase);
    } else {
      var n := |actions| - 1;
      JobsGrow(After(run, actions[..n]), actions[n]);
      NothingBefore(run, actions[..n], action, j, phase);
      HappenedNext(run, actions[..n], actions[n], action, j, phase);
      SplitLast(actions);
    }
  }

  lemma NothingYet(run: Run, action: Action, j: nat, phase: Phase)
    ensures !Happened(run, [], action, j, phase)
  {
  }

  lemma NewJobFits(run: Run, actions: seq<Action>, message: Message, j: nat)
    requires |After(run, actions).jobs| <= j < |Step(After(run, actions), Receive(message)).jobs|
    ensures JobFits(run, actions + [Receive(message)], j, Step(After(run, actions), Receive(message)).jobs[j])
  {
    hide After, Happened;
    var longer := actions + [Receive(message)];
    forall action, phase
      ensures !Happened(run, longer, action, j, phase)
    {
      NothingBefore(run, actions, action, j, phase);
      HappenedNext(run, actions, Receive(message), action, j, phase);
    }
    assert Step(After(run, actions), Receive(message)).jobs[j].phase == Evaluating;
    hide Step;
  }

  lemma {:induction false} JobsFitAlways(run: Run, actions: seq<Action>, j: nat)
    requires Initial(run) && j < |After(run, actions).jobs|
    ensures JobFits(run, actions, j, After(run, actions).jobs[j])
    decreases |actions|
  {
    hide Step, JobFits;
    if actions != [] {
      var n := |actions| - 1;
      SplitLast(actions);
      JobsGrow(After(run, actions[..n]), actions[n]);
      if j < |After(run, actions[..n]).jobs| {
        JobsFitAlways(run, actions[..n], j);
        JobNext(run, actions[..n], actions[n], j);
      } else {
        NewJobFits(run, actions[..n], actions[n].message, j);
      }
    }
  }

  /** Step a is the message that asked for the job. */
  ghost predicate AskedAt(run: Run, actions: seq<Action>, a: nat, j: nat, request: Request) {
    && a < |actions| && actions[a].Receive?
    && |After(run, actions[..a]).jobs| <= j
    && request in MessageRequests(After(run, actions[..a]).app, actions[a].message)
  }

  ghost predicate Asked(run: Run, actions: seq<Action>, j: nat, request: Request) {
    exists a: nat :: AskedAt(run, actions, a, j, request)
  }

  lemma AskedStays(run: Run, actions: seq<Action>, next: Action, j: nat, request: Request)
    requires Asked(run, actions, j, request)
    ensures Asked(run, actions + [next], j, request)
  {
    hide After, MessageRequests;
    var a: nat :| AskedAt(run, actions, a, j, request);
    assert (actions + [next])[..a] == actions[..a];
    assert AskedAt(run, actions + [next], a, j, request);
  }

  /** Every job was asked for by a message, with the request it carries. */
  lemma {:induction false} JobsWereAsked(run: Run, actions: seq<Action>, j: nat)
    requires Initial(run) && j < |After(run, actions).jobs|
    ensures Asked(run, actions, j, After(run, actions).jobs[j].request)
    decreases |actions|
  {
    hide Step, Asked;
    if actions != [] {
      var n := |actions| - 1;
      var before := After(run, actions[..n]);
      SplitLast(actions);
      JobsGrow(before, actions[n]);
      if j < |before.jobs| {
        JobsWereAsked(run, actions[..n], j);
        StepKeepsRequest(before, actions[n], j);
        AskedStays(run, actions[..n], actions[n], j, before.jobs[j].request);
      } else {
        AskedJustNow(run, actions, j);
      }
    }
  }

  lemma AskedJustNow(run: Run, actions: seq<Action>, j: nat)
    requires actions != []
    requires actions[|actions| - 1].Receive?
    requires |After(run, actions[..|actions| - 1]).jobs| <= j
    requires j < |Step(After(run, actions[..|actions| - 1]), actions[|actions| - 1]).jobs|
    ensures Asked(run, actions, j, Step(After(run, actions[..|actions| - 1]), actions[|actions| - 1]).jobs[j].request)
  {
    hide After, AfterMessage, MessageRequests;
    var n := |actions| - 1;
    var before, requests := After(run, actions[..n]), MessageRequests(After(run, actions[..n]).app, actions[n].message);
    assert Step(before, actions[n]).jobs[j].request == requests[j - |before.jobs|];
    assert AskedAt(run, actions, n, j, requests[j - |before.jobs|]);
  }

  // ---------- the record ----------

  /** The turn a report recorded: the time of the request or, if it has none, the worktree's last activity then. */
  ghost predicate TimeFits(worktrees: seq<Worktree>, request: Request, turn: Turn) {
    exists t :: 0 <= t < |worktrees| && worktrees[t].path == request.path
                && turn.timestamp == if request.updatedAt.Some? then request.updatedAt else worktrees[t].lastActivity
  }

  /** What a step records. */
  ghost predicate EventFits(run: Run, action: Action, event: Event) {
    match event
    case Committed(j) => AtPhase(run, j, Committing) && action.Commit? && action.job == j && action.outcome.CommitDone?
    case Applied(j, path, turn) =>
      && action == Report(j) && j < |run.jobs| && run.jobs[j].phase.Reporting?
      && path == run.jobs[j].request.path && turn.summary == run.jobs[j].diffSummary
      && TimeFits(run.app.worktrees, run.jobs[j].request, turn)
    case _ => true
  }

  lemma ReportRecords(run: Run, j: nat)
    ensures var log := ReportStep(run, j).log;
      log == run.log || exists e :: log == run.log + [e] && EventFits(run, Report(j), e)
  {
    if j < |run.jobs| && run.jobs[j].phase.Reporting? {
      hide AfterResult, FindWorktree;
      var job := run.jobs[j];
      var outcome := OutcomeOf(job, job.phase.result);
      var target := Target(run.app, outcome);
      if target.Some? {
        var turn := TurnOf(run.app.worktrees[target.value], outcome);
        assert TimeFits(run.app.worktrees, job.request, turn);
        assert ReportStep(run, j).log == run.log + [Applied(j, outcome.path, turn)];
      }
    }
  }

  lemma StepRecords(run: Run, action: Action)
    ensures var log := Step(run, action).log;
      log == run.log || exists e :: log == run.log + [e] && EventFits(run, action, e)
  {
    hide ReportStep, AfterMessage, MessageRequests, AfterRefresh, TimeFits;
    var log := Step(run, action).log;
    if action.Report? {
      ReportRecords(run, action.job);
    } else if |log| == |run.log| + 1 {
      assert log == run.log + [log[|run.log|]];
    }
  }

  ghost predicate ReportedAt(run: Run, actions: seq<Action>, a: nat, c: nat, j: nat, request: Request, turn: Turn) {
    && a < |actions| && actions[a] == Report(j)
    && |After(run, actions[..a]).log| == c
    && TimeFits(After(run, actions[..a]).app.worktrees, request, turn)
  }

  /** The turn recorded at c carries what its job was told and the time it reported at. */
  ghost predicate TurnSupplied(run: Run, actions: seq<Action>, c: nat, jobs: seq<Job>, event: Event)
    requires event.Applied?
  {
    && event.job < |jobs| && event.path == jobs[event.job].request.path
    && event.turn.summary == jobs[event.job].diffSummary && !jobs[event.job].phase.Evaluating?
    && exists a: nat :: ReportedAt(run, actions, a, c, event.job, jobs[event.job].request, event.turn)
  }

  /** The job of a recorded commit was allowed to, had found its epoch current and changes to commit, and committed. */
  ghost predicate CommitEarned(run: Run, actions: seq<Action>, jobs: seq<Job>, j: nat) {
    && j < |jobs| && jobs[j].request.allowAutoCheckpoint
    && (exists summary, notify :: Told(run, actions, j, summary, notify, true))
    && FoundCurrent(run, actions, j) && FoundChanges(run, actions, j)
    && exists summary, divergence :: DidCommit(run, actions, j, summary, divergence)
  }

  ghost predicate EventsFit(run: Run, actions: seq<Action>, end: Run) {
    forall c: nat :: c < |end.log| ==>
      && (end.log[c].Applied? ==> TurnSupplied(run, actions, c, end.jobs, end.log[c]))
      && (end.log[c].Committed? ==> CommitEarned(run, actions, end.jobs, end.log[c].job))
  }

  lemma ToldStays(run: Run, actions: seq<Action>, next: Action, j: nat, action: Action, phase: Phase)
    requires Happened(run, actions, action, j, phase)
    ensures Happened(run, actions + [next], action, j, phase)
  {
    hide Happened;
    HappenedNext(run, actions, next, action, j, phase);
  }

  /** A job once told keeps what it was told and asked. */
  lemma JobKeeps(run: Run, action: Action, j: nat)
    requires j < |run.jobs| && !run.jobs[j].phase.Evaluating?
    ensures j < |Step(run, action).jobs|
    ensures var job, job' := run.jobs[j], Step(run, action).jobs[j];
      job'.request == job.request && job'.diffSummary == job.diffSummary && !job'.phase.Evaluating?
  {
    if Mover(action) == Some(j) {
      MoverMoves(run, action, j);
    } else {
      OthersUntouched(run, action, j);
    }
    hide Step;
  }

  lemma TurnStaysSupplied(run: Run, actions: seq<Action>, next: Action, c: nat, event: Event)
    requires event.Applied? && TurnSupplied(run, actions, c, After(run, actions).jobs, event)
    ensures TurnSupplied(run, actions + [next], c, Step(After(run, actions), next).jobs, event)
  {
    hide After, TimeFits;
    var jobs, longer := After(run, actions).jobs, actions + [next];
    JobKeeps(After(run, actions), next, event.job);
    hide Step;
    var a: nat :| ReportedAt(run, actions, a, c, event.job, jobs[event.job].request, event.turn);
    assert longer[..a] == actions[..a];
    assert ReportedAt(run, longer, a, c, event.job, jobs[event.job].request, event.turn);
  }

  lemma TurnJustSupplied(run: Run, actions: seq<Action>, next: Action, event: Event)
    requires event.Applied? && EventFits(After(run, actions), next, event)
    ensures TurnSupplied(run, actions + [next], |After(run, actions).log|, Step(After(run, actions), next).jobs, event)
  {
    hide After, TimeFits;
    var now, longer := After(run, actions), actions + [next];
    JobKeeps(now, next, event.job);
    hide Step;
    assert longer[..|actions|] == actions;
    assert ReportedAt(run, longer, |actions|, |now.log|, event.job, now.jobs[event.job].request, event.turn);
  }

  lemma CommitStaysEarned(run: Run, actions: seq<Action>, next: Action, j: nat)
    requires CommitEarned(run, actions, After(run, actions).jobs, j)
    ensures CommitEarned(run, actions + [next], Step(After(run, actions), next).jobs, j)
  {
    hide After, Happened, FoundCurrent;
    var summary, notify :| Told(run, actions, j, summary, notify, true);
    ToldStays(run, actions, next, j, Evaluate(j, summary, notify, true), Evaluating);
    assert Told(run, actions + [next], j, summary, notify, true);
    var done, divergence :| DidCommit(run, actions, j, done, divergence);
    ToldStays(run, actions, next, j, Commit(j, CommitDone(done, divergence)), Committing);
    assert DidCommit(run, actions + [next], j, done, divergence);
    ToldStays(run, actions, next, j, Inspect(j, SomethingChanged), Inspecting);
    FoundCurrentNext(run, actions, next, j);
    StepKeepsRequest(After(run, actions), next, j);
    hide Step;
  }

  lemma CommitJustEarned(run: Run, actions: seq<Action>, next: Action, j: nat)
    requires Initial(run) && EventFits(After(run, actions), next, Committed(j))
    ensures CommitEarned(run, actions + [next], Step(After(run, actions), next).jobs, j)
  {
    hide After, Happened, FoundCurrent;
    JobsFitAlways(run, actions, j);
    var job := After(run, actions).jobs[j];
    assert Earned(run, actions, j, job);
    ToldStays(run, actions, next, j, Evaluate(j, job.diffSummary, job.notificationsAllowed, true), Evaluating);
    assert Told(run, actions + [next], j, job.diffSummary, job.notificationsAllowed, true);
    ToldStays(run, actions, next, j, Inspect(j, SomethingChanged), Inspecting);
    FoundCurrentNext(run, actions, next, j);
    HappenedNext(run, actions, next, next, j, Committing);
    assert DidCommit(run, actions + [next], j, next.outcome.summary, next.outcome.divergence);
    StepKeepsRequest(After(run, actions), next, j);
    hide Step;
  }

  lemma {:induction false} EventsFitAlways(run: Run, actions: seq<Action>)
    requires Initial(run)
    ensures EventsFit(run, actions, After(run, actions))
    decreases |actions|
  {
    hide Step, TurnSupplied, CommitEarned, EventFits;
    if actions != [] {
      var n := |actions| - 1;
      var now, next := After(run, actions[..n]), actions[n];
      EventsFitAlways(run, actions[..n]);
      StepRecords(now, next);
      SplitLast(actions);
      var after := Step(now, next);
      assert after == After(run, actions);
      hide After;
      forall c: nat | c < |after.log|
        ensures after.log[c].Applied? ==> TurnSupplied(run, actions, c, after.jobs, after.log[c])
        ensures after.log[c].Committed? ==> CommitEarned(run, actions, after.jobs, after.log[c].job)
      {
        if c < |now.log| {
          if after.log[c].Applied? { TurnStaysSupplied(run, actions[..n], next, c, now.log[c]); }
          if after.log[c].Committed? { CommitStaysEarned(run, actions[..n], next, now.log[c].job); }
        } else {
          assert EventFits(now, next, after.log[c]);
          if after.log[c].Applied? { TurnJustSupplied(run, actions[..n], next, after.log[c]); }
          if after.log[c].Committed? { CommitJustEarned(run, actions[..n], next, after.log[c].job); }
        }
      }
    }
  }

  // ---------- main results ----------

  /** In every interleaving, each turn recorded for a worktree has the diff summary its job was told, and the time of
      the job's request or, if it has none, the worktree's last activity when the job reported. */
  lemma TurnsAreSupplied(run: Run, actions: seq<Action>, c: nat)
    requires Initial(run) && c < |After(run, actions).log| && After(run, actions).log[c].Applied?
    ensures var end := After(run, actions); var event := end.log[c];
      && event.job < |end.jobs| && event.path == end.jobs[event.job].request.path
      && (exists notify, auto :: Told(run, actions, event.job, event.turn.summary, notify, auto))
      && (forall summary, notify, auto ::
            Told(run, actions, event.job, summary, notify, auto) ==> summary == event.turn.summary)
      && exists a: nat :: ReportedAt(run, actions, a, c, event.job, end.jobs[event.job].request, event.turn)
  {
    hide After, Told, ReportedAt;
    EventsFitAlways(run, actions);
    var end := After(run, actions);
    assert TurnSupplied(run, actions, c, end.jobs, end.log[c]);
    JobsFitAlways(run, actions, end.log[c].job);
  }

  /** In every interleaving, a job that committed was asked for while no outpost was active, was told that checkpoints
      are allowed, and had found its epoch current and something to commit. */
  lemma CommitsWereAllowed(run: Run, actions: seq<Action>, c: nat)
    requires Initial(run) && c < |After(run, actions).log| && After(run, actions).log[c].Committed?
    ensures var end := After(run, actions); var j := end.log[c].job;
      && j < |end.jobs|
      && (exists a: nat :: AskedAt(run, actions, a, j, end.jobs[j].request)
                           && !After(run, actions[..a]).app.outpostActive)
      && (exists summary, notify :: Told(run, actions, j, summary, notify, true))
      && FoundCurrent(run, actions, j) && FoundChanges(run, actions, j)
      && exists summary, divergence :: DidCommit(run, actions, j, summary, divergence)
  {
    hide After, Told, FoundCurrent, FoundChanges, DidCommit, MessageRequests;
    EventsFitAlways(run, actions);
    var end := After(run, actions);
    var j := end.log[c].job;
    assert CommitEarned(run, actions, end.jobs, j);
    JobsWereAsked(run, actions, j);
    var a: nat :| AskedAt(run, actions, a, j, end.jobs[j].request);
    EpochInvAlways(run, actions[..a]);
    AgentMessages.DistinctStill(After(run, actions[..a]));
    AgentMessages.RequestsExactly(After(run, actions[..a]).app, actions[a].message, end.jobs[j].request);
  }

  lemma AppliedSets(app: App, outcome: Outcome, t: nat)
    requires Target(app, outcome) == Some(t)
    ensures var after := AfterResult(app, outcome);
      && t < |app.worktrees| == |after.worktrees|
      && if outcome.autoCheckpoint.Some? && outcome.autoCheckpoint.value.committed then
           && after.worktrees[t].diffSummary == outcome.autoCheckpoint.value.diffSummary
           && after.worktrees[t].branchDivergence == outcome.autoCheckpoint.value.divergence
         else
           && after.worktrees[t].diffSummary == app.worktrees[t].diffSummary
           && after.worktrees[t].branchDivergence == app.worktrees[t].branchDivergence
  {
    hide FindWorktree;
  }

  /** In every interleaving, an applied report sets the worktree's two summaries to what the job's commit gave, and
      leaves them alone if the job did not commit. */
  lemma ReportSetsSummaries(run: Run, actions: seq<Action>, j: nat, t: nat)
    requires Initial(run) && j < |After(run, actions).jobs| && After(run, actions).jobs[j].phase.Reporting?
    requires var now := After(run, actions);
      Target(now.app, OutcomeOf(now.jobs[j], now.jobs[j].phase.result)) == Some(t)
    ensures var now := After(run, actions); var after := Step(now, Report(j)).app;
      && t < |now.app.worktrees| == |after.worktrees|
      && (forall summary, divergence :: DidCommit(run, actions, j, summary, divergence) ==>
            after.worktrees[t].diffSummary == summary && after.worktrees[t].branchDivergence == divergence)
      && ((forall summary, divergence :: !DidCommit(run, actions, j, summary, divergence)) ==>
            && after.worktrees[t].diffSummary == now.app.worktrees[t].diffSummary
            && after.worktrees[t].branchDivergence == now.app.worktrees[t].branchDivergence)
  {
    hide After, DidCommit, AfterResult, Target;
    JobsFitAlways(run, actions, j);
    var now := After(run, actions);
    assert Outcomes(run, actions, j, now.jobs[j]);
    ReportIs(now, j);
    AppliedSets(now.app, OutcomeOf(now.jobs[j], now.jobs[j].phase.result), t);
    hide Step;
    var result := now.jobs[j].phase.result;
    if result.Some? && result.value.committed {
      assert DidCommit(run, actions, j, result.value.diffSummary, result.value.divergence);
    }
  }

  /** The summaries the jobs of a worktree's surviving turns were told, newest first. */
  ghost function SummariesTold(jobs: seq<Job>, log: seq<Event>, path: Path, n: nat): seq<Option<DiffSummary>>
    requires n <= |log|
  {
    if n == 0 then []
    else if AppliesAt(log, path, n - 1) && !LostAt(log, n - 1) then
      [if log[n - 1].job < |jobs| then jobs[log[n - 1].job].diffSummary else None] + SummariesTold(jobs, log, path, n - 1)
    else SummariesTold(jobs, log, path, n - 1)
  }

  lemma {:induction false} SurvivorsWereTold(jobs: seq<Job>, log: seq<Event>, path: Path, n: nat)
    requires n <= |log|
    requires forall c :: 0 <= c < |log| && log[c].Applied? ==>
      log[c].job < |jobs| && log[c].turn.summary == jobs[log[c].job].diffSummary
    ensures |SummariesTold(jobs, log, path, n)| == |SurvivorsUpTo(log, path, n)|
    ensures forall i :: 0 <= i < |SurvivorsUpTo(log, path, n)| ==>
      SurvivorsUpTo(log, path, n)[i].summary == SummariesTold(jobs, log, path, n)[i]
  {
    hide LostAt;
    if n > 0 {
      SurvivorsWereTold(jobs, log, path, n - 1);
    }
  }

  /** The counter is one less than the length of the longest stretch of equal summaries at the newest end. */
  predicate Counts(counter: nat, summaries: seq<Option<DiffSummary>>) {
    if summaries == [] then counter == 0
    else
      && counter < |summaries|
      && (forall i :: 0 <= i <= counter ==> summaries[i] == summaries[0])
      && (counter + 1 < |summaries| ==> summaries[counter + 1] != summaries[0])
  }

  lemma StuckCountCounts(history: seq<Turn>, summaries: seq<Option<DiffSummary>>)
    requires |summaries| == |history| && forall i :: 0 <= i < |history| ==> history[i].summary == summaries[i]
    ensures Counts(StuckCount(history), summaries)
  {
    if history != [] {
      RunLengthIsLongest(history);
      hide RunLength;
    }
  }

  /** In every interleaving, the turns a worktree shows have the summaries the jobs of its surviving turns were told,
      and the stuck counter counts how often the newest of those repeats. */
  lemma StuckCountIsTold(run: Run, actions: seq<Action>, i: nat)
    requires Initial(run) && i < |After(run, actions).app.worktrees|
    ensures var end := After(run, actions); var w := end.app.worktrees[i];
      var summaries := SummariesTold(end.jobs, end.log, w.path, |end.log|);
      && Counts(w.stuckTurnCount, summaries)
      && |w.recentTurns| == Min(5, |summaries|)
      && forall k :: 0 <= k < |w.recentTurns| ==> w.recentTurns[k].summary == summaries[k]
  {
    hide After, SurvivorsUpTo, SummariesTold, Counts, StuckCount, TurnSupplied;
    var end := After(run, actions);
    var w := end.app.worktrees[i];
    TurnsMatchSurvivors(run, actions, i);
    EventsFitAlways(run, actions);
    forall c | 0 <= c < |end.log| && end.log[c].Applied?
      ensures end.log[c].job < |end.jobs| && end.log[c].turn.summary == end.jobs[end.log[c].job].diffSummary
    {
      assert TurnSupplied(run, actions, c, end.jobs, end.log[c]);
      SuppliedSummary(run, actions, c, end.jobs, end.log[c]);
    }
    SurvivorsWereTold(end.jobs, end.log, w.path, |end.log|);
    StuckCountCounts(Survivors(end.log, w.path), SummariesTold(end.jobs, end.log, w.path, |end.log|));
  }

  lemma SuppliedSummary(run: Run, actions: seq<Action>, c: nat, jobs: seq<Job>, event: Event)
    requires event.Applied? && TurnSupplied(run, actions, c, jobs, event)
    ensures event.job < |jobs| && event.turn.summary == jobs[event.job].diffSummary
  {
  }

  /** In every interleaving, a job that reports below the limit of the counter has its outcome applied exactly if its
      epoch is still current; at the limit, exactly if its worktree happens to be waiting. */
  lemma AppliedExactly(run: Run, actions: seq<Action>, j: nat)
    requires Initial(run) && j < |After(run, actions).jobs| && After(run, actions).jobs[j].phase.Reporting?
    ensures var now := After(run, actions); var job := now.jobs[j];
      Target(now.app, OutcomeOf(job, job.phase.result)).Some?
      <==> if job.request.epoch < U64_MAX then Current(now, j) else WaitingAt(now.app.worktrees, job.request.path)
  {
    hide After, FindWorktree, Settled;
    EpochInvAlways(run, actions);
    var now := After(run, actions);
    var path := now.jobs[j].request.path;
    assert RequestFits(now.app, now.jobs[j].request);
    assert EpochOf(now.app.epochs, path) <= U64_MAX;
    var found := FindWorktree(now.app.worktrees, path);
    assert found.Some?;
    assert forall i :: (0 <= i < |now.app.worktrees| && i != found.value
      ==> now.app.worktrees[i].path != now.app.worktrees[found.value].path);
  }

  // ---------- a checkpoint that goes through ----------

  /** A job just asked for in a window in which one agent has started and stopped. */
  ghost predicate JustAsked(run: Run, path: Path, j: nat) {
    && Flipped(run, path, 2)
    && j < |run.jobs| && run.jobs[j].phase == Evaluating && run.jobs[j].request.path == path
    && run.jobs[j].request.epoch == 2 && run.jobs[j].request.allowAutoCheckpoint
  }

  lemma GetAsked(path: Path) returns (actions: seq<Action>, j: nat)
    ensures JustAsked(After(FreshWindow(path), actions), path, j)
  {
    hide After, Step, Flips;
    var start := FreshWindow(path);
    FlipMany(path, 1);
    FlipMany(path, 2);
    FlipNext(path, 1);
    StartsFresh(path);
    var working := After(start, Flips(path, 1));
    j := |working.jobs|;
    StopRequests(working, path, 1);
    NewJobStays(working, path, 1);
    actions := Flips(path, 2);
    AskedAllowed(working, path, j);
  }

  lemma AskedAllowed(run: Run, path: Path, j: nat)
    requires Flipped(run, path, 1) && j == |run.jobs| && |Step(run, Flip(path, 1)).jobs| == j + 1
    ensures Step(run, Flip(path, 1)).jobs[j].request.allowAutoCheckpoint
  {
    var message := Flip(path, 1).message;
    var requests := MessageRequests(run.app, message);
    assert Step(run, Flip(path, 1)).jobs[j].request == requests[0];
    AgentMessages.RequestsExactly(run.app, message, requests[0]);
    hide MessageRequests, AfterMessage;
  }

  /** Evaluation, first check and slot. */
  lemma GetsSlot(run: Run, path: Path, j: nat)
    requires JustAsked(run, path, j)
    ensures var next := TakeStep(CheckStep(EvaluateStep(run, j, None, false, true), j), j);
      && AtPhase(next, j, Inspecting) && next.jobs[j].request == run.jobs[j].request
      && next.app.worktrees == run.app.worktrees && next.app.epochs == run.app.epochs
  {
  }

  /** Inspection, second check, commit, release and report. */
  lemma CommitsAndReports(run: Run, path: Path, j: nat, summary: Option<DiffSummary>, divergence: Option<Divergence>)
    requires AtPhase(run, j, Inspecting) && Current(run, j) && run.jobs[j].request.path == path
    requires |run.app.worktrees| == 1 && run.app.worktrees[0].path == path
    requires run.app.worktrees[0].agentState == Some(Waiting)
    ensures var committed := CommitStep(RecheckStep(InspectStep(run, j, SomethingChanged), j), j,
                                        CommitDone(summary, divergence));
      var end := ReportStep(ReleaseStep(committed, j), j);
      |end.app.worktrees| == 1 && end.app.worktrees[0].diffSummary == summary
      && end.app.worktrees[0].branchDivergence == divergence
  {
    var committed := CommitStep(RecheckStep(InspectStep(run, j, SomethingChanged), j), j,
                                CommitDone(summary, divergence));
    assert AtPhase(committed, j, Releasing(Some(Checkpoint(true, summary, divergence))));
    var released := ReleaseStep(committed, j);
    assert AtPhase(released, j, Reporting(Some(Checkpoint(true, summary, divergence))));
    assert released.app.worktrees == run.app.worktrees && released.app.epochs == run.app.epochs;
    var outcome := OutcomeOf(released.jobs[j], released.jobs[j].phase.result);
    var found := FindWorktree(released.app.worktrees, path);
    assert found == Some(0);
    hide FindWorktree, InspectStep, RecheckStep, CommitStep, ReleaseStep;
    assert Target(released.app, outcome) == Some(0);
  }

  ghost predicate HoldsSlot(run: Run, path: Path, j: nat) {
    && AtPhase(run, j, Inspecting) && Current(run, j) && run.jobs[j].request.path == path
    && |run.app.worktrees| == 1 && run.app.worktrees[0].path == path
    && run.app.worktrees[0].agentState == Some(Waiting)
  }

  lemma GetSlot(path: Path) returns (actions: seq<Action>, j: nat)
    ensures HoldsSlot(After(FreshWindow(path), actions), path, j)
  {
    hide After, FreshWindow, EvaluateStep, CheckStep, TakeStep;
    var start := FreshWindow(path);
    var asked;
    asked, j := GetAsked(path);
    var a1 := asked + [Evaluate(j, None, false, true)];
    var a2 := a1 + [CheckEpoch(j)];
    actions := a2 + [TakeSlot(j)];
    AfterNext(start, asked, Evaluate(j, None, false, true));
    AfterNext(start, a1, CheckEpoch(j));
    AfterNext(start, a2, TakeSlot(j));
    GetsSlot(After(start, asked), path, j);
  }

  /** A job can go all the way: from a window just started, a checkpoint is committed and its summaries shown. */
  lemma CheckpointGoesThrough(path: Path, summary: Option<DiffSummary>, divergence: Option<Divergence>)
    ensures exists actions ::
      var end := After(FreshWindow(path), actions);
      && Initial(FreshWindow(path))
      && |end.app.worktrees| == 1 && end.app.worktrees[0].path == path
      && end.app.worktrees[0].diffSummary == summary && end.app.worktrees[0].branchDivergence == divergence
  {
    hide After, FreshWindow, InspectStep, RecheckStep, CommitStep, ReleaseStep, ReportStep, Initial;
    var start := FreshWindow(path);
    var a3, j := GetSlot(path);
    var a4 := a3 + [Inspect(j, SomethingChanged)];
    var a5 := a4 + [Recheck(j)];
    var a6 := a5 + [Commit(j, CommitDone(summary, divergence))];
    var a7 := a6 + [ReleaseSlot(j)];
    var a8 := a7 + [Report(j)];
    AfterNext(start, a3, Inspect(j, SomethingChanged));
    AfterNext(start, a4, Recheck(j));
    AfterNext(start, a5, Commit(j, CommitDone(summary, divergence)));
    AfterNext(start, a6, ReleaseSlot(j));
    AfterNext(start, a7, Report(j));
    CommitsAndReports(After(start, a3), path, j, summary, divergence);
    StartsFresh(path);
    AgentMessages.PathsStayOver(start, a8);
    FreshPaths(path);
    var end := After(start, a8);
    assert Paths(end.app.worktrees)[0] == end.app.worktrees[0].path;
  }

  lemma FreshPaths(path: Path)
    ensures Paths(FreshWindow(path).app.worktrees) == [path]
  {
  }
}
