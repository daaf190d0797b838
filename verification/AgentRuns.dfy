/** The whole protocol as a transition system: messages, refreshes and the steps of background jobs interleave in
    any order, over a fixed list of worktrees. */
module AgentRuns {
  import opened Wrappers
  import opened AgentActivity
  import opened AgentWindow
  import opened AgentReconcile

  /** Where a background job is; each phase ends in one access to shared state. */
  datatype Phase =
    | Evaluating
    | Checking
    | TakingSlot
    | Inspecting
    | Rechecking
    | Committing
    | Releasing(result: Option<Checkpoint>)
    | Reporting(result: Option<Checkpoint>)
    | Finished

  datatype Job = Job(request: Request, phase: Phase, diffSummary: Option<DiffSummary>, notificationsAllowed: bool)

  /** What happened, for the record; a job is named by its position in the job list. */
  datatype Event =
    | Took(job: nat)
    | Rechecked(job: nat, epoch: nat)
    | Committed(job: nat)
    | Released(job: nat)
    | Applied(job: nat, path: Path, turn: Turn)
    | Refreshed(since: nat)

  /** A refresh under way: the records copied when it started, and how long the log was then. */
  datatype Refresh = Refresh(copies: seq<Worktree>, since: nat)

  datatype Run = Run(app: App, jobs: seq<Job>, log: seq<Event>, refresh: Option<Refresh>)

  datatype Inspection = InspectionFailed | NothingChanged | SomethingChanged
  datatype CommitResult =
    | CommitDone(summary: Option<DiffSummary>, divergence: Option<Divergence>)
    | NothingToCommit
    | CommitFailed

  /** One scheduled step, with whatever the outside world answers. */
  datatype Action =
    | Receive(message: Message)
    | SetOutpost(active: bool)
    | Evaluate(job: nat, summary: Option<DiffSummary>, notify: bool, autoCheckpoint: bool)
    | CheckEpoch(job: nat)
    | TakeSlot(job: nat)
    | Inspect(job: nat, found: Inspection)
    | Recheck(job: nat)
    | Commit(job: nat, outcome: CommitResult)
    | ReleaseSlot(job: nat)
    | Report(job: nat)
    | StartRefresh
    | EndRefresh(listing: seq<Listed>)

  /** The steps that end in a reconciliation. */
  predicate Reconciles(action: Action) {
    action.Receive? || action.EndRefresh?
  }

  function NewJobs(requests: seq<Request>): (jobs: seq<Job>)
    ensures |jobs| == |requests|
    ensures forall i :: 0 <= i < |requests| ==> jobs[i] == Job(requests[i], Evaluating, None, false)
  {
    seq(|requests|, i requires 0 <= i < |requests| => Job(requests[i], Evaluating, None, false))
  }

  predicate AtPhase(run: Run, job: nat, phase: Phase) {
    job < |run.jobs| && run.jobs[job].phase == phase
  }

  function WithPhase(run: Run, job: nat, phase: Phase): Run
    requires job < |run.jobs|
  {
    run.(jobs := run.jobs[job := run.jobs[job].(phase := phase)])
  }

  function Logged(run: Run, event: Event): Run {
    run.(log := run.log + [event])
  }

  predicate Current(run: Run, job: nat)
    requires job < |run.jobs|
  {
    EpochOf(run.app.epochs, run.jobs[job].request.path) == run.jobs[job].request.epoch
  }

  function OutcomeOf(job: Job, result: Option<Checkpoint>): Outcome {
    Outcome(job.request.path, job.request.updatedAt, job.request.epoch, job.diffSummary, job.notificationsAllowed, result)
  }

  function EvaluateStep(run: Run, job: nat, summary: Option<DiffSummary>, notify: bool, autoCheckpoint: bool): Run {
    if !AtPhase(run, job, Evaluating) then run
    else
      var j := run.jobs[job].(diffSummary := summary, notificationsAllowed := notify,
                              phase := if run.jobs[job].request.allowAutoCheckpoint && autoCheckpoint
                                       then Checking else Reporting(None));
      run.(jobs := run.jobs[job := j])
  }

  function CheckStep(run: Run, job: nat): Run {
    if !AtPhase(run, job, Checking) then run
    else WithPhase(run, job, if Current(run, job) then TakingSlot else Reporting(None))
  }

  function TakeStep(run: Run, job: nat): Run {
    if !AtPhase(run, job, TakingSlot) then run
    else
      var path := run.jobs[job].request.path;
      if path in run.app.inFlight then WithPhase(run, job, Reporting(None))
      else Logged(WithPhase(run.(app := run.app.(inFlight := run.app.inFlight + {path})), job, Inspecting), Took(job))
  }

  function InspectStep(run: Run, job: nat, found: Inspection): Run {
    if !AtPhase(run, job, Inspecting) then run
    else WithPhase(run, job, match found
                             case InspectionFailed => Releasing(Some(Checkpoint(false, None, None)))
                             case NothingChanged => Releasing(None)
                             case SomethingChanged => Rechecking)
  }

  function RecheckStep(run: Run, job: nat): Run {
    if !AtPhase(run, job, Rechecking) then run
    else Logged(WithPhase(run, job, if Current(run, job) then Committing else Releasing(None)),
                Rechecked(job, EpochOf(run.app.epochs, run.jobs[job].request.path)))
  }

  function CommitStep(run: Run, job: nat, outcome: CommitResult): Run {
    if !AtPhase(run, job, Committing) then run
    else
      match outcome
      case CommitDone(summary, divergence) =>
        Logged(WithPhase(run, job, Releasing(Some(Checkpoint(true, summary, divergence)))), Committed(job))
      case NothingToCommit => WithPhase(run, job, Releasing(None))
      case CommitFailed => WithPhase(run, job, Releasing(Some(Checkpoint(false, None, None))))
  }

  function ReleaseStep(run: Run, job: nat): Run {
    if job >= |run.jobs| || !run.jobs[job].phase.Releasing? then run
    else
      var path := run.jobs[job].request.path;
      Logged(WithPhase(run.(app := run.app.(inFlight := run.app.inFlight - {path})), job,
                       Reporting(run.jobs[job].phase.result)), Released(job))
  }

  function ReportStep(run: Run, job: nat): Run {
    if job >= |run.jobs| || !run.jobs[job].phase.Reporting? then run
    else
      var outcome := OutcomeOf(run.jobs[job], run.jobs[job].phase.result);
      var target := Target(run.app, outcome);
      var done := WithPhase(run.(app := AfterResult(run.app, outcome)), job, Finished);
      if target.None? then done
      else Logged(done, Applied(job, outcome.path, TurnOf(run.app.worktrees[target.value], outcome)))
  }

  /** A refresh that starts copies the records; one still under way is given up. */
  function StartRefreshStep(run: Run): Run {
    run.(refresh := Some(Refresh(run.app.worktrees, |run.log|)))
  }

  /** Only listings of the same worktrees are steps of the model. */
  predicate RefreshEnds(run: Run, listing: seq<Listed>) {
    run.refresh.Some? && ListedPaths(listing) == Paths(run.app.worktrees)
  }

  ghost function EndRefreshStep(run: Run, listing: seq<Listed>): Run {
    if !RefreshEnds(run, listing) then run
    else
      var refresh := run.refresh.value;
      Logged(run.(app := AfterRefresh(run.app, refresh.copies, listing), refresh := None), Refreshed(refresh.since))
  }

  ghost function Step(run: Run, action: Action): Run {
    match action
    case Receive(message) =>
      run.(app := AfterMessage(run.app, message), jobs := run.jobs + NewJobs(MessageRequests(run.app, message)))
    case SetOutpost(active) => run.(app := run.app.(outpostActive := active))
    case Evaluate(job, summary, notify, autoCheckpoint) => EvaluateStep(run, job, summary, notify, autoCheckpoint)
    case CheckEpoch(job) => CheckStep(run, job)
    case TakeSlot(job) => TakeStep(run, job)
    case Inspect(job, found) => InspectStep(run, job, found)
    case Recheck(job) => RecheckStep(run, job)
    case Commit(job, outcome) => CommitStep(run, job, outcome)
    case ReleaseSlot(job) => ReleaseStep(run, job)
    case Report(job) => ReportStep(run, job)
    case StartRefresh => StartRefreshStep(run)
    case EndRefresh(listing) => EndRefreshStep(run, listing)
  }

  ghost function After(run: Run, actions: seq<Action>): Run {
    if actions == [] then run else Step(After(run, actions[..|actions| - 1]), actions[|actions| - 1])
  }

  /** Nothing has happened yet; states, time stamps and epochs of the worktrees are arbitrary. */
  ghost predicate Initial(run: Run) {
    && DistinctPaths(run.app.worktrees)
    && (forall p :: EpochOf(run.app.epochs, p) <= U64_MAX)
    && run.app.inFlight == {}
    && run.jobs == [] && run.log == [] && run.refresh == None
    && forall i :: 0 <= i < |run.app.worktrees| ==>
         run.app.worktrees[i].recentTurns == [] && run.app.worktrees[i].stuckTurnCount == 0
  }
}
