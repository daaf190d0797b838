/** Automatic checkpoints exclude each other: the in-flight set holds exactly the paths with a job between
    taking and giving back the slot, and nobody commits without having seen its epoch current meanwhile. */
module AgentCheckpoints {
  import opened Wrappers
  import opened AgentActivity
  import opened AgentWindow
  import opened AgentRuns
  import opened AgentEpochs

  predicate InSlot(phase: Phase) {
    phase.Inspecting? || phase.Rechecking? || phase.Committing? || phase.Releasing?
  }

  predicate Holder(run: Run, j: nat, path: Path) {
    j < |run.jobs| && InSlot(run.jobs[j].phase) && run.jobs[j].request.path == path
  }

  ghost predicate Held(run: Run, path: Path) {
    exists j: nat :: Holder(run, j, path)
  }

  /** The job took the slot at position t and has not given it back. */
  predicate TookAt(log: seq<Event>, j: nat, t: nat) {
    t < |log| && log[t] == Took(j) && forall u :: t < u < |log| ==> log[u] != Released(j)
  }

  ghost predicate Holding(log: seq<Event>, j: nat) {
    exists t: nat :: TookAt(log, j, t)
  }

  /** While holding the slot the job found its epoch current. */
  ghost predicate CheckedAt(log: seq<Event>, j: nat, epoch: nat, t: nat, k: nat) {
    TookAt(log, j, t) && t < k < |log| && log[k] == Rechecked(j, epoch)
  }

  ghost predicate CheckedWhileHolding(log: seq<Event>, j: nat, epoch: nat) {
    exists t: nat, k: nat :: CheckedAt(log, j, epoch, t, k)
  }

  ghost predicate SlotInv(run: Run) {
    && (forall p :: p in run.app.inFlight <==> Held(run, p))
    && (forall i, j, p :: Holder(run, i, p) && Holder(run, j, p) ==> i == j)
  }

  ghost predicate JobLogged(run: Run, j: nat)
    requires j < |run.jobs|
  {
    && (InSlot(run.jobs[j].phase) ==> Holding(run.log, j))
    && (run.jobs[j].phase.Committing? ==> CheckedWhileHolding(run.log, j, run.jobs[j].request.epoch))
  }

  /** A commit in the record was preceded by the job's check, made while it held the slot. */
  ghost predicate CommitLogged(run: Run, c: nat)
    requires c < |run.log|
  {
    run.log[c].Committed? ==>
      && run.log[c].job < |run.jobs|
      && CheckedWhileHolding(run.log[..c], run.log[c].job, run.jobs[run.log[c].job].request.epoch)
  }

  ghost predicate LogInv(run: Run) {
    && (forall j :: 0 <= j < |run.jobs| ==> JobLogged(run, j))
    && (forall c :: 0 <= c < |run.log| ==> CommitLogged(run, c))
  }

  // ---------- one job moves ----------

  /** Only job j moved: its phase changed, and at most one event was recorded. */
  ghost predicate Moved(before: Run, after: Run, j: nat, recorded: seq<Event>) {
    && j < |before.jobs| == |after.jobs|
    && (forall i :: 0 <= i < |before.jobs| && i != j ==> after.jobs[i] == before.jobs[i])
    && after.jobs[j].request == before.jobs[j].request
    && after.log == before.log + recorded
  }

  /** The slot set follows the job's phase. */
  ghost predicate SlotFollows(before: Run, after: Run, j: nat)
    requires j < |before.jobs| == |after.jobs|
  {
    var path := before.jobs[j].request.path;
    var holdsBefore, holdsAfter := InSlot(before.jobs[j].phase), InSlot(after.jobs[j].phase);
    && (holdsBefore == holdsAfter ==> after.app.inFlight == before.app.inFlight)
    && (!holdsBefore && holdsAfter ==> path !in before.app.inFlight && after.app.inFlight == before.app.inFlight + {path})
    && (holdsBefore && !holdsAfter ==> after.app.inFlight == before.app.inFlight - {path})
  }

  /** While someone else holds the slot of its path, a job is not in it. */
  lemma OthersHold(run: Run, j: nat, k: nat, path: Path)
    requires SlotInv(run) && Holder(run, k, path)
    ensures path in run.app.inFlight
    ensures j != k ==> !Holder(run, j, path)
  {
    assert Held(run, path);
  }

  lemma MoveKeepsSlots(before: Run, after: Run, j: nat, recorded: seq<Event>)
    requires SlotInv(before) && Moved(before, after, j, recorded) && SlotFollows(before, after, j)
    ensures SlotInv(after)
  {
    var path := before.jobs[j].request.path;
    var holdsBefore, holdsAfter := InSlot(before.jobs[j].phase), InSlot(after.jobs[j].phase);
    hide InSlot;
    forall i: nat, p | i != j
      ensures Holder(after, i, p) <==> Holder(before, i, p)
    {
    }
    assert forall p :: Holder(after, j, p) <==> holdsAfter && p == path;
    assert forall p :: Holder(before, j, p) <==> holdsBefore && p == path;
    forall i: nat, k: nat, p | Holder(after, i, p) && Holder(after, k, p)
      ensures i == k
    {
      if i != j {
        OthersHold(before, j, i, p);
        OthersHold(before, k, i, p);
      } else if k != j {
        OthersHold(before, j, k, p);
      }
    }
    forall p
      ensures p in after.app.inFlight <==> Held(after, p)
    {
      if Held(after, p) {
        var i: nat :| Holder(after, i, p);
        if i != j {
          OthersHold(before, j, i, p);
        } else if holdsBefore {
          OthersHold(before, j, j, p);
        }
      }
      if p in after.app.inFlight {
        if holdsAfter && p == path {
          assert Holder(after, j, p);
        } else {
          assert p in before.app.inFlight && Held(before, p);
          var i: nat :| Holder(before, i, p);
          assert Holder(after, i, p);
        }
      }
    }
  }

  lemma HoldingStays(log: seq<Event>, event: Event, j: nat)
    requires Holding(log, j) && event != Released(j)
    ensures Holding(log + [event], j)
  {
    var t: nat :| TookAt(log, j, t);
    assert TookAt(log + [event], j, t);
  }

  lemma CheckedStays(log: seq<Event>, event: Event, j: nat, epoch: nat)
    requires CheckedWhileHolding(log, j, epoch) && event != Released(j)
    ensures CheckedWhileHolding(log + [event], j, epoch)
  {
    var t: nat, k: nat :| CheckedAt(log, j, epoch, t, k);
    assert TookAt(log + [event], j, t);
    assert CheckedAt(log + [event], j, epoch, t, k);
  }

  /** The record grows by at most one event about job j, and job j's own entry stays right. */
  lemma MoveKeepsLog(before: Run, after: Run, j: nat, recorded: seq<Event>)
    requires LogInv(before) && Moved(before, after, j, recorded)
    requires |recorded| <= 1 && (recorded != [] ==> !recorded[0].Refreshed? && recorded[0].job == j)
    requires JobLogged(after, j)
    requires recorded != [] && recorded[0].Committed? ==>
      CheckedWhileHolding(before.log, j, before.jobs[j].request.epoch)
    ensures LogInv(after)
  {
    hide InSlot;
    forall i | 0 <= i < |after.jobs|
      ensures JobLogged(after, i)
    {
      if i != j {
        OtherJobLogged(before, after, j, recorded, i);
      }
    }
    forall c | 0 <= c < |after.log|
      ensures CommitLogged(after, c)
    {
      if c < |before.log| {
        assert after.log[..c] == before.log[..c] && after.log[c] == before.log[c];
        assert CommitLogged(before, c);
      } else {
        assert after.log[..c] == before.log;
      }
    }
  }

  lemma OtherJobLogged(before: Run, after: Run, j: nat, recorded: seq<Event>, i: nat)
    requires LogInv(before) && Moved(before, after, j, recorded)
    requires |recorded| <= 1 && (recorded != [] ==> !recorded[0].Refreshed? && recorded[0].job == j)
    requires i < |after.jobs| && i != j
    ensures JobLogged(after, i)
  {
    hide InSlot, Holding, CheckedWhileHolding;
    assert JobLogged(before, i);
    var epoch := before.jobs[i].request.epoch;
    if recorded == [] {
      assert after.log == before.log;
    } else {
      assert recorded == [recorded[0]];
      if InSlot(before.jobs[i].phase) {
        HoldingStays(before.log, recorded[0], i);
      }
      if before.jobs[i].phase.Committing? {
        CheckedStays(before.log, recorded[0], i, epoch);
      }
    }
  }

  // ---------- the steps ----------

  ghost predicate Inv(run: Run) {
    SlotInv(run) && LogInv(run)
  }

  lemma MoveKeeps(before: Run, after: Run, j: nat, recorded: seq<Event>)
    requires Inv(before) && Moved(before, after, j, recorded) && SlotFollows(before, after, j)
    requires |recorded| <= 1 && (recorded != [] ==> !recorded[0].Refreshed? && recorded[0].job == j)
    requires JobLogged(after, j)
    requires recorded != [] && recorded[0].Committed? ==>
      CheckedWhileHolding(before.log, j, before.jobs[j].request.epoch)
    ensures Inv(after)
  {
    hide SlotInv, LogInv, Moved, SlotFollows, JobLogged, CheckedWhileHolding;
    MoveKeepsSlots(before, after, j, recorded);
    MoveKeepsLog(before, after, j, recorded);
  }

  lemma EvaluateKeeps(run: Run, j: nat, summary: Option<DiffSummary>, notify: bool, autoCheckpoint: bool)
    requires Inv(run) && AtPhase(run, j, Evaluating)
    ensures Inv(EvaluateStep(run, j, summary, notify, autoCheckpoint))
  {
    hide SlotInv, LogInv, Holding, CheckedWhileHolding;
    MoveKeeps(run, EvaluateStep(run, j, summary, notify, autoCheckpoint), j, []);
  }

  lemma CheckKeeps(run: Run, j: nat)
    requires Inv(run) && AtPhase(run, j, Checking)
    ensures Inv(CheckStep(run, j))
  {
    hide SlotInv, LogInv, Holding, CheckedWhileHolding;
    MoveKeeps(run, CheckStep(run, j), j, []);
  }

  lemma TakeKeeps(run: Run, j: nat)
    requires Inv(run) && AtPhase(run, j, TakingSlot)
    ensures Inv(TakeStep(run, j))
  {
    hide SlotInv, LogInv, Holding, CheckedWhileHolding;
    var after := TakeStep(run, j);
    if run.jobs[j].request.path in run.app.inFlight {
      MoveKeeps(run, after, j, []);
    } else {
      JustTook(run.log, j);
      MoveKeeps(run, after, j, [Took(j)]);
    }
  }

  lemma JustTook(log: seq<Event>, j: nat)
    ensures Holding(log + [Took(j)], j)
  {
    assert TookAt(log + [Took(j)], j, |log|);
  }

  lemma InspectKeeps(run: Run, j: nat, found: Inspection)
    requires Inv(run) && AtPhase(run, j, Inspecting)
    ensures Inv(InspectStep(run, j, found))
  {
    assert JobLogged(run, j);
    hide SlotInv, LogInv, Holding, CheckedWhileHolding;
    MoveKeeps(run, InspectStep(run, j, found), j, []);
  }

  lemma RecheckKeeps(run: Run, j: nat)
    requires Inv(run) && AtPhase(run, j, Rechecking)
    ensures Inv(RecheckStep(run, j))
  {
    assert JobLogged(run, j);
    hide SlotInv, LogInv, Holding, CheckedWhileHolding;
    var epoch := EpochOf(run.app.epochs, run.jobs[j].request.path);
    HoldingStays(run.log, Rechecked(j, epoch), j);
    JustChecked(run.log, j, epoch);
    MoveKeeps(run, RecheckStep(run, j), j, [Rechecked(j, epoch)]);
  }

  lemma JustChecked(log: seq<Event>, j: nat, epoch: nat)
    requires Holding(log, j)
    ensures CheckedWhileHolding(log + [Rechecked(j, epoch)], j, epoch)
  {
    var t: nat :| TookAt(log, j, t);
    assert TookAt(log + [Rechecked(j, epoch)], j, t);
    assert CheckedAt(log + [Rechecked(j, epoch)], j, epoch, t, |log|);
  }

  lemma CommitKeeps(run: Run, j: nat, outcome: CommitResult)
    requires Inv(run) && AtPhase(run, j, Committing)
    ensures Inv(CommitStep(run, j, outcome))
  {
    assert JobLogged(run, j);
    hide SlotInv, LogInv, Holding, CheckedWhileHolding;
    if outcome.CommitDone? {
      HoldingStays(run.log, Committed(j), j);
      MoveKeeps(run, CommitStep(run, j, outcome), j, [Committed(j)]);
    } else {
      MoveKeeps(run, CommitStep(run, j, outcome), j, []);
    }
  }

  lemma ReleaseKeeps(run: Run, j: nat)
    requires Inv(run) && j < |run.jobs| && run.jobs[j].phase.Releasing?
    ensures Inv(ReleaseStep(run, j))
  {
    hide SlotInv, LogInv, Holding, CheckedWhileHolding;
    MoveKeeps(run, ReleaseStep(run, j), j, [Released(j)]);
  }

  lemma ReportKeeps(run: Run, j: nat)
    requires Inv(run) && j < |run.jobs| && run.jobs[j].phase.Reporting?
    ensures Inv(ReportStep(run, j))
  {
    hide SlotInv, LogInv, Holding, CheckedWhileHolding;
    var outcome := OutcomeOf(run.jobs[j], run.jobs[j].phase.result);
    ResultKeepsStates(run.app, outcome);
    hide AfterResult;
    var target := Target(run.app, outcome);
    if target.None? {
      MoveKeeps(run, ReportStep(run, j), j, []);
    } else {
      hide Target, WithTurn;
      MoveKeeps(run, ReportStep(run, j), j,
                [Applied(j, outcome.path, TurnOf(run.app.worktrees[target.value], outcome))]);
    }
  }

  /** New jobs hold nothing yet. */
  lemma ReceiveKeeps(run: Run, message: Message)
    requires Inv(run)
    ensures Inv(Step(run, Receive(message)))
  {
    var after := Step(run, Receive(message));
    var n := |run.jobs|;
    assert after.app.inFlight == run.app.inFlight && after.log == run.log;
    assert forall j :: 0 <= j < n ==> after.jobs[j] == run.jobs[j];
    assert forall j :: n <= j < |after.jobs| ==> after.jobs[j].phase == Evaluating;
    hide AfterMessage, MessageRequests;
    forall j: nat, p
      ensures Holder(after, j, p) <==> Holder(run, j, p)
    {
    }
    forall p
      ensures Held(after, p) <==> Held(run, p)
    {
      if Held(run, p) {
        var j: nat :| Holder(run, j, p);
        assert Holder(after, j, p);
      }
      if Held(after, p) {
        var j: nat :| Holder(after, j, p);
        assert Holder(run, j, p);
      }
    }
    forall j | 0 <= j < |after.jobs|
      ensures JobLogged(after, j)
    {
      if j < n {
        assert JobLogged(run, j);
      }
    }
    forall c | 0 <= c < |after.log|
      ensures CommitLogged(after, c)
    {
      assert CommitLogged(run, c);
    }
  }

  /** A step that moves no job, touches no slot and records at most that a refresh ended. */
  ghost predicate Aside(before: Run, after: Run) {
    && after.app.inFlight == before.app.inFlight
    && after.jobs == before.jobs
    && (after.log == before.log || exists since :: after.log == before.log + [Refreshed(since)])
  }

  lemma AsideKeepsSlots(before: Run, after: Run)
    requires SlotInv(before) && Aside(before, after)
    ensures SlotInv(after)
  {
    assert forall j: nat, p :: Holder(after, j, p) <==> Holder(before, j, p);
    forall p
      ensures Held(after, p) <==> Held(before, p)
    {
      if Held(before, p) {
        var j: nat :| Holder(before, j, p);
        assert Holder(after, j, p);
      }
      if Held(after, p) {
        var j: nat :| Holder(after, j, p);
        assert Holder(before, j, p);
      }
    }
  }

  lemma AsideKeepsLog(before: Run, after: Run)
    requires LogInv(before) && Aside(before, after)
    ensures LogInv(after)
  {
    hide InSlot, Holding, CheckedWhileHolding;
    forall j | 0 <= j < |after.jobs|
      ensures JobLogged(after, j)
    {
      assert JobLogged(before, j);
      if after.log != before.log {
        var since :| after.log == before.log + [Refreshed(since)];
        if InSlot(before.jobs[j].phase) {
          HoldingStays(before.log, Refreshed(since), j);
        }
        if before.jobs[j].phase.Committing? {
          CheckedStays(before.log, Refreshed(since), j, before.jobs[j].request.epoch);
        }
      }
    }
    forall c | 0 <= c < |after.log|
      ensures CommitLogged(after, c)
    {
      if c < |before.log| {
        assert after.log[..c] == before.log[..c] && after.log[c] == before.log[c];
        assert CommitLogged(before, c);
      }
    }
  }

  lemma AsideKeeps(run: Run, action: Action)
    requires Inv(run) && (action.SetOutpost? || action.StartRefresh? || action.EndRefresh?)
    ensures Inv(Step(run, action))
  {
    var after := Step(run, action);
    assert Aside(run, after) by {
      if |after.log| == |run.log| + 1 {
        assert after.log == run.log + [Refreshed(run.refresh.value.since)];
      }
    }
    AsideKeepsSlots(run, after);
    AsideKeepsLog(run, after);
  }

  lemma JobStepKeeps(run: Run, action: Action)
    requires Inv(run) && !Reconciles(action) && !action.SetOutpost? && !action.StartRefresh?
    ensures Inv(Step(run, action))
  {
    hide Inv;
    match action
    case Evaluate(j, summary, notify, auto) =>
      if AtPhase(run, j, Evaluating) { EvaluateKeeps(run, j, summary, notify, auto); }
    case CheckEpoch(j) => if AtPhase(run, j, Checking) { CheckKeeps(run, j); }
    case TakeSlot(j) => if AtPhase(run, j, TakingSlot) { TakeKeeps(run, j); }
    case Inspect(j, found) => if AtPhase(run, j, Inspecting) { InspectKeeps(run, j, found); }
    case Recheck(j) => if AtPhase(run, j, Rechecking) { RecheckKeeps(run, j); }
    case Commit(j, outcome) => if AtPhase(run, j, Committing) { CommitKeeps(run, j, outcome); }
    case ReleaseSlot(j) => if j < |run.jobs| && run.jobs[j].phase.Releasing? { ReleaseKeeps(run, j); }
    case Report(j) => if j < |run.jobs| && run.jobs[j].phase.Reporting? { ReportKeeps(run, j); }
    case _ =>
  }

  lemma {:induction false} SlotInvAlways(run: Run, actions: seq<Action>)
    requires Initial(run)
    ensures Inv(After(run, actions))
    decreases |actions|
  {
    if actions == [] {
      assert forall p :: !Held(run, p);
    } else {
      hide Step, Inv;
      var previous, action := After(run, actions[..|actions| - 1]), actions[|actions| - 1];
      SlotInvAlways(run, actions[..|actions| - 1]);
      match action
      case Receive(message) => ReceiveKeeps(previous, message);
      case SetOutpost(_) => AsideKeeps(previous, action);
      case StartRefresh => AsideKeeps(previous, action);
      case EndRefresh(_) => AsideKeeps(previous, action);
      case _ => JobStepKeeps(previous, action);
    }
  }

  // ---------- main results ----------

  /** In every interleaving, the in-flight set is exactly the set of paths with a job in the slot, one job each. */
  lemma SlotsMatchHolders(run: Run, actions: seq<Action>, path: Path)
    requires Initial(run)
    ensures path in After(run, actions).app.inFlight <==> exists j: nat :: Holder(After(run, actions), j, path)
    ensures forall i, j :: Holder(After(run, actions), i, path) && Holder(After(run, actions), j, path) ==> i == j
  {
    hide After, Holder;
    SlotInvAlways(run, actions);
    assert Held(After(run, actions), path) <==> exists j: nat :: Holder(After(run, actions), j, path);
  }

  /** Whoever committed had taken the slot, still held it, and in between had read its own epoch as current. */
  lemma CommitsSawCurrentEpoch(run: Run, actions: seq<Action>, c: nat)
    requires Initial(run)
    requires c < |After(run, actions).log| && After(run, actions).log[c].Committed?
    ensures var end := After(run, actions); var j := end.log[c].job;
      j < |end.jobs| && CheckedWhileHolding(end.log[..c], j, end.jobs[j].request.epoch)
  {
    hide After, CheckedWhileHolding;
    SlotInvAlways(run, actions);
    assert CommitLogged(After(run, actions), c);
  }

  /** However the jobs ended, once none is under way no slot is left taken. */
  lemma NoSlotLeftBehind(run: Run, actions: seq<Action>)
    requires Initial(run)
    requires forall j :: 0 <= j < |After(run, actions).jobs| ==> After(run, actions).jobs[j].phase.Finished?
    ensures After(run, actions).app.inFlight == {}
  {
    hide After;
    SlotInvAlways(run, actions);
    var end := After(run, actions);
    forall p
      ensures p !in end.app.inFlight
    {
      assert p in end.app.inFlight <==> Held(end, p);
    }
  }
}
