/** The window's side of the protocol: applying session messages, reconciling worktrees, and applying what
    a background job reports back. */
module AgentWindow {
  import opened Wrappers
  import opened AgentActivity

  function EpochOf(epochs: map<Path, nat>, path: Path): nat {
    if path in epochs then epochs[path] else 0
  }

  /** Epochs count up and stick at the largest 64-bit value. */
  function Bump(epoch: nat): nat {
    if epoch < U64_MAX then epoch + 1 else U64_MAX
  }

  function WaitingTransition(previous: Option<AgentState>, next: Option<AgentState>): bool {
    previous == Some(Working) && next == Some(Waiting)
  }

  // ---------- reconciliation ----------

  /** Progress of the sweep over the worktrees; each derived state is used up by the first worktree with
      its path. */
  datatype Sweep = Sweep(worktrees: seq<Worktree>, epochs: map<Path, nat>, requests: seq<Request>,
                         derived: map<Path, Derived>)

  function WithState(w: Worktree, derived: map<Path, Derived>): Worktree {
    if w.path in derived then
      var d := derived[w.path];
      w.(agentState := Some(d.state),
         lastActivity := if d.updatedAt.Some? then Some(Max(w.lastActivity.GetOr(0), d.updatedAt.value))
                         else w.lastActivity)
    else w.(agentState := None)
  }

  function StepEpochs(w: Worktree, derived: map<Path, Derived>, epochs: map<Path, nat>): map<Path, nat> {
    if w.agentState != WithState(w, derived).agentState then epochs[w.path := Bump(EpochOf(epochs, w.path))] else epochs
  }

  /** At most one request: a worktree that went from working to waiting. */
  function StepRequests(w: Worktree, derived: map<Path, Derived>, epochs: map<Path, nat>, allow: bool,
                        autoCheckpoint: bool): seq<Request>
  {
    if allow && WaitingTransition(w.agentState, WithState(w, derived).agentState)
    then [Request(w.path, derived[w.path].updatedAt, Bump(EpochOf(epochs, w.path)), autoCheckpoint)]
    else []
  }

  function SweepStep(sweep: Sweep, w: Worktree, allow: bool, autoCheckpoint: bool): Sweep {
    Sweep(sweep.worktrees + [WithState(w, sweep.derived)],
          StepEpochs(w, sweep.derived, sweep.epochs),
          sweep.requests + StepRequests(w, sweep.derived, sweep.epochs, allow, autoCheckpoint),
          sweep.derived - {w.path})
  }

  function SweepOver(worktrees: seq<Worktree>, epochs: map<Path, nat>, derived: map<Path, Derived>,
                     allow: bool, autoCheckpoint: bool): Sweep
  {
    if worktrees == [] then Sweep([], epochs, [], derived)
    else SweepStep(SweepOver(worktrees[..|worktrees| - 1], epochs, derived, allow, autoCheckpoint),
                   worktrees[|worktrees| - 1], allow, autoCheckpoint)
  }

  ghost function ReconcileSweep(app: App, allow: bool): Sweep {
    SweepOver(app.worktrees, app.epochs, DerivedOver(app.sessions, Paths(app.worktrees), app.sessions.Keys),
              allow, !app.outpostActive)
  }

  ghost function Reconciled(app: App, allow: bool): App {
    var sweep := ReconcileSweep(app, allow);
    app.(worktrees := sweep.worktrees, epochs := sweep.epochs)
  }

  ghost function ReconcileRequests(app: App, allow: bool): seq<Request> {
    ReconcileSweep(app, allow).requests
  }

  // ---------- messages ----------

  datatype Message =
    | Snapshot(entries: seq<Entry>)
    | Update(entries: seq<Entry>)
    | Clear(sessionId: string)

  /** Inserting entries in order; a later entry with the same id replaces the earlier one. */
  function Inserted(sessions: map<string, Session>, entries: seq<Entry>): map<string, Session> {
    if entries == [] then sessions
    else Inserted(sessions, entries[..|entries| - 1])[entries[|entries| - 1].sessionId := entries[|entries| - 1].session]
  }

  function SessionsAfter(sessions: map<string, Session>, message: Message): map<string, Session> {
    match message
    case Snapshot(entries) => Inserted(map[], entries)
    case Update(entries) => Inserted(sessions, entries)
    case Clear(id) => sessions - {id}
  }

  /** Only an update may report that an agent has finished. */
  function AllowsTransitions(message: Message): bool {
    message.Update?
  }

  ghost function AfterMessage(app: App, message: Message): App {
    Reconciled(app.(sessions := SessionsAfter(app.sessions, message)), AllowsTransitions(message))
  }

  ghost function MessageRequests(app: App, message: Message): seq<Request> {
    ReconcileRequests(app.(sessions := SessionsAfter(app.sessions, message)), AllowsTransitions(message))
  }

  // ---------- refreshing the records ----------

  /** What a listing says about one worktree: its path, when git last saw activity, and its divergence, unless the
      divergence copied earlier is to be kept. */
  datatype Listed = Listed(path: Path, activity: Option<nat>, divergence: Option<Divergence>, keepsDivergence: bool)

  function ListedPaths(listing: seq<Listed>): (paths: seq<Path>)
    ensures |paths| == |listing|
    ensures forall i :: 0 <= i < |listing| ==> paths[i] == listing[i].path
  {
    seq(|listing|, i requires 0 <= i < |listing| => listing[i].path)
  }

  /** The record copied for a path, the last one if there are several. */
  function Previous(copies: seq<Worktree>, path: Path): (previous: Option<Worktree>)
    ensures previous.Some? ==> previous.value in copies && previous.value.path == path
    ensures previous.None? ==> forall w :: w in copies ==> w.path != path
  {
    if copies == [] then None
    else if copies[|copies| - 1].path == path then Some(copies[|copies| - 1])
    else Previous(copies[..|copies| - 1], path)
  }

  /** A new record: what was copied when the refresh started, with the later of the copied and git's activity. */
  function Rebuilt(copies: seq<Worktree>, entry: Listed): (w: Worktree)
    ensures w.path == entry.path
  {
    match Previous(copies, entry.path)
    case None => Worktree(entry.path, None, entry.activity, [], 0, None, entry.divergence)
    case Some(previous) =>
      previous.(lastActivity := MergeTimestamp(entry.activity, previous.lastActivity),
                branchDivergence := if entry.keepsDivergence then previous.branchDivergence else entry.divergence)
  }

  function RebuiltAll(copies: seq<Worktree>, listing: seq<Listed>): (worktrees: seq<Worktree>)
    ensures |worktrees| == |listing|
    ensures forall i :: 0 <= i < |listing| ==> worktrees[i] == Rebuilt(copies, listing[i])
    ensures Paths(worktrees) == ListedPaths(listing)
  {
    seq(|listing|, i requires 0 <= i < |listing| => Rebuilt(copies, listing[i]))
  }

  function Replaced(app: App, copies: seq<Worktree>, listing: seq<Listed>): App {
    app.(worktrees := RebuiltAll(copies, listing))
  }

  /** The new records take the place of the old ones and are reconciled. */
  ghost function AfterRefresh(app: App, copies: seq<Worktree>, listing: seq<Listed>): App {
    Reconciled(Replaced(app, copies, listing), false)
  }

  // ---------- job results ----------

  datatype Checkpoint = Checkpoint(committed: bool, diffSummary: Option<DiffSummary>, divergence: Option<Divergence>)

  datatype Outcome = Outcome(path: Path, updatedAt: Option<nat>, epoch: nat, diffSummary: Option<DiffSummary>,
                             notificationsAllowed: bool, autoCheckpoint: Option<Checkpoint>)

  function Take<T>(s: seq<T>, n: nat): seq<T> {
    if |s| <= n then s else s[..n]
  }

  /** The turn an outcome records for a worktree. */
  function TurnOf(w: Worktree, outcome: Outcome): Turn {
    Turn(if outcome.updatedAt.Some? then outcome.updatedAt else w.lastActivity, outcome.diffSummary)
  }

  /** The turn goes to the front of the five kept; the stuck counter grows while diffs repeat. */
  function WithTurn(w: Worktree, turn: Turn): Worktree {
    w.(recentTurns := Take([turn] + w.recentTurns, 5),
       stuckTurnCount := if w.recentTurns != [] && w.recentTurns[0].summary == turn.summary
                         then w.stuckTurnCount + 1 else 0)
  }

  function WithCheckpoint(w: Worktree, checkpoint: Option<Checkpoint>): Worktree {
    if checkpoint.Some? && checkpoint.value.committed
    then w.(diffSummary := checkpoint.value.diffSummary, branchDivergence := checkpoint.value.divergence)
    else w
  }

  /** The first worktree with the path. */
  function FindWorktree(worktrees: seq<Worktree>, path: Path): (found: Option<nat>)
    ensures found.Some? ==> found.value < |worktrees| && worktrees[found.value].path == path
                            && forall i :: 0 <= i < found.value ==> worktrees[i].path != path
    ensures found.None? ==> forall i :: 0 <= i < |worktrees| ==> worktrees[i].path != path
  {
    if worktrees == [] then None
    else
      var rest := FindWorktree(worktrees[..|worktrees| - 1], path);
      if rest.Some? then rest
      else if worktrees[|worktrees| - 1].path == path then Some(|worktrees| - 1)
      else None
  }

  /** The worktree an outcome is for, if the outcome still counts. */
  function Target(app: App, outcome: Outcome): Option<nat> {
    if EpochOf(app.epochs, outcome.path) != outcome.epoch then None
    else
      var found := FindWorktree(app.worktrees, outcome.path);
      if found.Some? && app.worktrees[found.value].agentState == Some(Waiting) then found else None
  }

  function AfterResult(app: App, outcome: Outcome): App {
    match Target(app, outcome)
    case None => app
    case Some(i) =>
      var w := app.worktrees[i];
      app.(worktrees := app.worktrees[i := WithCheckpoint(WithTurn(w, TurnOf(w, outcome)), outcome.autoCheckpoint)])
  }

  // ---------- the window ----------

  class ArborWindow {
    var worktrees: seq<Worktree>
    var sessions: map<string, Session>
    var epochs: map<Path, nat>
    var inFlight: set<Path>
    var outpostActive: bool

    ghost function State(): App
      reads this
    {
      App(worktrees, sessions, epochs, inFlight, outpostActive)
    }

    constructor (worktrees: seq<Worktree>, outpostActive: bool)
      ensures State() == App(worktrees, map[], map[], {}, outpostActive)
    {
      this.worktrees, this.outpostActive := worktrees, outpostActive;
      sessions, epochs, inFlight := map[], map[], {};
    }

    method AdvanceAgentActivityEpoch(path: Path) returns (epoch: nat)
      modifies this`epochs
      ensures epoch == Bump(EpochOf(old(epochs), path))
      ensures epochs == old(epochs)[path := epoch]
    {
      var current := if path in epochs then epochs[path] else 0;
      epoch := if current < U64_MAX then current + 1 else U64_MAX;
      epochs := epochs[path := epoch];
    }

    /** Whether a request's epoch is still the one of its path. */
    method EpochIsCurrent(path: Path, epoch: nat) returns (current: bool)
      ensures current <==> EpochOf(State().epochs, path) == epoch
    {
      current := (if path in epochs then epochs[path] else 0) == epoch;
    }

    method TakeSlot(path: Path) returns (inserted: bool)
      modifies this`inFlight
      ensures State() == old(State()).(inFlight := old(inFlight) + {path})
      ensures inserted <==> path !in old(inFlight)
    {
      inserted := path !in inFlight;
      inFlight := inFlight + {path};
    }

    method ReleaseSlot(path: Path)
      modifies this`inFlight
      ensures State() == old(State()).(inFlight := old(inFlight) - {path})
    {
      inFlight := inFlight - {path};
    }

    /** One turn of the reconciliation loop. */
    method ReconcileWorktree(w: Worktree, derived: map<Path, Derived>, allow: bool, autoCheckpoint: bool)
      returns (updated: Worktree, request: seq<Request>)
      modifies this`epochs
      ensures updated == WithState(w, derived)
      ensures epochs == StepEpochs(w, derived, old(epochs))
      ensures request == StepRequests(w, derived, old(epochs), allow, autoCheckpoint)
    {
      var next: Option<AgentState>, updatedAt: Option<nat> := None, None;
      if w.path in derived {
        next, updatedAt := Some(derived[w.path].state), derived[w.path].updatedAt;
      }
      var transitionEpoch: Option<nat> := None;
      if w.agentState != next {
        var epoch := AdvanceAgentActivityEpoch(w.path);
        transitionEpoch := Some(epoch);
      }
      updated := w.(agentState := next);
      if updatedAt.Some? {
        updated := updated.(lastActivity := Some(Max(w.lastActivity.GetOr(0), updatedAt.value)));
      }
      request := [];
      if allow && WaitingTransition(w.agentState, next) && transitionEpoch.Some? {
        request := [Request(w.path, updatedAt, transitionEpoch.value, autoCheckpoint)];
      }
    }

    /** The reconciliation loop over the worktrees, given the derived states. */
    method SweepWorktrees(derivedStates: map<Path, Derived>, allow: bool, autoCheckpoint: bool)
      returns (requests: seq<Request>)
      modifies this`worktrees, this`epochs
      ensures worktrees == SweepOver(old(worktrees), old(epochs), derivedStates, allow, autoCheckpoint).worktrees
      ensures epochs == SweepOver(old(worktrees), old(epochs), derivedStates, allow, autoCheckpoint).epochs
      ensures requests == SweepOver(old(worktrees), old(epochs), derivedStates, allow, autoCheckpoint).requests
    {
      hide WithState, StepEpochs, StepRequests;
      var derived := derivedStates;
      ghost var all, epochs0 := worktrees, epochs;
      ghost var sweep := Sweep([], epochs, [], derived);
      requests := [];
      Ends(all);
      for i := 0 to |worktrees|
        invariant sweep == SweepOver(all[..i], epochs0, derivedStates, allow, autoCheckpoint)
        invariant |sweep.worktrees| == i && worktrees == sweep.worktrees + all[i..]
        invariant epochs == sweep.epochs && requests == sweep.requests && derived == sweep.derived
      {
        SweepNext(all, i, epochs0, derivedStates, allow, autoCheckpoint);
        PutAt(sweep.worktrees, all, i, WithState(all[i], derived));
        hide SweepOver;
        var w := worktrees[i];
        var updated, request := ReconcileWorktree(w, derived, allow, autoCheckpoint);
        derived := derived - {w.path};
        worktrees := worktrees[i := updated];
        requests := requests + request;
        sweep := SweepStep(sweep, w, allow, autoCheckpoint);
      }
    }

    method ReconcileWorktreeAgentActivity(allowWaitingTransitions: bool) returns (requests: seq<Request>)
      modifies this
      ensures State() == old(Reconciled(State(), allowWaitingTransitions))
      ensures requests == old(ReconcileRequests(State(), allowWaitingTransitions))
    {
      var derived := DeriveStates(sessions, Paths(worktrees));
      requests := SweepWorktrees(derived, allowWaitingTransitions, !outpostActive);
    }

    method ApplyAgentWsSnapshot(entries: seq<Entry>) returns (requests: seq<Request>)
      modifies this
      ensures State() == old(AfterMessage(State(), Snapshot(entries)))
      ensures requests == old(MessageRequests(State(), Snapshot(entries)))
    {
      sessions := Collect(map[], entries);
      requests := ReconcileWorktreeAgentActivity(false);
    }

    method ApplyAgentWsUpdate(entries: seq<Entry>) returns (requests: seq<Request>)
      modifies this
      ensures State() == old(AfterMessage(State(), Update(entries)))
      ensures requests == old(MessageRequests(State(), Update(entries)))
    {
      sessions := Collect(sessions, entries);
      requests := ReconcileWorktreeAgentActivity(true);
    }

    method ApplyAgentWsClear(sessionId: string) returns (requests: seq<Request>)
      modifies this
      ensures State() == old(AfterMessage(State(), Clear(sessionId)))
      ensures requests == old(MessageRequests(State(), Clear(sessionId)))
    {
      sessions := sessions - {sessionId};
      requests := ReconcileWorktreeAgentActivity(false);
    }

    /** Ends a refresh that started when the records were as copied. */
    method FinishRefresh(copies: seq<Worktree>, listing: seq<Listed>)
      modifies this
      ensures State() == old(AfterRefresh(State(), copies, listing))
    {
      var nextWorktrees := [];
      for i := 0 to |listing|
        invariant |nextWorktrees| == i
        invariant forall k :: 0 <= k < i ==> nextWorktrees[k] == Rebuilt(copies, listing[k])
      {
        var entry, w := listing[i], Worktree(listing[i].path, None, listing[i].activity, [], 0, None, listing[i].divergence);
        var previous := Previous(copies, entry.path);
        if previous.Some? {
          w := w.(agentState := previous.value.agentState, recentTurns := previous.value.recentTurns,
                  stuckTurnCount := previous.value.stuckTurnCount, diffSummary := previous.value.diffSummary);
          if entry.keepsDivergence {
            w := w.(branchDivergence := previous.value.branchDivergence);
          }
          w := w.(lastActivity := MergeTimestamp(w.lastActivity, previous.value.lastActivity));
        }
        nextWorktrees := nextWorktrees + [w];
      }
      assert nextWorktrees == RebuiltAll(copies, listing);
      worktrees := nextWorktrees;
      var requests := ReconcileWorktreeAgentActivity(false);
      assert requests == [] by {
        NothingAllowed(RebuiltAll(copies, listing), old(epochs),
                       DerivedOver(old(sessions), ListedPaths(listing), old(sessions.Keys)), !old(outpostActive));
      }
    }

    method ApplyAgentWaitingTransitionResult(outcome: Outcome)
      modifies this`worktrees
      ensures State() == old(AfterResult(State(), outcome))
    {
      hide FindWorktree;
      var current := if outcome.path in epochs then epochs[outcome.path] else 0;
      if current != outcome.epoch {
        return;
      }
      var found := FindWorktree(worktrees, outcome.path);
      if found.None? {
        return;
      }
      var w := worktrees[found.value];
      if w.agentState != Some(Waiting) {
        return;
      }
      var snapshot := Turn(if outcome.updatedAt.Some? then outcome.updatedAt else w.lastActivity, outcome.diffSummary);
      if |w.recentTurns| > 0 && w.recentTurns[0].summary == snapshot.summary {
        w := w.(stuckTurnCount := w.stuckTurnCount + 1);
      } else {
        w := w.(stuckTurnCount := 0);
      }
      w := w.(recentTurns := [snapshot] + w.recentTurns);
      if |w.recentTurns| > 5 {
        w := w.(recentTurns := w.recentTurns[..5]);
      }
      if outcome.autoCheckpoint.Some? && outcome.autoCheckpoint.value.committed {
        w := w.(diffSummary := outcome.autoCheckpoint.value.diffSummary,
                branchDivergence := outcome.autoCheckpoint.value.divergence);
      }
      assert w == WithCheckpoint(WithTurn(worktrees[found.value], TurnOf(worktrees[found.value], outcome)),
                                 outcome.autoCheckpoint);
      worktrees := worktrees[found.value := w];
    }
  }

  /** Only updates ask for background work. */
  lemma {:induction false} NothingAllowed(worktrees: seq<Worktree>, epochs: map<Path, nat>, derived: map<Path, Derived>,
                                          autoCheckpoint: bool)
    ensures SweepOver(worktrees, epochs, derived, false, autoCheckpoint).requests == []
  {
    if worktrees != [] {
      NothingAllowed(worktrees[..|worktrees| - 1], epochs, derived, autoCheckpoint);
    }
  }

  lemma SweepNext(all: seq<Worktree>, i: nat, epochs: map<Path, nat>, derived: map<Path, Derived>,
                  allow: bool, autoCheckpoint: bool)
    requires i < |all|
    ensures SweepOver(all[..i + 1], epochs, derived, allow, autoCheckpoint)
         == SweepStep(SweepOver(all[..i], epochs, derived, allow, autoCheckpoint), all[i], allow, autoCheckpoint)
  {
    assert all[..i + 1][..i] == all[..i];
  }

  lemma PutAt(done: seq<Worktree>, all: seq<Worktree>, i: nat, w: Worktree)
    requires i < |all| && |done| == i
    ensures (done + all[i..])[i] == all[i]
    ensures (done + all[i..])[i := w] == done + [w] + all[i + 1..]
  {
  }

  lemma Ends(all: seq<Worktree>)
    ensures all[..0] == [] && [] + all[0..] == all && all[..|all|] == all
    ensures forall done: seq<Worktree> :: done + all[|all|..] == done
  {
  }

  method Collect(sessions: map<string, Session>, entries: seq<Entry>) returns (collected: map<string, Session>)
    ensures collected == Inserted(sessions, entries)
  {
    collected := sessions;
    for i := 0 to |entries|
      invariant collected == Inserted(sessions, entries[..i])
    {
      collected := collected[entries[i].sessionId := entries[i].session];
      assert entries[..i + 1][..i] == entries[..i];
    }
    assert entries[..|entries|] == entries;
  }
}
