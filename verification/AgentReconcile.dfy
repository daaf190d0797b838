/** What reconciliation achieves when no two worktrees share a path: every worktree's state is the one its
    own sessions dictate, and reconciling again changes nothing. */
module AgentReconcile {
  import opened Wrappers
  import opened AgentActivity
  import opened AgentWindow

  // ---------- the reference definition ----------

  /** Some session in the given state belongs to the worktree: its directory's deepest worktree is p. */
  ghost predicate HasSession(sessions: map<string, Session>, paths: seq<Path>, p: Path, state: AgentState) {
    exists id :: id in sessions && sessions[id].state == state && Deepest(paths, sessions[id].cwd, p)
  }

  ghost function SpecState(sessions: map<string, Session>, paths: seq<Path>, p: Path): Option<AgentState> {
    if HasSession(sessions, paths, p, Working) then Some(Working)
    else if HasSession(sessions, paths, p, Waiting) then Some(Waiting)
    else None
  }

  /** Every worktree's state is the one its sessions dictate. */
  ghost predicate Settled(app: App) {
    forall i :: 0 <= i < |app.worktrees| ==>
      app.worktrees[i].agentState == SpecState(app.sessions, Paths(app.worktrees), app.worktrees[i].path)
  }

  ghost function DerivedStates(app: App): map<Path, Derived> {
    DerivedOver(app.sessions, Paths(app.worktrees), app.sessions.Keys)
  }

  lemma DerivedIsSpec(app: App, i: nat)
    requires i < |app.worktrees|
    ensures WithState(app.worktrees[i], DerivedStates(app)).agentState
         == SpecState(app.sessions, Paths(app.worktrees), app.worktrees[i].path)
  {
    hide BestMatch, Latest, Deepest;
    var paths, p := Paths(app.worktrees), app.worktrees[i].path;
    assert p in paths by {
      assert paths[i] == p;
    }
    forall id | id in app.sessions
      ensures Owned(app.sessions, paths, id, p) <==> Deepest(paths, app.sessions[id].cwd, p)
    {
      DeepestIsBest(paths, app.sessions[id].cwd, p);
    }
  }

  // ---------- the sweep, worktree by worktree ----------

  function NewEpoch(w: Worktree, derived: map<Path, Derived>, epochs: map<Path, nat>): nat {
    if w.agentState != WithState(w, derived).agentState then Bump(EpochOf(epochs, w.path)) else EpochOf(epochs, w.path)
  }

  predicate RequestFor(r: Request, w: Worktree, derived: map<Path, Derived>, epochs: map<Path, nat>, allow: bool,
                       autoCheckpoint: bool)
  {
    StepRequests(w, derived, epochs, allow, autoCheckpoint) == [r]
  }

  /** The sweep over distinct worktrees treats each one as if it were alone. */
  ghost predicate Pointwise(worktrees: seq<Worktree>, epochs: map<Path, nat>, derived: map<Path, Derived>, allow: bool,
                            autoCheckpoint: bool, sweep: Sweep)
  {
    && |sweep.worktrees| == |worktrees|
    && (forall i :: 0 <= i < |worktrees| ==> sweep.worktrees[i] == WithState(worktrees[i], derived))
    && (forall i :: 0 <= i < |worktrees| ==>
          EpochOf(sweep.epochs, worktrees[i].path) == NewEpoch(worktrees[i], derived, epochs))
    && (forall p :: p !in Paths(worktrees) ==> EpochOf(sweep.epochs, p) == EpochOf(epochs, p))
  }

  ghost predicate PointwiseRequests(worktrees: seq<Worktree>, epochs: map<Path, nat>, derived: map<Path, Derived>,
                                    allow: bool, autoCheckpoint: bool, requests: seq<Request>)
  {
    && (forall k :: 0 <= k < |requests| ==> FromSome(worktrees, epochs, derived, allow, autoCheckpoint, requests[k]))
    && (forall i, j :: 0 <= i < j < |requests| ==> requests[i].path != requests[j].path)
    && (forall i :: 0 <= i < |worktrees| && StepRequests(worktrees[i], derived, epochs, allow, autoCheckpoint) != [] ==>
          StepRequests(worktrees[i], derived, epochs, allow, autoCheckpoint)[0] in requests)
  }

  ghost predicate FromSome(worktrees: seq<Worktree>, epochs: map<Path, nat>, derived: map<Path, Derived>, allow: bool,
                           autoCheckpoint: bool, r: Request)
  {
    exists i :: 0 <= i < |worktrees| && RequestFor(r, worktrees[i], derived, epochs, allow, autoCheckpoint)
  }

  /** What is left of the derived states after the sweep. */
  lemma {:induction false} SweepLeaves(worktrees: seq<Worktree>, epochs: map<Path, nat>, derived: map<Path, Derived>,
                                       allow: bool, autoCheckpoint: bool, p: Path)
    requires p !in Paths(worktrees)
    ensures var left := SweepOver(worktrees, epochs, derived, allow, autoCheckpoint).derived;
      (p in left <==> p in derived) && (p in derived ==> left[p] == derived[p])
    decreases |worktrees|
  {
    hide WithState, StepEpochs, StepRequests;
    if worktrees != [] {
      var n := |worktrees| - 1;
      assert worktrees[n].path == Paths(worktrees)[n];
      assert forall q :: q in Paths(worktrees[..n]) ==> q in Paths(worktrees) by {
        PathsShorter(worktrees);
      }
      SweepLeaves(worktrees[..n], epochs, derived, allow, autoCheckpoint, p);
    }
  }

  lemma PathsShorter(worktrees: seq<Worktree>)
    requires worktrees != []
    ensures Paths(worktrees) == Paths(worktrees[..|worktrees| - 1]) + [worktrees[|worktrees| - 1].path]
  {
  }

  lemma LastIsNew(worktrees: seq<Worktree>)
    requires worktrees != [] && DistinctPaths(worktrees)
    ensures worktrees[|worktrees| - 1].path !in Paths(worktrees[..|worktrees| - 1])
    ensures DistinctPaths(worktrees[..|worktrees| - 1])
  {
  }

  lemma {:induction false} SweepIsPointwise(worktrees: seq<Worktree>, epochs: map<Path, nat>,
                                            derived: map<Path, Derived>, allow: bool, autoCheckpoint: bool)
    requires DistinctPaths(worktrees)
    ensures Pointwise(worktrees, epochs, derived, allow, autoCheckpoint,
                      SweepOver(worktrees, epochs, derived, allow, autoCheckpoint))
    ensures PointwiseRequests(worktrees, epochs, derived, allow, autoCheckpoint,
                              SweepOver(worktrees, epochs, derived, allow, autoCheckpoint).requests)
    decreases |worktrees|
  {
    if worktrees != [] {
      var n := |worktrees| - 1;
      var front, last := worktrees[..n], worktrees[n];
      LastIsNew(worktrees);
      SweepIsPointwise(front, epochs, derived, allow, autoCheckpoint);
      SweepLeaves(front, epochs, derived, allow, autoCheckpoint, last.path);
      var sweep := SweepOver(front, epochs, derived, allow, autoCheckpoint);
      assert EpochOf(sweep.epochs, last.path) == EpochOf(epochs, last.path);
      SameStep(last, sweep.derived, derived, sweep.epochs, epochs, allow, autoCheckpoint);
      hide SweepOver;
      PointwiseNext(worktrees, epochs, derived, allow, autoCheckpoint, sweep);
      RequestsNext(worktrees, epochs, derived, allow, autoCheckpoint, sweep.requests);
    }
  }

  /** A step depends on the derived states and the epochs only through the worktree's own path. */
  lemma SameStep(w: Worktree, derived1: map<Path, Derived>, derived2: map<Path, Derived>, epochs1: map<Path, nat>,
                 epochs2: map<Path, nat>, allow: bool, autoCheckpoint: bool)
    requires w.path in derived1 <==> w.path in derived2
    requires w.path in derived1 ==> derived1[w.path] == derived2[w.path]
    requires EpochOf(epochs1, w.path) == EpochOf(epochs2, w.path)
    ensures WithState(w, derived1) == WithState(w, derived2)
    ensures StepRequests(w, derived1, epochs1, allow, autoCheckpoint)
         == StepRequests(w, derived2, epochs2, allow, autoCheckpoint)
  {
  }

  lemma PointwiseNext(worktrees: seq<Worktree>, epochs: map<Path, nat>, derived: map<Path, Derived>, allow: bool,
                      autoCheckpoint: bool, sweep: Sweep)
    requires worktrees != [] && DistinctPaths(worktrees)
    requires Pointwise(worktrees[..|worktrees| - 1], epochs, derived, allow, autoCheckpoint, sweep)
    requires WithState(worktrees[|worktrees| - 1], sweep.derived) == WithState(worktrees[|worktrees| - 1], derived)
    ensures Pointwise(worktrees, epochs, derived, allow, autoCheckpoint,
                      SweepStep(sweep, worktrees[|worktrees| - 1], allow, autoCheckpoint))
  {
    hide WithState, StepRequests;
    var n := |worktrees| - 1;
    var last, next := worktrees[n], SweepStep(sweep, worktrees[n], allow, autoCheckpoint);
    LastIsNew(worktrees);
    PathsShorter(worktrees);
    assert EpochOf(sweep.epochs, last.path) == EpochOf(epochs, last.path);
    forall i | 0 <= i < |worktrees|
      ensures EpochOf(next.epochs, worktrees[i].path) == NewEpoch(worktrees[i], derived, epochs)
    {
      if i < n {
        assert worktrees[..n][i] == worktrees[i];
      }
    }
  }

  lemma FromSomeStays(worktrees: seq<Worktree>, epochs: map<Path, nat>, derived: map<Path, Derived>, allow: bool,
                      autoCheckpoint: bool, r: Request)
    requires worktrees != []
    requires FromSome(worktrees[..|worktrees| - 1], epochs, derived, allow, autoCheckpoint, r)
    ensures FromSome(worktrees, epochs, derived, allow, autoCheckpoint, r)
    ensures r.path in Paths(worktrees[..|worktrees| - 1])
  {
    hide StepRequests, RequestFor, WithState;
    var front := worktrees[..|worktrees| - 1];
    var i :| 0 <= i < |front| && RequestFor(r, front[i], derived, epochs, allow, autoCheckpoint);
    assert worktrees[i] == front[i];
    RequestPath(r, front[i], derived, epochs, allow, autoCheckpoint);
    assert Paths(front)[i] == front[i].path;
  }

  lemma RequestsNext(worktrees: seq<Worktree>, epochs: map<Path, nat>, derived: map<Path, Derived>, allow: bool,
                     autoCheckpoint: bool, requests: seq<Request>)
    requires worktrees != [] && DistinctPaths(worktrees)
    requires PointwiseRequests(worktrees[..|worktrees| - 1], epochs, derived, allow, autoCheckpoint, requests)
    ensures PointwiseRequests(worktrees, epochs, derived, allow, autoCheckpoint,
                              requests + StepRequests(worktrees[|worktrees| - 1], derived, epochs, allow, autoCheckpoint))
  {
    var n := |worktrees| - 1;
    var front, last := worktrees[..n], worktrees[n];
    var more := StepRequests(last, derived, epochs, allow, autoCheckpoint);
    assert more != [] ==> |more| == 1 && more[0].path == last.path;
    hide StepRequests, FromSome;
    var all := requests + more;
    LastIsNew(worktrees);
    forall k | 0 <= k < |all|
      ensures FromSome(worktrees, epochs, derived, allow, autoCheckpoint, all[k])
      ensures k < |requests| ==> all[k].path in Paths(front)
    {
      if k < |requests| {
        FromSomeStays(worktrees, epochs, derived, allow, autoCheckpoint, requests[k]);
      } else {
        FromLast(worktrees, epochs, derived, allow, autoCheckpoint, all[k]);
      }
    }
    forall i | 0 <= i < |worktrees| && StepRequests(worktrees[i], derived, epochs, allow, autoCheckpoint) != []
      ensures StepRequests(worktrees[i], derived, epochs, allow, autoCheckpoint)[0] in all
    {
      if i < n {
        assert front[i] == worktrees[i];
      } else {
        assert all[|requests|] == more[0];
      }
    }
  }

  lemma FromLast(worktrees: seq<Worktree>, epochs: map<Path, nat>, derived: map<Path, Derived>, allow: bool,
                 autoCheckpoint: bool, r: Request)
    requires worktrees != []
    requires StepRequests(worktrees[|worktrees| - 1], derived, epochs, allow, autoCheckpoint) == [r]
    ensures FromSome(worktrees, epochs, derived, allow, autoCheckpoint, r)
  {
    hide StepRequests;
    assert RequestFor(r, worktrees[|worktrees| - 1], derived, epochs, allow, autoCheckpoint);
  }

  lemma RequestPath(r: Request, w: Worktree, derived: map<Path, Derived>, epochs: map<Path, nat>, allow: bool,
                    autoCheckpoint: bool)
    requires RequestFor(r, w, derived, epochs, allow, autoCheckpoint)
    ensures allow && r.path == w.path && r.epoch == Bump(EpochOf(epochs, w.path))
    ensures WaitingTransition(w.agentState, WithState(w, derived).agentState)
  {
  }

  // ---------- main results ----------

  /** After reconciling, each worktree is working if one of the sessions whose deepest worktree it is works,
      waiting if it has sessions and none works, and idle otherwise. Its last activity never goes back. */
  lemma ReconcileRefinesSpec(app: App, allow: bool, i: nat)
    requires DistinctPaths(app.worktrees) && i < |app.worktrees|
    ensures var after := Reconciled(app, allow);
      && |after.worktrees| == |app.worktrees|
      && after.worktrees[i].path == app.worktrees[i].path
      && after.worktrees[i].agentState
         == SpecState(app.sessions, Paths(app.worktrees), app.worktrees[i].path)
      && (app.worktrees[i].lastActivity.Some? ==>
            && after.worktrees[i].lastActivity.Some?
            && app.worktrees[i].lastActivity.value <= after.worktrees[i].lastActivity.value)
  {
    SweepIsPointwise(app.worktrees, app.epochs, DerivedStates(app), allow, !app.outpostActive);
    DerivedIsSpec(app, i);
    hide SweepOver, SpecState, DerivedOver;
  }

  /** The epoch of a worktree advances exactly when its state changes. */
  lemma EpochsCountChanges(app: App, allow: bool, i: nat)
    requires DistinctPaths(app.worktrees) && i < |app.worktrees|
    ensures var after := Reconciled(app, allow); var p := app.worktrees[i].path;
      EpochOf(after.epochs, p)
      == if app.worktrees[i].agentState != SpecState(app.sessions, Paths(app.worktrees), p)
         then Bump(EpochOf(app.epochs, p)) else EpochOf(app.epochs, p)
  {
    SweepIsPointwise(app.worktrees, app.epochs, DerivedStates(app), allow, !app.outpostActive);
    DerivedIsSpec(app, i);
    hide SweepOver, SpecState, DerivedOver;
  }

  lemma SamePaths(app: App, allow: bool)
    requires DistinctPaths(app.worktrees)
    ensures Paths(Reconciled(app, allow).worktrees) == Paths(app.worktrees)
    ensures DistinctPaths(Reconciled(app, allow).worktrees)
  {
    SweepIsPointwise(app.worktrees, app.epochs, DerivedStates(app), allow, !app.outpostActive);
    hide SweepOver, DerivedOver;
  }

  lemma ReconcileSettles(app: App, allow: bool)
    requires DistinctPaths(app.worktrees)
    ensures Settled(Reconciled(app, allow))
  {
    var after := Reconciled(app, allow);
    SamePaths(app, allow);
    assert |after.worktrees| == |Paths(after.worktrees)| == |app.worktrees|;
    assert after.sessions == app.sessions;
    hide Reconciled, SpecState;
    forall i | 0 <= i < |after.worktrees|
      ensures after.worktrees[i].agentState == SpecState(after.sessions, Paths(after.worktrees), after.worktrees[i].path)
    {
      ReconcileRefinesSpec(app, allow, i);
    }
  }

  lemma WithStateAgain(w: Worktree, derived: map<Path, Derived>)
    ensures WithState(WithState(w, derived), derived) == WithState(w, derived)
  {
  }

  /** After a reconciliation nothing is left to change: the same states are derived, and every worktree has its. */
  lemma OnceIsEnough(app: App, allow: bool)
    requires DistinctPaths(app.worktrees)
    ensures var once := Reconciled(app, allow);
      && DistinctPaths(once.worktrees)
      && DerivedStates(once) == DerivedStates(app)
      && forall i :: 0 <= i < |once.worktrees| ==> WithState(once.worktrees[i], DerivedStates(app)) == once.worktrees[i]
  {
    var once, derived := Reconciled(app, allow), DerivedStates(app);
    SamePaths(app, allow);
    SweepIsPointwise(app.worktrees, app.epochs, derived, allow, !app.outpostActive);
    hide SweepOver, DerivedOver, WithState;
    forall i | 0 <= i < |once.worktrees|
      ensures WithState(once.worktrees[i], derived) == once.worktrees[i]
    {
      WithStateAgain(app.worktrees[i], derived);
    }
  }

  lemma NothingAsked(app: App, allow: bool)
    requires DistinctPaths(app.worktrees)
    requires forall i :: 0 <= i < |app.worktrees| ==> WithState(app.worktrees[i], DerivedStates(app)) == app.worktrees[i]
    ensures ReconcileRequests(app, allow) == []
  {
    var derived, requests := DerivedStates(app), ReconcileRequests(app, allow);
    SweepIsPointwise(app.worktrees, app.epochs, derived, allow, !app.outpostActive);
    hide SweepOver, DerivedOver, WithState;
    if requests != [] {
      assert FromSome(app.worktrees, app.epochs, derived, allow, !app.outpostActive, requests[0]);
      var i :| 0 <= i < |app.worktrees|
        && RequestFor(requests[0], app.worktrees[i], derived, app.epochs, allow, !app.outpostActive);
      RequestPath(requests[0], app.worktrees[i], derived, app.epochs, allow, !app.outpostActive);
      assert false;
    }
  }

  /** Reconciling a second time changes no worktree and no epoch, and asks for nothing. */
  lemma ReconcileTwice(app: App, first: bool, second: bool)
    requires DistinctPaths(app.worktrees)
    ensures var once := Reconciled(app, first);
      && Reconciled(once, second).worktrees == once.worktrees
      && (forall p :: EpochOf(Reconciled(once, second).epochs, p) == EpochOf(once.epochs, p))
      && ReconcileRequests(once, second) == []
  {
    var once := Reconciled(app, first);
    OnceIsEnough(app, first);
    NothingAsked(once, second);
    SweepIsPointwise(once.worktrees, once.epochs, DerivedStates(once), second, !once.outpostActive);
    hide SweepOver, DerivedOver, WithState;
    EpochsStay(once, DerivedStates(once), second);
  }

  lemma EpochsStay(app: App, derived: map<Path, Derived>, allow: bool)
    requires Pointwise(app.worktrees, app.epochs, derived, allow, !app.outpostActive,
                       SweepOver(app.worktrees, app.epochs, derived, allow, !app.outpostActive))
    requires forall i :: 0 <= i < |app.worktrees| ==> WithState(app.worktrees[i], derived) == app.worktrees[i]
    ensures forall p :: EpochOf(SweepOver(app.worktrees, app.epochs, derived, allow, !app.outpostActive).epochs, p)
                     == EpochOf(app.epochs, p)
  {
    hide SweepOver, WithState;
    forall p
      ensures EpochOf(SweepOver(app.worktrees, app.epochs, derived, allow, !app.outpostActive).epochs, p)
           == EpochOf(app.epochs, p)
    {
      if p in Paths(app.worktrees) {
        var i :| 0 <= i < |app.worktrees| && Paths(app.worktrees)[i] == p;
      }
    }
  }
}
