/** What the session map holds, and so what every worktree shows, as a function of the messages received. */
module AgentMessages {
  import opened Wrappers
  import opened AgentActivity
  import opened AgentWindow
  import opened AgentReconcile
  import opened AgentRuns
  import opened AgentEpochs
  import opened AgentTurns

  // ---------- what a history of messages says about a session ----------

  /** The entries a step brings. */
  function EntriesOf(action: Action): seq<Entry> {
    match action
    case Receive(Snapshot(entries)) => entries
    case Receive(Update(entries)) => entries
    case _ => []
  }

  /** Entry e of a step is about the session. */
  predicate Names(action: Action, e: nat, id: string) {
    e < |EntriesOf(action)| && EntriesOf(action)[e].sessionId == id
  }

  /** A step after which nothing said earlier about the session counts. */
  predicate Forgets(action: Action, id: string) {
    match action
    case Receive(Snapshot(_)) => true
    case Receive(Clear(cleared)) => cleared == id
    case _ => false
  }

  ghost predicate Mentions(action: Action, id: string) {
    Forgets(action, id) || exists e: nat :: Names(action, e, id)
  }

  /** Entry e of step k is the newest word on the session: no later entry of the step names it, and no later step
      names it or forgets it. */
  ghost predicate NewestAt(actions: seq<Action>, k: nat, e: nat, id: string) {
    && k < |actions| && Names(actions[k], e, id)
    && (forall f: nat :: f > e ==> !Names(actions[k], f, id))
    && (forall l :: k < l < |actions| ==> !Mentions(actions[l], id))
  }

  ghost predicate NeverMentioned(actions: seq<Action>, id: string) {
    forall k :: 0 <= k < |actions| ==> !Mentions(actions[k], id)
  }

  /** The messages, on top of what was known at the start, say this of the session. */
  ghost predicate Told(known: map<string, Session>, actions: seq<Action>, id: string, session: Session) {
    || (exists k: nat, e: nat :: NewestAt(actions, k, e, id) && EntriesOf(actions[k])[e].session == session)
    || (NeverMentioned(actions, id) && id in known && known[id] == session)
  }

  predicate Knows(sessions: map<string, Session>, id: string, session: Session) {
    id in sessions && sessions[id] == session
  }

  // ---------- one step ----------

  /** Entry e is the last of a list about the session. */
  predicate LastEntry(entries: seq<Entry>, e: nat, id: string) {
    e < |entries| && entries[e].sessionId == id && forall f :: e < f < |entries| ==> entries[f].sessionId != id
  }

  /** The last entry of a list about the session gives it as this. */
  ghost predicate Brings(entries: seq<Entry>, id: string, session: Session) {
    exists e: nat :: LastEntry(entries, e, id) && entries[e].session == session
  }

  predicate Unnamed(entries: seq<Entry>, id: string) {
    forall f :: 0 <= f < |entries| ==> entries[f].sessionId != id
  }

  lemma BringsNext(entries: seq<Entry>, id: string, session: Session)
    requires entries != []
    ensures var n := |entries| - 1;
      && (Unnamed(entries, id) <==> Unnamed(entries[..n], id) && entries[n].sessionId != id)
      && (Brings(entries, id, session) <==>
            if entries[n].sessionId == id then entries[n].session == session else Brings(entries[..n], id, session))
  {
    var n := |entries| - 1;
    if entries[n].sessionId == id {
      assert LastEntry(entries, n, id);
      assert forall e: nat :: LastEntry(entries, e, id) ==> e == n;
    } else {
      forall e: nat
        ensures LastEntry(entries, e, id) <==> LastEntry(entries[..n], e, id)
      {
      }
      assert forall e: nat :: LastEntry(entries, e, id) ==> entries[..n][e] == entries[e];
    }
  }

  lemma {:induction false} InsertedHolds(sessions: map<string, Session>, entries: seq<Entry>, id: string, session: Session)
    ensures Knows(Inserted(sessions, entries), id, session)
       <==> Brings(entries, id, session) || (Unnamed(entries, id) && Knows(sessions, id, session))
    decreases |entries|
  {
    if entries != [] {
      InsertedHolds(sessions, entries[..|entries| - 1], id, session);
      BringsNext(entries, id, session);
      hide Brings, Unnamed;
    }
  }

  /** A step keeps, replaces or forgets what is known of a session. */
  lemma StepHolds(run: Run, action: Action, id: string, session: Session)
    ensures Knows(Step(run, action).app.sessions, id, session)
       <==> Brings(EntriesOf(action), id, session) || (!Mentions(action, id) && Knows(run.app.sessions, id, session))
  {
    match action
    case Receive(message) =>
      StepSessions(run, message);
      hide Step, Inserted;
      InsertedHolds(if message.Snapshot? then map[] else run.app.sessions, EntriesOf(action), id, session);
      NamesIndices(action, id);
      if message.Clear? {
        assert !exists e: nat :: Names(action, e, id);
      }
    case _ =>
      OthersKeepSessions(run, action);
      hide Step;
      assert EntriesOf(action) == [] && !Mentions(action, id);
  }

  lemma StepSessions(run: Run, message: Message)
    ensures Step(run, Receive(message)).app.sessions == SessionsAfter(run.app.sessions, message)
  {
    hide SessionsAfter, SweepOver, MessageRequests;
  }

  lemma NamesIndices(action: Action, id: string)
    ensures (exists e: nat :: Names(action, e, id)) <==> !Unnamed(EntriesOf(action), id)
  {
    if f :| 0 <= f < |EntriesOf(action)| && EntriesOf(action)[f].sessionId == id {
      assert Names(action, f, id);
    }
  }

  lemma OthersKeepSessions(run: Run, action: Action)
    requires !action.Receive?
    ensures Step(run, action).app.sessions == run.app.sessions
  {
    if !action.EndRefresh? {
      JobStepsDisturbNothing(run, action);
      hide Step;
    }
  }

  // ---------- whole runs ----------

  /** Adding a step to a history. */
  lemma ToldNext(known: map<string, Session>, actions: seq<Action>, action: Action, id: string, session: Session)
    ensures Told(known, actions + [action], id, session)
       <==> Brings(EntriesOf(action), id, session) || (!Mentions(action, id) && Told(known, actions, id, session))
  {
    var longer, n := actions + [action], |actions|;
    hide Forgets, EntriesOf;
    forall e: nat
      ensures NewestAt(longer, n, e, id) <==> LastEntry(EntriesOf(action), e, id)
    {
      if LastEntry(EntriesOf(action), e, id) {
        assert Names(longer[n], e, id);
      }
      if NewestAt(longer, n, e, id) {
        forall f | e < f < |EntriesOf(action)|
          ensures EntriesOf(action)[f].sessionId != id
        {
          assert !Names(longer[n], f, id);
        }
      }
    }
    forall k: nat, e: nat | k < n
      ensures NewestAt(longer, k, e, id) <==> NewestAt(actions, k, e, id) && !Mentions(action, id)
    {
      assert longer[k] == actions[k] && longer[n] == action;
      assert forall l :: k < l < n ==> longer[l] == actions[l];
      if NewestAt(longer, k, e, id) {
        assert !Mentions(longer[n], id);
        assert forall l :: k < l < n ==> !Mentions(longer[l], id) ;
      }
    }
    assert NeverMentioned(longer, id) <==> NeverMentioned(actions, id) && !Mentions(action, id) by {
      assert longer[n] == action && forall k :: 0 <= k < n ==> longer[k] == actions[k];
      assert NeverMentioned(longer, id) ==> forall k :: 0 <= k < n ==> !Mentions(longer[k], id);
    }
    LastEntryMentions(action, id);
  }

  lemma LastEntryMentions(action: Action, id: string)
    ensures (exists e: nat :: LastEntry(EntriesOf(action), e, id)) ==> Mentions(action, id)
  {
    if e: nat :| LastEntry(EntriesOf(action), e, id) {
      assert Names(action, e, id);
    }
  }

  /** In every interleaving the session map holds exactly what the messages say: a session is in it as its newest
      entry has it, if no snapshot and no clear of it came after, and as it was at the start, if no message was about
      it and there was no snapshot; no other session is. */
  lemma {:induction false} SessionsAreTold(run: Run, actions: seq<Action>, id: string, session: Session)
    ensures Knows(After(run, actions).app.sessions, id, session) <==> Told(run.app.sessions, actions, id, session)
    decreases |actions|
  {
    if actions == [] {
      assert NeverMentioned(actions, id);
    } else {
      hide Step, Mentions, NewestAt, Brings, Told;
      var n := |actions| - 1;
      SessionsAreTold(run, actions[..n], id, session);
      StepHolds(After(run, actions[..n]), actions[n], id, session);
      ToldNext(run.app.sessions, actions[..n], actions[n], id, session);
      SplitLast(actions);
    }
  }

  /** The messages tell of a session in a given state whose deepest worktree this is. */
  ghost predicate ToldOf(known: map<string, Session>, actions: seq<Action>, paths: seq<Path>, p: Path, state: AgentState) {
    exists id, session: Session ::
      Told(known, actions, id, session) && session.state == state && Deepest(paths, session.cwd, p)
  }

  lemma PathsStay(run: Run, action: Action)
    requires DistinctPaths(run.app.worktrees)
    ensures Paths(Step(run, action).app.worktrees) == Paths(run.app.worktrees)
  {
    if action.Receive? {
      SamePaths(Prepared(run.app, action.message), AllowsTransitions(action.message));
      hide Reconciled, MessageRequests;
    } else if action.EndRefresh? {
      if RefreshEnds(run, action.listing) {
        var replaced := Replaced(run.app, run.refresh.value.copies, action.listing);
        EqualPathsDistinct(run.app.worktrees, replaced.worktrees);
        SamePaths(replaced, false);
      }
      hide Reconciled;
    } else {
      JobStepsDisturbNothing(run, action);
    }
  }

  lemma {:induction false} PathsStayOver(run: Run, actions: seq<Action>)
    requires Initial(run)
    ensures Paths(After(run, actions).app.worktrees) == Paths(run.app.worktrees)
    decreases |actions|
  {
    hide Step, Paths, EpochInv;
    if actions != [] {
      PathsStayOver(run, actions[..|actions| - 1]);
      EpochInvAlways(run, actions[..|actions| - 1]);
      DistinctStill(After(run, actions[..|actions| - 1]));
      PathsStay(After(run, actions[..|actions| - 1]), actions[|actions| - 1]);
    }
  }

  lemma DistinctStill(run: Run)
    requires EpochInv(run)
    ensures DistinctPaths(run.app.worktrees)
  {
  }

  lemma HasSessionIsTold(run: Run, actions: seq<Action>, paths: seq<Path>, p: Path, state: AgentState)
    ensures HasSession(After(run, actions).app.sessions, paths, p, state)
       <==> ToldOf(run.app.sessions, actions, paths, p, state)
  {
    hide After, Told, Deepest;
    var sessions := After(run, actions).app.sessions;
    if id :| id in sessions && sessions[id].state == state && Deepest(paths, sessions[id].cwd, p) {
      SessionsAreTold(run, actions, id, sessions[id]);
    }
    if id, session: Session :|
      Told(run.app.sessions, actions, id, session) && session.state == state && Deepest(paths, session.cwd, p)
    {
      SessionsAreTold(run, actions, id, session);
    }
  }

  /** From the first message on, in every interleaving, a worktree works if the messages tell of a working session of
      its, waits if they tell of sessions and none works, and is idle if they tell of none. */
  lemma StatesFollowMessages(run: Run, actions: seq<Action>, k: nat, i: nat)
    requires Initial(run) && k < |actions| && actions[k].Receive? && i < |run.app.worktrees|
    ensures i < |After(run, actions).app.worktrees|
    ensures var known, paths, p := run.app.sessions, Paths(run.app.worktrees), run.app.worktrees[i].path;
      After(run, actions).app.worktrees[i].agentState
      == if ToldOf(known, actions, paths, p, Working) then Some(Working)
         else if ToldOf(known, actions, paths, p, Waiting) then Some(Waiting)
         else None
  {
    hide After, ToldOf, HasSession;
    StatesFollowSessions(run, actions, k);
    PathsStayOver(run, actions);
    var end, paths := After(run, actions), Paths(run.app.worktrees);
    assert |end.app.worktrees| == |Paths(end.app.worktrees)| == |run.app.worktrees|;
    assert Paths(end.app.worktrees)[i] == paths[i];
    HasSessionIsTold(run, actions, paths, run.app.worktrees[i].path, Working);
    HasSessionIsTold(run, actions, paths, run.app.worktrees[i].path, Waiting);
  }

  // ---------- which requests a message issues ----------

  /** The latest time among the sessions of a worktree, if any has one. */
  ghost predicate LatestOf(app: App, p: Path, latest: Option<nat>) {
    match latest
    case None => forall id :: id in app.sessions && Deepest(Paths(app.worktrees), app.sessions[id].cwd, p) ==>
        app.sessions[id].updatedAt.None?
    case Some(time) =>
      && (exists id :: id in app.sessions && Deepest(Paths(app.worktrees), app.sessions[id].cwd, p)
                       && app.sessions[id].updatedAt == Some(time))
      && (forall id :: (id in app.sessions && Deepest(Paths(app.worktrees), app.sessions[id].cwd, p)
                        && app.sessions[id].updatedAt.Some?) ==> app.sessions[id].updatedAt.value <= time)
  }

  /** The worktree goes from working to waiting, and this is the request for it. */
  ghost predicate Asks(app: App, i: nat, r: Request)
    requires i < |app.worktrees|
  {
    var w := app.worktrees[i];
    && w.agentState == Some(Working)
    && SpecState(app.sessions, Paths(app.worktrees), w.path) == Some(Waiting)
    && r.path == w.path
    && r.epoch == Bump(EpochOf(app.epochs, w.path))
    && LatestOf(app, w.path, r.updatedAt)
    && r.allowAutoCheckpoint == !app.outpostActive
  }

  lemma OwnedIsDeepest(app: App, p: Path)
    requires p in Paths(app.worktrees)
    ensures forall id :: id in app.sessions ==>
      (Owned(app.sessions, Paths(app.worktrees), id, p) <==> Deepest(Paths(app.worktrees), app.sessions[id].cwd, p))
  {
    hide BestMatch, Deepest;
    forall id | id in app.sessions
      ensures Owned(app.sessions, Paths(app.worktrees), id, p) <==> Deepest(Paths(app.worktrees), app.sessions[id].cwd, p)
    {
      DeepestIsBest(Paths(app.worktrees), app.sessions[id].cwd, p);
    }
  }

  lemma DerivedTimeIsLatest(app: App, p: Path, latest: Option<nat>)
    requires p in Paths(app.worktrees)
    ensures LatestOf(app, p, latest)
       <==> latest == Latest(Stamps(app.sessions, Paths(app.worktrees), app.sessions.Keys, p))
  {
    var stamps := Stamps(app.sessions, Paths(app.worktrees), app.sessions.Keys, p);
    OwnedIsDeepest(app, p);
    hide BestMatch, Latest, Deepest;
    forall id | id in app.sessions && Deepest(Paths(app.worktrees), app.sessions[id].cwd, p)
                && app.sessions[id].updatedAt.Some?
      ensures app.sessions[id].updatedAt.value in stamps
    {
    }
    assert LatestOf(app, p, latest) <==> IsLatest(stamps, latest);
    if IsLatest(stamps, latest) {
      LatestUnique(stamps, latest, Latest(stamps));
    }
  }

  lemma StepRequestsAsk(app: App, allow: bool, i: nat, r: Request)
    requires i < |app.worktrees|
    ensures RequestFor(r, app.worktrees[i], DerivedStates(app), app.epochs, allow, !app.outpostActive)
       <==> allow && Asks(app, i, r)
  {
    var w, derived := app.worktrees[i], DerivedStates(app);
    DerivedIsSpec(app, i);
    assert w.path in Paths(app.worktrees) by {
      assert Paths(app.worktrees)[i] == w.path;
    }
    DerivedTimeIsLatest(app, w.path, r.updatedAt);
    hide SpecState, LatestOf, Latest, Stamps, DerivedOver, HasOwned, HasWorking, Bump;
    assert w.path in derived ==> derived[w.path] == DerivedFor(app.sessions, Paths(app.worktrees), app.sessions.Keys, w.path);
  }

  lemma SweepRequests(app: App, allow: bool, r: Request)
    requires DistinctPaths(app.worktrees)
    ensures r in ReconcileRequests(app, allow)
       <==> exists i :: 0 <= i < |app.worktrees|
                        && RequestFor(r, app.worktrees[i], DerivedStates(app), app.epochs, allow, !app.outpostActive)
  {
    hide SweepOver, DerivedOver, StepRequests;
    var derived, requests := DerivedStates(app), ReconcileRequests(app, allow);
    SweepIsPointwise(app.worktrees, app.epochs, derived, allow, !app.outpostActive);
    if r in requests {
      var k :| 0 <= k < |requests| && requests[k] == r;
      assert FromSome(app.worktrees, app.epochs, derived, allow, !app.outpostActive, requests[k]);
    }
  }

  /** A message issues exactly the requests of the worktrees that go from working to waiting by it, if it is an update,
      and none otherwise; each carries the epoch just reached, the latest time of the worktree's sessions, and whether
      no outpost is active. */
  lemma RequestsExactly(app: App, message: Message, r: Request)
    requires DistinctPaths(app.worktrees)
    ensures r in MessageRequests(app, message)
       <==> message.Update? && exists i :: 0 <= i < |app.worktrees| && Asks(Prepared(app, message), i, r)
  {
    hide ReconcileRequests, RequestFor, DerivedStates, Asks;
    var ready, allow := Prepared(app, message), AllowsTransitions(message);
    SweepRequests(ready, allow, r);
    forall i | 0 <= i < |ready.worktrees|
      ensures RequestFor(r, ready.worktrees[i], DerivedStates(ready), ready.epochs, allow, !ready.outpostActive)
         <==> allow && Asks(ready, i, r)
    {
      StepRequestsAsk(ready, allow, i, r);
    }
  }
}
