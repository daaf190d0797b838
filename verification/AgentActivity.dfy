/** Agent activity in the window: session messages drive a session map, and reconciliation derives every
    worktree's state from it, bumps the worktree's epoch on each change and asks for background work when
    an agent stops working. */
module AgentActivity {
  import opened Wrappers

  const U64_MAX: nat := 0xFFFF_FFFF_FFFF_FFFF

  /** Absolute paths as their components. */
  type Component = name: string | name != "" witness "a"
  type Path = seq<Component>

  datatype AgentState = Working | Waiting

  datatype Session = Session(cwd: Path, state: AgentState, updatedAt: Option<nat>)

  datatype Entry = Entry(sessionId: string, session: Session)

  datatype DiffSummary = DiffSummary(additions: nat, deletions: nat)
  datatype Divergence = Divergence(ahead: nat, behind: nat)

  datatype Turn = Turn(timestamp: Option<nat>, summary: Option<DiffSummary>)

  datatype Worktree = Worktree(
    path: Path,
    agentState: Option<AgentState>,
    lastActivity: Option<nat>,
    recentTurns: seq<Turn>,
    stuckTurnCount: nat,
    diffSummary: Option<DiffSummary>,
    branchDivergence: Option<Divergence>)

  /** Work to do because an agent went from working to waiting. */
  datatype Request = Request(path: Path, updatedAt: Option<nat>, epoch: nat, allowAutoCheckpoint: bool)

  /** What the window and its background jobs share. */
  datatype App = App(
    worktrees: seq<Worktree>,
    sessions: map<string, Session>,
    epochs: map<Path, nat>,
    inFlight: set<Path>,
    outpostActive: bool)

  function Paths(worktrees: seq<Worktree>): (paths: seq<Path>)
    ensures |paths| == |worktrees|
    ensures forall i :: 0 <= i < |worktrees| ==> paths[i] == worktrees[i].path
  {
    seq(|worktrees|, i requires 0 <= i < |worktrees| => worktrees[i].path)
  }

  predicate DistinctPaths(worktrees: seq<Worktree>) {
    forall i, j :: 0 <= i < j < |worktrees| ==> worktrees[i].path != worktrees[j].path
  }

  // ---------- which worktree a session belongs to ----------

  /** Length of a path as written, separators included. */
  function OsLen(path: Path): nat {
    if path == [] then 1
    else if |path| == 1 then 1 + |path[0]|
    else OsLen(path[..|path| - 1]) + 1 + |path[|path| - 1]|
  }

  lemma {:induction false} DeeperIsLonger(p: Path, q: Path)
    requires p <= q && p != q
    ensures OsLen(p) < OsLen(q)
    decreases |q|
  {
    var n := |q| - 1;
    if n > 0 && p != q[..n] {
      DeeperIsLonger(p, q[..n]);
    }
  }

  /** Among the worktrees containing `cwd`, the one with the longest path; the last one if several tie. */
  function BestMatch(paths: seq<Path>, cwd: Path): Option<Path> {
    if paths == [] then None
    else
      var best, last := BestMatch(paths[..|paths| - 1], cwd), paths[|paths| - 1];
      if !(last <= cwd) then best
      else if best.Some? && OsLen(best.value) > OsLen(last) then best
      else Some(last)
  }

  /** p contains cwd, and every worktree that contains cwd contains p. */
  predicate Deepest(paths: seq<Path>, cwd: Path, p: Path) {
    p in paths && p <= cwd && forall q :: q in paths && q <= cwd ==> q <= p
  }

  lemma PrefixesNest(p: Path, q: Path, cwd: Path)
    requires p <= cwd && q <= cwd
    ensures if |p| <= |q| then p <= q else q <= p
  {
    assert p == cwd[..|p|] && q == cwd[..|q|];
  }

  /** Matching by longest text finds exactly the deepest worktree that contains the directory. */
  lemma {:induction false} BestMatchIsDeepest(paths: seq<Path>, cwd: Path)
    ensures match BestMatch(paths, cwd)
            case Some(p) => Deepest(paths, cwd, p)
            case None => forall q :: q in paths ==> !(q <= cwd)
    decreases |paths|
  {
    if paths != [] {
      var n := |paths| - 1;
      var last := paths[n];
      BestMatchIsDeepest(paths[..n], cwd);
      assert forall q :: q in paths <==> q in paths[..n] || q == last;
      if last <= cwd {
        var best := BestMatch(paths[..n], cwd);
        if best.Some? {
          DeeperPick(best.value, last, cwd);
        }
      }
    }
  }

  /** Of two containing worktrees the one with the longer text is the deeper one. */
  lemma DeeperPick(p: Path, q: Path, cwd: Path)
    requires p <= cwd && q <= cwd
    ensures if OsLen(p) > OsLen(q) then q <= p else p <= q
  {
    PrefixesNest(p, q, cwd);
    if p != q {
      if p <= q {
        DeeperIsLonger(p, q);
      } else {
        DeeperIsLonger(q, p);
      }
    }
  }

  lemma DeepestIsBest(paths: seq<Path>, cwd: Path, p: Path)
    ensures BestMatch(paths, cwd) == Some(p) <==> Deepest(paths, cwd, p)
  {
    BestMatchIsDeepest(paths, cwd);
    var best := BestMatch(paths, cwd);
    if best.Some? && Deepest(paths, cwd, p) {
      assert best.value <= p && p <= best.value;
      assert best.value == p;
    }
  }

  // ---------- what a worktree's sessions add up to ----------

  datatype Derived = Derived(state: AgentState, updatedAt: Option<nat>)

  function MergeStatus(current: AgentState, next: AgentState): AgentState {
    if current == Working || next == Working then Working else Waiting
  }

  function MergeTimestamp(current: Option<nat>, next: Option<nat>): Option<nat> {
    match (current, next)
    case (Some(left), Some(right)) => Some(Max(left, right))
    case (Some(left), None) => current
    case (None, _) => next
  }

  predicate Owned(sessions: map<string, Session>, paths: seq<Path>, id: string, p: Path) {
    id in sessions && BestMatch(paths, sessions[id].cwd) == Some(p)
  }

  ghost predicate HasOwned(sessions: map<string, Session>, paths: seq<Path>, ids: set<string>, p: Path) {
    exists id :: id in ids && Owned(sessions, paths, id, p)
  }

  ghost predicate HasWorking(sessions: map<string, Session>, paths: seq<Path>, ids: set<string>, p: Path) {
    exists id :: id in ids && Owned(sessions, paths, id, p) && sessions[id].state == Working
  }

  ghost function Stamps(sessions: map<string, Session>, paths: seq<Path>, ids: set<string>, p: Path): set<nat> {
    set id | id in ids && Owned(sessions, paths, id, p) && sessions[id].updatedAt.Some? :: sessions[id].updatedAt.value
  }

  predicate IsLatest(stamps: set<nat>, latest: Option<nat>) {
    match latest
    case None => stamps == {}
    case Some(t) => t in stamps && forall x :: x in stamps ==> x <= t
  }

  ghost function Latest(stamps: set<nat>): (latest: Option<nat>)
    ensures IsLatest(stamps, latest)
  {
    if stamps == {} then None
    else
      var x :| x in stamps;
      var rest := Latest(stamps - {x});
      assert forall y :: y in stamps <==> y == x || y in stamps - {x};
      Some(if rest.None? then x else Max(x, rest.value))
  }

  /** The state and time stamp of a worktree under the given sessions: working if one of them works, with the
      latest of their stamps, in whatever order they are listed. */
  ghost function DerivedFor(sessions: map<string, Session>, paths: seq<Path>, ids: set<string>, p: Path): Derived {
    Derived(if HasWorking(sessions, paths, ids, p) then Working else Waiting, Latest(Stamps(sessions, paths, ids, p)))
  }

  ghost function DerivedOver(sessions: map<string, Session>, paths: seq<Path>, ids: set<string>): (derived: map<Path, Derived>)
    ensures forall p :: p in derived <==> p in paths && HasOwned(sessions, paths, ids, p)
    ensures forall p :: p in derived ==> derived[p] == DerivedFor(sessions, paths, ids, p)
  {
    map p | p in paths && HasOwned(sessions, paths, ids, p) :: DerivedFor(sessions, paths, ids, p)
  }

  lemma LatestUnique(stamps: set<nat>, a: Option<nat>, b: Option<nat>)
    requires IsLatest(stamps, a) && IsLatest(stamps, b)
    ensures a == b
  {
  }

  lemma LatestAdd(stamps: set<nat>, t: nat)
    ensures Latest(stamps + {t}) == MergeTimestamp(Latest(stamps), Some(t))
  {
    hide Latest;
    LatestUnique(stamps + {t}, Latest(stamps + {t}), MergeTimestamp(Latest(stamps), Some(t)));
  }

  /** Taking one more session into account, whichever it is. */
  lemma DerivedAdd(sessions: map<string, Session>, paths: seq<Path>, ids: set<string>, id: string, p: Path)
    requires id in sessions && id !in ids
    ensures var s := sessions[id];
      && (!Owned(sessions, paths, id, p) ==>
            && (HasOwned(sessions, paths, ids + {id}, p) <==> HasOwned(sessions, paths, ids, p))
            && DerivedFor(sessions, paths, ids + {id}, p) == DerivedFor(sessions, paths, ids, p))
      && (Owned(sessions, paths, id, p) ==>
            && HasOwned(sessions, paths, ids + {id}, p)
            && DerivedFor(sessions, paths, ids + {id}, p)
               == if HasOwned(sessions, paths, ids, p) then
                    var d := DerivedFor(sessions, paths, ids, p);
                    Derived(MergeStatus(d.state, s.state), MergeTimestamp(d.updatedAt, s.updatedAt))
                  else Derived(s.state, s.updatedAt))
  {
    hide BestMatch, Latest;
    StampsAdd(sessions, paths, ids, id, p);
    if Owned(sessions, paths, id, p) {
      if sessions[id].updatedAt.Some? {
        LatestAdd(Stamps(sessions, paths, ids, p), sessions[id].updatedAt.value);
      }
      if !HasOwned(sessions, paths, ids, p) {
        assert Stamps(sessions, paths, ids, p) == {};
      }
    }
  }

  lemma StampsAdd(sessions: map<string, Session>, paths: seq<Path>, ids: set<string>, id: string, p: Path)
    requires id in sessions && id !in ids
    ensures Stamps(sessions, paths, ids + {id}, p)
         == Stamps(sessions, paths, ids, p)
            + if Owned(sessions, paths, id, p) && sessions[id].updatedAt.Some? then {sessions[id].updatedAt.value} else {}
  {
    hide BestMatch;
  }

  /** The grouping loop of reconciliation. The map is walked in no particular order. */
  method DeriveStates(sessions: map<string, Session>, paths: seq<Path>) returns (derived: map<Path, Derived>)
    ensures derived == DerivedOver(sessions, paths, sessions.Keys)
  {
    derived := map[];
    var remaining := sessions.Keys;
    ghost var done: set<string> := {};
    hide DerivedFor, HasOwned;
    NothingDerived(sessions, paths);
    while remaining != {}
      invariant done + remaining == sessions.Keys && done !! remaining
      invariant derived == DerivedOver(sessions, paths, done)
      decreases remaining
    {
      var id :| id in remaining;
      var session := sessions[id];
      ghost var before := derived;
      var best := BestMatch(paths, session.cwd);
      BestMatchIsDeepest(paths, session.cwd);
      if best.Some? {
        var p := best.value;
        var entry := if p in derived then derived[p] else Derived(session.state, session.updatedAt);
        derived := derived[p := Derived(MergeStatus(entry.state, session.state),
                                        MergeTimestamp(entry.updatedAt, session.updatedAt))];
      }
      forall p
        ensures p in derived <==> p in DerivedOver(sessions, paths, done + {id})
        ensures p in derived ==> derived[p] == DerivedOver(sessions, paths, done + {id})[p]
      {
        DerivedAdd(sessions, paths, done, id, p);
      }
      remaining, done := remaining - {id}, done + {id};
    }
    assert done == sessions.Keys;
  }

  lemma NothingDerived(sessions: map<string, Session>, paths: seq<Path>)
    ensures DerivedOver(sessions, paths, {}) == map[]
  {
  }
}
