/** The latest connection attempt wins: every interleaving of connection requests and of what they started. */
module DaemonRuns {
  import opened Wrappers
  import opened DaemonConnection

  /** `tasks` holds what is still under way, by the number of the attempt it belongs to. `answered` records
      that the connection that last set the base URL has since had its answer, or failed at once. */
  datatype Run = Run(link: Link, attempts: nat, tasks: map<nat, Task>, answered: bool)

  datatype Action =
    | Ssh(destination: string, hostLabel: Option<string>, sshKey: string)
    | Host(url: string, hostLabel: Option<string>, authKey: Option<string>, creation: Option<string>)
    | RemoteCreate(url: string, hostname: string, repoRoot: string, creation: Option<string>)
    | EndTunnel(attempt: nat, tunnelled: TunnelResult)
    | EndProbe(attempt: nat, ready: bool, creation: Option<string>)
    | EndListing(attempt: nat, listed: ListResult)

  function Started(run: Run, next: Next, answered: bool): Run {
    var number := run.attempts + 1;
    Run(next.link, number, if next.task.Some? then run.tasks[number := next.task.value] else run.tasks, answered)
  }

  function Continued(run: Run, number: nat, next: Next, answered: bool): Run {
    Run(next.link, run.attempts,
        if next.task.Some? then run.tasks[number := next.task.value] else run.tasks - {number}, answered)
  }

  function Step(run: Run, action: Action): Run {
    match action
    case Ssh(destination, hostLabel, key) =>
      Started(run, ConnectSsh(run.link, destination, hostLabel, key), run.answered)
    case Host(url, hostLabel, authKey, creation) =>
      var next := Connect(run.link.(tunnel := None), Endpoint(url, hostLabel, authKey, None, false), None, creation);
      Started(run, next, next.task.None?)
    case RemoteCreate(url, hostname, repoRoot, creation) =>
      var next := Connect(run.link.(pendingRepoRoot := Some(repoRoot)),
                          Endpoint(url, Some(hostname), None, Some(repoRoot), false), None, creation);
      Started(run, next, next.task.None?)
    case EndTunnel(number, result) =>
      if number in run.tasks && run.tasks[number].Tunnelling?
      then Continued(run, number, TunnelDone(run.link, run.tasks[number], result), run.answered)
      else run
    case EndProbe(number, ready, creation) =>
      if number in run.tasks && run.tasks[number].Probing? then
        var next := ProbeDone(run.link, run.tasks[number], ready, creation);
        Continued(run, number, next, if Heeded(run, number) && ready then next.task.None? else run.answered)
      else run
    case EndListing(number, result) =>
      if number in run.tasks && run.tasks[number].Listing?
      then Continued(run, number, Next(ListDone(run.link, run.tasks[number], result), None),
                     run.answered || Heeded(run, number))
      else run
  }

  function After(run: Run, actions: seq<Action>): Run {
    if actions == [] then run else Step(After(run, actions[..|actions| - 1]), actions[|actions| - 1])
  }

  /** At start-up a client, if there is one, is a client of the base URL. */
  predicate Initial(run: Run) {
    && run.link.epoch == run.attempts == 0 && run.tasks == map[] && run.answered
    && run.link.hostLabel.None? && InStep(run.link)
  }

  /** The epoch check made by the completions of an attempt. */
  predicate Heeded(run: Run, number: nat)
    requires number in run.tasks
  {
    run.link.epoch == run.tasks[number].epoch
  }

  predicate InStep(link: Link) {
    link.client.Some? ==> link.client.value.url == link.baseUrl
  }

  // ---------- what every run keeps ----------

  /** The client a task holds is a client of its endpoint, with the token stored for it; only the endpoint
      behind a tunnel asks for the tunnel to be stopped. */
  predicate WellMade(link: Link, task: Task) {
    task.Listing? ==>
      task.tokenKey == task.endpoint.authKey.GetOr(task.endpoint.url)
      && task.client == ClientFor(link.tokens, task.endpoint.url, task.tokenKey)
  }

  /** The latest attempt's task agrees with the window: the tunnel it opened is the open one, and the endpoint
      it queries is the base URL, and the repository it is to create in is the pending one. */
  predicate InForce(link: Link, task: Task) {
    match task
    case Tunnelling(_, _, _) => link.tunnel.None?
    case Probing(_, tunnel, _, _) => link.tunnel == Some(tunnel)
    case Listing(_, _, endpoint, _) =>
      && link.baseUrl == endpoint.url
      && (endpoint.stopTunnelOnFailure ==> link.tunnel == Some(Tunnel(endpoint.url)))
      && (endpoint.repoRoot.Some? ==> link.pendingRepoRoot == endpoint.repoRoot)
  }

  ghost predicate RunInv(run: Run) {
    && run.link.epoch == run.attempts % EPOCHS
    && (forall n <- run.tasks :: 1 <= n <= run.attempts && run.tasks[n].epoch == n % EPOCHS)
    && (forall n <- run.tasks :: WellMade(run.link, run.tasks[n]))
    && (run.link.client.None? ==> run.link.hostLabel.None?)
    && (run.attempts < EPOCHS && run.attempts in run.tasks ==> InForce(run.link, run.tasks[run.attempts]))
    && (run.attempts < EPOCHS && run.answered ==> InStep(run.link))
  }

  lemma EpochsMeet(attempts: nat, number: nat)
    requires number <= attempts
    ensures attempts % EPOCHS == number % EPOCHS <==> (attempts - number) % EPOCHS == 0
  {
    var a, b := attempts / EPOCHS, number / EPOCHS;
    assert attempts == a * EPOCHS + attempts % EPOCHS && number == b * EPOCHS + number % EPOCHS;
    var gap := attempts - number;
    assert gap == (gap / EPOCHS) * EPOCHS + gap % EPOCHS;
  }

  lemma NextEpochCounts(attempts: nat)
    ensures NextEpoch(attempts % EPOCHS) == (attempts + 1) % EPOCHS
  {
  }

  lemma HeededIf(run: Run, number: nat)
    requires RunInv(run) && number in run.tasks
    ensures Heeded(run, number) <==> (run.attempts - number) % EPOCHS == 0
    ensures run.attempts < EPOCHS ==> (Heeded(run, number) <==> number == run.attempts)
  {
    EpochsMeet(run.attempts, number);
  }

  lemma StartedKeepsRunInv(run: Run, next: Next, answered: bool)
    requires RunInv(run)
    requires next.link.epoch == NextEpoch(run.link.epoch) && next.link.tokens == run.link.tokens
    requires next.link.client.None? ==> next.link.hostLabel.None?
    requires next.task.Some? ==> next.task.value.epoch == next.link.epoch
    requires next.task.Some? ==> WellMade(next.link, next.task.value) && InForce(next.link, next.task.value)
    requires run.attempts + 1 < EPOCHS && answered ==> InStep(next.link)
    ensures RunInv(Started(run, next, answered))
  {
    hide InStep, InForce, NextEpoch;
    NextEpochCounts(run.attempts);
  }

  lemma ContinuedKeepsRunInv(run: Run, number: nat, next: Next, answered: bool)
    requires RunInv(run) && number in run.tasks
    requires next.link.epoch == run.link.epoch && next.link.tokens == run.link.tokens
    requires next.link.client.None? ==> next.link.hostLabel.None?
    requires next.task.Some? ==> next.task.value.epoch == run.tasks[number].epoch && WellMade(next.link, next.task.value)
    requires !Heeded(run, number) ==> next == Next(run.link, None)
    requires Heeded(run, number) && next.task.Some? && run.attempts < EPOCHS ==> InForce(next.link, next.task.value)
    requires run.attempts < EPOCHS && answered ==> InStep(next.link)
    ensures RunInv(Continued(run, number, next, answered))
  {
    hide InStep, InForce;
    HeededIf(run, number);
  }

  /** What a step needs from the invariant: the facts that are not about other tasks. */
  lemma RunFacts(run: Run)
    requires RunInv(run)
    ensures run.link.client.None? ==> run.link.hostLabel.None?
    ensures run.attempts < EPOCHS && run.answered ==> InStep(run.link)
  {
  }

  lemma TaskFacts(run: Run, number: nat)
    requires RunInv(run) && number in run.tasks
    ensures WellMade(run.link, run.tasks[number])
    ensures run.attempts < EPOCHS && Heeded(run, number) ==> InForce(run.link, run.tasks[number])
  {
    HeededIf(run, number);
  }

  lemma StartKeepsRunInv(run: Run, action: Action)
    requires RunInv(run)
    requires action.Ssh? || action.Host? || action.RemoteCreate?
    ensures RunInv(Step(run, action))
  {
    hide RunInv, NextEpoch;
    RunFacts(run);
    match action
    case Ssh(destination, hostLabel, key) =>
      StartedKeepsRunInv(run, ConnectSsh(run.link, destination, hostLabel, key), run.answered);
    case Host(url, hostLabel, authKey, creation) =>
      var next := Connect(run.link.(tunnel := None), Endpoint(url, hostLabel, authKey, None, false), None, creation);
      StartedKeepsRunInv(run, next, next.task.None?);
    case RemoteCreate(url, hostname, repoRoot, creation) =>
      var next := Connect(run.link.(pendingRepoRoot := Some(repoRoot)),
                          Endpoint(url, Some(hostname), None, Some(repoRoot), false), None, creation);
      StartedKeepsRunInv(run, next, next.task.None?);
  }

  lemma EndTunnelKeepsRunInv(run: Run, number: nat, result: TunnelResult)
    requires RunInv(run) && number in run.tasks && run.tasks[number].Tunnelling?
    ensures RunInv(Step(run, EndTunnel(number, result)))
  {
    hide RunInv;
    RunFacts(run);
    TaskFacts(run, number);
    ContinuedKeepsRunInv(run, number, TunnelDone(run.link, run.tasks[number], result), run.answered);
  }

  lemma EndProbeKeepsRunInv(run: Run, number: nat, ready: bool, creation: Option<string>)
    requires RunInv(run) && number in run.tasks && run.tasks[number].Probing?
    ensures RunInv(Step(run, EndProbe(number, ready, creation)))
  {
    hide RunInv;
    RunFacts(run);
    TaskFacts(run, number);
    var next := ProbeDone(run.link, run.tasks[number], ready, creation);
    ContinuedKeepsRunInv(run, number, next, if Heeded(run, number) && ready then next.task.None? else run.answered);
  }

  lemma EndListingKeepsRunInv(run: Run, number: nat, result: ListResult)
    requires RunInv(run) && number in run.tasks && run.tasks[number].Listing?
    ensures RunInv(Step(run, EndListing(number, result)))
  {
    hide RunInv, Contains;
    RunFacts(run);
    TaskFacts(run, number);
    ContinuedKeepsRunInv(run, number, Next(ListDone(run.link, run.tasks[number], result), None),
                         run.answered || Heeded(run, number));
  }

  lemma StepKeepsRunInv(run: Run, action: Action)
    requires RunInv(run)
    ensures RunInv(Step(run, action))
  {
    match action
    case EndTunnel(number, result) =>
      if number in run.tasks && run.tasks[number].Tunnelling? { EndTunnelKeepsRunInv(run, number, result); }
    case EndProbe(number, ready, creation) =>
      if number in run.tasks && run.tasks[number].Probing? { EndProbeKeepsRunInv(run, number, ready, creation); }
    case EndListing(number, result) =>
      if number in run.tasks && run.tasks[number].Listing? { EndListingKeepsRunInv(run, number, result); }
    case _ =>
      hide RunInv;
      StartKeepsRunInv(run, action);
  }

  lemma {:induction false} RunInvAlways(start: Run, actions: seq<Action>)
    requires Initial(start)
    ensures RunInv(After(start, actions))
    decreases |actions|
  {
    hide Step;
    if actions != [] {
      RunInvAlways(start, actions[..|actions| - 1]);
      StepKeepsRunInv(After(start, actions[..|actions| - 1]), actions[|actions| - 1]);
    }
  }

  // ---------- the latest attempt wins ----------

  /** In every interleaving a completion is heeded exactly if the attempts made since its own are a multiple of
      2^64; while fewer than 2^64 have been made, only the latest attempt's completions are heeded. */
  lemma HeededExactly(start: Run, actions: seq<Action>, number: nat)
    requires Initial(start) && number in After(start, actions).tasks
    ensures var run := After(start, actions);
      && (Heeded(run, number) <==> (run.attempts - number) % EPOCHS == 0)
      && (run.attempts < EPOCHS ==> (Heeded(run, number) <==> number == run.attempts))
  {
    RunInvAlways(start, actions);
    HeededIf(After(start, actions), number);
  }

  /** The completion of a given attempt's task. */
  predicate Completes(action: Action, number: nat) {
    match action
    case EndTunnel(n, _) => n == number
    case EndProbe(n, _, _) => n == number
    case EndListing(n, _) => n == number
    case _ => false
  }

  /** In every run of fewer than 2^64 attempts, whatever a superseded attempt's work ends with, the window is
      left as it is and nothing more is started for that attempt. */
  lemma SupersededWritesNothing(start: Run, actions: seq<Action>, action: Action, number: nat)
    requires Initial(start)
    requires var run := After(start, actions);
      run.attempts < EPOCHS && number in run.tasks && number != run.attempts
    requires Completes(action, number)
    ensures var run := After(start, actions);
      var next := Step(run, action);
      next.link == run.link && next.attempts == run.attempts
      && (next.tasks == run.tasks || next.tasks == run.tasks - {number})
  {
    RunInvAlways(start, actions);
    HeededIf(After(start, actions), number);
  }

  /** The outcome of the listing that ends the latest attempt: the client installed is one for the base URL with
      the token stored under the key that will be asked for, reached through the open tunnel if there is one to
      stop; on any other refusal there is no client, no label, and no tunnel of the attempt's. */
  lemma InstalledClientIsCurrent(start: Run, actions: seq<Action>, result: ListResult)
    requires Initial(start)
    requires var run := After(start, actions);
      run.attempts < EPOCHS && run.attempts in run.tasks && run.tasks[run.attempts].Listing?
    ensures var run := After(start, actions);
      var task, link := run.tasks[run.attempts], Step(run, EndListing(run.attempts, result)).link;
      && link.baseUrl == run.link.baseUrl
      && if result.Listed? || (Contains(result.error, "status 401") && !Contains(result.error, "status 403")) then
           && link.client == Some(ClientFor(link.tokens, link.baseUrl, task.endpoint.authKey.GetOr(link.baseUrl)))
           && link.hostLabel == task.endpoint.hostLabel
           && link.prompt == (if result.Listed? then run.link.prompt
                              else Some(task.endpoint.authKey.GetOr(link.baseUrl)))
           && link.createDialogFor == (if result.Listed? && task.endpoint.repoRoot.Some? then run.link.pendingRepoRoot
                                       else run.link.createDialogFor)
           && link.pendingRepoRoot == (if result.Refused? then task.endpoint.repoRoot
                                       else if task.endpoint.repoRoot.Some? then None else run.link.pendingRepoRoot)
           && link.tunnel == run.link.tunnel
           && (task.endpoint.stopTunnelOnFailure ==> link.tunnel == Some(Tunnel(link.baseUrl)))
         else
           && link.client.None? && link.hostLabel.None? && link.notice.Some?
           && link.createDialogFor == run.link.createDialogFor && link.pendingRepoRoot == run.link.pendingRepoRoot
           && link.tunnel == if task.endpoint.stopTunnelOnFailure then None else run.link.tunnel
  {
    RunInvAlways(start, actions);
    var run := After(start, actions);
    HeededIf(run, run.attempts);
  }

  /** What was to be reached through a tunnel. */
  predicate ViaTunnel(task: Task) {
    task.Listing? ==> task.endpoint.stopTunnelOnFailure
  }

  /** The endpoint answered, or only lacks a token. */
  predicate Connects(action: Action) {
    action.EndListing? &&
      (action.listed.Listed?
       || (Contains(action.listed.error, "status 401") && !Contains(action.listed.error, "status 403")))
  }

  /** When the latest attempt ends that went through a tunnel, the tunnel is left exactly if the attempt connected or
      no client could be made for the tunnel's own address; if it did not connect, a notice says so. */
  lemma TunnelLeftExactly(start: Run, actions: seq<Action>, action: Action)
    requires Initial(start)
    requires var run := After(start, actions);
      run.attempts < EPOCHS && run.attempts in run.tasks && ViaTunnel(run.tasks[run.attempts])
    requires var run := After(start, actions);
      Completes(action, run.attempts) && run.attempts !in Step(run, action).tasks
    ensures var link := Step(After(start, actions), action).link;
      && (link.tunnel.Some? <==> Connects(action) || (action.EndProbe? && action.ready))
      && (!Connects(action) ==> link.notice.Some?)
  {
    var run := After(start, actions);
    RunInvAlways(start, actions);
    TaskFacts(run, run.attempts);
    HeededIf(run, run.attempts);
    hide RunInv, After, Contains;
  }

  /** Whichever step changes the client, it removes it or puts in a client of the base URL. */
  lemma ClientsComeFromTheBaseUrl(start: Run, actions: seq<Action>, action: Action)
    requires Initial(start)
    requires After(start, actions).attempts < EPOCHS
    ensures var run := After(start, actions);
      var next := Step(run, action);
      next.link.client != run.link.client ==> InStep(next.link)
  {
    var run := After(start, actions);
    RunInvAlways(start, actions);
    hide *;
    StepInstalls(run, action);
  }

  lemma StepInstalls(run: Run, action: Action)
    requires RunInv(run) && run.attempts < EPOCHS
    ensures var next := Step(run, action); next.link.client != run.link.client ==> InStep(next.link)
  {
    hide RunInv, Contains, NextEpoch;
    match action
    case EndListing(number, result) =>
      hide Connect;
      if number in run.tasks { TaskFacts(run, number); }
    case EndProbe(number, ready, creation) => hide ListDone;
    case _ => hide ListDone;
  }

  // ---------- when the client is one of the base URL ----------

  predicate HeedsProbe(run: Run, number: nat, ready: bool) {
    number in run.tasks && run.tasks[number].Probing? && Heeded(run, number) && ready
  }

  /** A connection that gets as far as asking the endpoint: the base URL moves, the client stays. */
  predicate Repoints(run: Run, action: Action) {
    match action
    case Host(_, _, _, creation) => creation.None?
    case RemoteCreate(_, _, _, creation) => creation.None?
    case EndProbe(number, ready, creation) => HeedsProbe(run, number, ready) && creation.None?
    case _ => false
  }

  function NewUrl(run: Run, action: Action): string
    requires Repoints(run, action)
  {
    match action
    case Host(url, _, _, _) => url
    case RemoteCreate(url, _, _, _) => url
    case EndProbe(number, _, _) => run.tasks[number].tunnel.localUrl
  }

  /** A connection that is answered or fails: the client is replaced or removed. */
  predicate Settles(run: Run, action: Action) {
    match action
    case Ssh(_, _, _) => false
    case Host(_, _, _, creation) => creation.Some?
    case RemoteCreate(_, _, _, creation) => creation.Some?
    case EndTunnel(number, tunnelled) =>
      number in run.tasks && run.tasks[number].Tunnelling? && Heeded(run, number) && tunnelled.NotOpened?
    case EndProbe(number, ready, creation) => HeedsProbe(run, number, ready) && creation.Some?
    case EndListing(number, _) => number in run.tasks && run.tasks[number].Listing? && Heeded(run, number)
  }

  /** The base URL moves away from the client's. */
  predicate Strays(run: Run, action: Action) {
    Repoints(run, action) && run.link.client.Some? && run.link.client.value.url != NewUrl(run, action)
  }

  /** The client is settled, or the base URL moves to the client's own. */
  predicate Mends(run: Run, action: Action) {
    Settles(run, action) || (Repoints(run, action) && !Strays(run, action))
  }

  lemma StepInStep(run: Run, action: Action)
    requires RunInv(run) && run.attempts < EPOCHS
    ensures InStep(Step(run, action).link) <==> Mends(run, action) || (InStep(run.link) && !Strays(run, action))
  {
    hide RunInv, Contains, NextEpoch;
    match action
    case EndListing(number, result) =>
      hide Connect;
      if number in run.tasks { TaskFacts(run, number); }
    case EndProbe(number, ready, creation) => hide ListDone;
    case EndTunnel(number, result) => hide Connect, ListDone;
    case _ => hide ListDone;
  }

  /** In every interleaving of fewer than 2^64 attempts, a step leaves the client one of the base URL exactly if
      it mends, or finds it so and does not stray. */
  lemma StepInStepExactly(start: Run, actions: seq<Action>, action: Action)
    requires Initial(start) && After(start, actions).attempts < EPOCHS
    ensures var run := After(start, actions);
      InStep(Step(run, action).link) <==> Mends(run, action) || (InStep(run.link) && !Strays(run, action))
  {
    hide *;
    RunInvAlways(start, actions);
    StepInStep(After(start, actions), action);
  }

  predicate StraysAt(start: Run, actions: seq<Action>, k: nat) {
    k < |actions| && Strays(After(start, actions[..k]), actions[k])
  }

  predicate MendsAt(start: Run, actions: seq<Action>, k: nat) {
    k < |actions| && Mends(After(start, actions[..k]), actions[k])
  }

  ghost predicate MendedAfter(start: Run, actions: seq<Action>, k: nat) {
    exists l: nat :: k < l && MendsAt(start, actions, l)
  }

  /** In every interleaving of fewer than 2^64 attempts, the client is one of the base URL exactly if every step
      that moved the URL away from it has since been mended. */
  lemma {:induction false} InStepExactly(start: Run, actions: seq<Action>)
    requires Initial(start) && After(start, actions).attempts < EPOCHS
    ensures InStep(After(start, actions).link)
       <==> forall k: nat :: StraysAt(start, actions, k) ==> MendedAfter(start, actions, k)
    decreases |actions|
  {
    hide Step, InStep, Mends, Strays;
    if actions == [] {
      StartsInStep(start);
    } else {
      var n := |actions| - 1;
      var earlier, action := actions[..n], actions[n];
      AttemptsGrow(After(start, earlier), action);
      InStepExactly(start, earlier);
      StepInStepExactly(start, earlier, action);
      StraysOrMends(After(start, earlier), action);
      assert forall k: nat :: k < n ==> earlier[..k] == actions[..k] && earlier[k] == actions[k];
      hide After;
      if Mends(After(start, earlier), action) {
        assert MendsAt(start, actions, n);
      } else {
        forall k: nat
          ensures MendedAfter(start, actions, k) <==> MendedAfter(start, earlier, k)
        {
          assert forall l: nat :: MendsAt(start, actions, l) <==> MendsAt(start, earlier, l);
        }
        assert forall k: nat :: (StraysAt(start, actions, k)
          <==> StraysAt(start, earlier, k) || (k == n && Strays(After(start, earlier), action)));
        assert !MendedAfter(start, earlier, n);
      }
    }
  }

  lemma StartsInStep(start: Run)
    requires Initial(start)
    ensures InStep(After(start, []).link)
  {
  }

  lemma AttemptsGrow(run: Run, action: Action)
    ensures run.attempts <= Step(run, action).attempts
  {
    hide Connect, ConnectSsh, TunnelDone, ProbeDone, ListDone;
  }

  lemma StraysOrMends(run: Run, action: Action)
    ensures !(Strays(run, action) && Mends(run, action))
  {
  }

  /** Once the connection that last set the base URL has its answer, the client stays in step with that URL
      until the next connection moves it, whatever superseded work still ends. */
  lemma AnsweredMeansInStep(start: Run, actions: seq<Action>)
    requires Initial(start)
    requires var run := After(start, actions); run.attempts < EPOCHS && run.answered
    ensures InStep(After(start, actions).link)
  {
    RunInvAlways(start, actions);
  }

  // ---------- where it stops ----------

  /** An SSH attempt that times out while an earlier connection was still waiting for its answer leaves the
      client of the connection before that, although the base URL has moved on and nothing is under way. */
  lemma SilencedConnectionLeavesOldClient(oldUrl: string, newUrl: string, destination: string, tunnel: Tunnel)
    requires oldUrl != newUrl
    ensures exists start, actions :: Initial(start) && LeftBehind(After(start, actions), oldUrl, newUrl)
  {
    hide After, Step, LeftBehind;
    var link := Link(0, oldUrl, Some(Client(oldUrl, None)), None, None, None, None, None, None, map[]);
    var start := Run(link, 0, map[], true);
    var a1 := [] + [Host(newUrl, None, None, None)];
    var a2 := a1 + [Ssh(destination, None, destination)];
    var a3 := a2 + [EndListing(1, Listed)];
    var a4 := a3 + [EndTunnel(2, Opened(tunnel))];
    var a5 := a4 + [EndProbe(2, false, None)];
    AfterNone(start);
    AfterNext(start, [], Host(newUrl, None, None, None));
    AfterNext(start, a1, Ssh(destination, None, destination));
    AfterNext(start, a2, EndListing(1, Listed));
    AfterNext(start, a3, EndTunnel(2, Opened(tunnel)));
    AfterNext(start, a4, EndProbe(2, false, None));
    Supersedes(start, oldUrl, newUrl, destination);
    TimesOut(After(start, a3), oldUrl, newUrl, tunnel);
    assert LeftBehind(After(start, a5), oldUrl, newUrl);
  }

  /** An SSH attempt is opening its tunnel, and the client is of another URL than the window's. */
  predicate Superseding(run: Run, oldUrl: string, newUrl: string) {
    && run.link.epoch == 2 && run.tasks.Keys == {2} && run.tasks[2].Tunnelling? && run.tasks[2].epoch == 2
    && run.link.baseUrl == newUrl && run.link.client.Some? && run.link.client.value.url == oldUrl
  }

  lemma Supersedes(run: Run, oldUrl: string, newUrl: string, destination: string)
    requires run.link.epoch == run.attempts == 0 && run.tasks == map[]
    requires run.link.client.Some? && run.link.client.value.url == oldUrl
    ensures Superseding(Step(Step(Step(run, Host(newUrl, None, None, None)), Ssh(destination, None, destination)),
                             EndListing(1, Listed)), oldUrl, newUrl)
  {
    hide ClientFor, Contains;
  }

  lemma TimesOut(run: Run, oldUrl: string, newUrl: string, tunnel: Tunnel)
    requires Superseding(run, oldUrl, newUrl)
    ensures LeftBehind(Step(Step(run, EndTunnel(2, Opened(tunnel))), EndProbe(2, false, None)), oldUrl, newUrl)
  {
    hide Connect, ListDone;
  }

  /** Nothing is under way, and the client is of another URL than the window's. */
  predicate LeftBehind(run: Run, oldUrl: string, newUrl: string) {
    && run.tasks == map[]
    && run.link.baseUrl == newUrl && run.link.client.Some? && run.link.client.value.url == oldUrl
  }

  lemma AfterNone(run: Run)
    ensures After(run, []) == run
  {
  }

  lemma AfterNext(run: Run, actions: seq<Action>, action: Action)
    ensures After(run, actions + [action]) == Step(After(run, actions), action)
  {
    hide Step;
    assert (actions + [action])[..|actions|] == actions;
  }

  /** A tunnel that takes 2^64 further attempts to open is taken for the latest attempt's. */
  lemma WrappedEpochIsMistaken(start: Run, destination: string, key: string, tunnel: Tunnel)
    requires Initial(start)
    ensures exists actions ::
      var run := After(start, actions);
      && run.attempts == EPOCHS + 1 && 1 in run.tasks && run.tasks[1].Tunnelling?
      && Step(run, EndTunnel(1, Opened(tunnel))).link == run.link.(tunnel := Some(tunnel))
  {
    var actions := Repeated(EPOCHS + 1, Ssh(destination, None, key));
    RepeatedAttempts(start, EPOCHS + 1, destination, key);
    RunInvAlways(start, actions);
    HeededIf(After(start, actions), 1);
  }

  function Repeated(count: nat, action: Action): seq<Action> {
    seq(count, _ => action)
  }

  lemma {:induction false} RepeatedAttempts(start: Run, count: nat, destination: string, key: string)
    requires Initial(start)
    ensures var run := After(start, Repeated(count, Ssh(destination, None, key)));
      && run.attempts == count
      && (count > 0 ==> 1 in run.tasks && run.tasks[1].Tunnelling?)
  {
    if count > 0 {
      var action := Ssh(destination, None, key);
      RepeatedAttempts(start, count - 1, destination, key);
      assert Repeated(count, action) == Repeated(count - 1, action) + [action];
      AfterNext(start, Repeated(count - 1, action), action);
    }
  }

  // ---------- what an attempt was asked to do ----------

  predicate Begins(action: Action) {
    action.Ssh? || action.Host? || action.RemoteCreate?
  }

  /** The task does what was asked: the endpoint, the label and the key are those of the request. */
  predicate Serves(task: Task, action: Action) {
    match action
    case Ssh(_, hostLabel, key) =>
      (match task
       case Tunnelling(_, taskLabel, authKey) => taskLabel == hostLabel && authKey == key
       case Probing(_, _, taskLabel, authKey) => taskLabel == hostLabel && authKey == key
       case Listing(_, _, endpoint, tokenKey) =>
         endpoint == Endpoint(endpoint.url, hostLabel, Some(key), None, true) && tokenKey == key)
    case Host(url, hostLabel, authKey, _) =>
      task.Listing? && task.endpoint == Endpoint(url, hostLabel, authKey, None, false)
    case RemoteCreate(url, hostname, repoRoot, _) =>
      task.Listing? && task.endpoint == Endpoint(url, Some(hostname), None, Some(repoRoot), false)
    case _ => false
  }

  /** Step a started the attempt with this number. */
  ghost predicate BeganAt(start: Run, actions: seq<Action>, a: nat, number: nat) {
    a < |actions| && Begins(actions[a]) && After(start, actions[..a]).attempts + 1 == number
  }

  ghost predicate ServesRequest(start: Run, actions: seq<Action>, number: nat, task: Task) {
    exists a: nat :: BeganAt(start, actions, a, number) && Serves(task, actions[a])
  }

  lemma StepServes(run: Run, action: Action, number: nat, request: Action)
    requires RunInv(run) && number in Step(run, action).tasks
    ensures number !in run.tasks ==> Begins(action) && number == run.attempts + 1
    ensures number in run.tasks ==> !(Begins(action) && number == run.attempts + 1)
    ensures number !in run.tasks ==> Serves(Step(run, action).tasks[number], action)
    ensures number in run.tasks && Serves(run.tasks[number], request) ==>
      Serves(Step(run, action).tasks[number], request)
  {
    hide Contains, NextEpoch, ClientFor;
  }

  lemma RequestStays(start: Run, actions: seq<Action>, next: Action, a: nat, number: nat)
    requires BeganAt(start, actions, a, number)
    ensures BeganAt(start, actions + [next], a, number) && (actions + [next])[a] == actions[a]
  {
    hide After;
    assert (actions + [next])[..a] == actions[..a];
  }

  /** In every interleaving, what is under way for an attempt serves the request that began it. */
  lemma {:induction false} TasksServeRequests(start: Run, actions: seq<Action>, number: nat)
    requires Initial(start) && number in After(start, actions).tasks
    ensures ServesRequest(start, actions, number, After(start, actions).tasks[number])
    decreases |actions|
  {
    hide Step, RunInv, Serves;
    if actions != [] {
      var n := |actions| - 1;
      var earlier, next := actions[..n], actions[n];
      var before := After(start, earlier);
      SplitLast(actions);
      RunInvAlways(start, earlier);
      if number in before.tasks {
        TasksServeRequests(start, earlier, number);
        hide After;
        var a: nat :| BeganAt(start, earlier, a, number) && Serves(before.tasks[number], earlier[a]);
        StepServes(before, next, number, earlier[a]);
        RequestStays(start, earlier, next, a, number);
      } else {
        StepServes(before, next, number, next);
        assert BeganAt(start, actions, n, number);
      }
    }
  }

  /** What completes a task of a kind. */
  predicate Ends(action: Action, number: nat, task: Task) {
    match task
    case Tunnelling(_, _, _) => action.EndTunnel? && action.attempt == number
    case Probing(_, _, _, _) => action.EndProbe? && action.attempt == number
    case Listing(_, _, _, _) => action.EndListing? && action.attempt == number
  }

  /** A request gets its work under way unless no client can be made. */
  lemma RequestsBegin(run: Run, action: Action)
    requires RunInv(run) && Begins(action)
    ensures var next := Step(run, action);
      && next.attempts == run.attempts + 1
      && (next.attempts in next.tasks <==> action.Ssh? || action.creation.None?)
  {
    hide Contains, NextEpoch, ClientFor, InForce, WellMade;
  }

  /** In every interleaving of fewer than 2^64 attempts, the latest attempt goes on exactly if its tunnel opened, or
      answers and a client can be made. */
  lemma AttemptsGoOn(start: Run, actions: seq<Action>, action: Action)
    requires Initial(start) && After(start, actions).attempts < EPOCHS
    requires var run := After(start, actions);
      run.attempts in run.tasks && Ends(action, run.attempts, run.tasks[run.attempts])
    ensures var run := After(start, actions); var next := Step(run, action);
      && next.attempts == run.attempts
      && (run.attempts in next.tasks <==>
            || (action.EndTunnel? && action.tunnelled.Opened?)
            || (action.EndProbe? && action.ready && action.creation.None?))
  {
    var run := After(start, actions);
    RunInvAlways(start, actions);
    HeededIf(run, run.attempts);
    hide After, Contains, NextEpoch, ClientFor, InForce, WellMade;
  }
}
