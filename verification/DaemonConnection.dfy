/** Connecting to a daemon over HTTP or through an SSH tunnel. Each attempt takes a new epoch, and what it
    started in the background compares that epoch with the window's before it writes anything. */
module DaemonConnection {
  import opened Wrappers

  /** Epochs are 64-bit and wrap around. */
  const EPOCHS: nat := 0x1_0000_0000_0000_0000

  datatype Client = Client(url: string, token: Option<string>)

  datatype Tunnel = Tunnel(localUrl: string)

  datatype Link = Link(
    epoch: nat,
    baseUrl: string,
    client: Option<Client>,
    hostLabel: Option<string>,
    tunnel: Option<Tunnel>,
    notice: Option<string>,
    prompt: Option<string>,
    pendingRepoRoot: Option<string>,
    createDialogFor: Option<string>,
    tokens: map<string, string>)

  /** Where to connect and what to do afterwards. */
  datatype Endpoint = Endpoint(
    url: string,
    hostLabel: Option<string>,
    authKey: Option<string>,
    repoRoot: Option<string>,
    stopTunnelOnFailure: bool)

  /** What runs in the background for one attempt. */
  datatype Task =
    | Tunnelling(epoch: nat, hostLabel: Option<string>, authKey: string)
    | Probing(epoch: nat, tunnel: Tunnel, hostLabel: Option<string>, authKey: string)
    | Listing(epoch: nat, client: Client, endpoint: Endpoint, tokenKey: string)

  datatype TunnelResult = Opened(tunnel: Tunnel) | NotOpened(error: string)
  datatype ListResult = Listed | Refused(error: string)

  /** The window after a call, and the background task the call started. */
  datatype Next = Next(link: Link, task: Option<Task>)

  const TIMED_OUT := "SSH tunnel timed out"
  const FORBIDDEN := "Remote host has no auth token configured."

  predicate Contains(text: string, part: string) {
    exists i | 0 <= i <= |text| :: part <= text[i..]
  }

  function ConnectFailed(url: string, error: string): string {
    "failed to connect to " + url + ": " + error
  }

  function ClientFor(tokens: map<string, string>, url: string, tokenKey: string): Client {
    Client(url, if tokenKey in tokens then Some(tokens[tokenKey]) else None)
  }

  function NextEpoch(epoch: nat): nat {
    (epoch + 1) % EPOCHS
  }

  function Disconnected(link: Link, notice: string): Link {
    link.(notice := Some(notice), client := None, hostLabel := None)
  }

  /** Connecting to an endpoint, as a new attempt or as the continuation of `attempt`; `creation` is the error
      the client constructor reports, if any. */
  function Connect(link: Link, endpoint: Endpoint, attempt: Option<nat>, creation: Option<string>): Next {
    var begun := if attempt.None? then link.(epoch := NextEpoch(link.epoch)) else link;
    if begun.epoch != attempt.GetOr(begun.epoch) then Next(begun, None)
    else
      var pointed := begun.(baseUrl := endpoint.url);
      var tokenKey := endpoint.authKey.GetOr(endpoint.url);
      match creation
      case Some(error) => Next(Disconnected(pointed, ConnectFailed(endpoint.url, error)), None)
      case None =>
        Next(pointed, Some(Listing(begun.epoch, ClientFor(link.tokens, endpoint.url, tokenKey), endpoint, tokenKey)))
  }

  function ConnectSsh(link: Link, destination: string, hostLabel: Option<string>, authKey: string): Next {
    var begun := link.(epoch := NextEpoch(link.epoch), tunnel := None,
                       notice := Some("connecting to " + destination + " via SSH tunnel\U{2026}"));
    Next(begun, Some(Tunnelling(begun.epoch, hostLabel, authKey)))
  }

  function TunnelDone(link: Link, task: Task, result: TunnelResult): Next
    requires task.Tunnelling?
  {
    if link.epoch != task.epoch then Next(link, None)
    else
      match result
      case Opened(tunnel) =>
        Next(link.(tunnel := Some(tunnel)), Some(Probing(task.epoch, tunnel, task.hostLabel, task.authKey)))
      case NotOpened(error) => Next(Disconnected(link, error), None)
  }

  /** The endpoint at the near end of a tunnel. */
  function TunnelEndpoint(task: Task): Endpoint
    requires task.Probing?
  {
    Endpoint(task.tunnel.localUrl, task.hostLabel, Some(task.authKey), None, true)
  }

  function ProbeDone(link: Link, task: Task, ready: bool, creation: Option<string>): Next
    requires task.Probing?
  {
    if link.epoch != task.epoch then Next(link, None)
    else if ready then Connect(link.(notice := None), TunnelEndpoint(task), Some(task.epoch), creation)
    else Next(link.(notice := Some(TIMED_OUT), tunnel := None), None)
  }

  function Rejected(link: Link, task: Task, notice: string): Link
    requires task.Listing?
  {
    Disconnected(link, notice).(tunnel := if task.endpoint.stopTunnelOnFailure then None else link.tunnel)
  }

  /** A listing that succeeds, or fails only for lack of a token, installs the client. */
  function ListDone(link: Link, task: Task, result: ListResult): Link
    requires task.Listing?
  {
    if link.epoch != task.epoch then link
    else
      var installed := link.(client := Some(task.client), hostLabel := task.endpoint.hostLabel);
      match result
      case Listed =>
        if task.endpoint.repoRoot.Some?
        then installed.(createDialogFor := task.endpoint.repoRoot, pendingRepoRoot := None)
        else installed
      case Refused(error) =>
        if Contains(error, "status 403") then Rejected(link, task, FORBIDDEN)
        else if Contains(error, "status 401") then
          installed.(prompt := Some(task.tokenKey), pendingRepoRoot := task.endpoint.repoRoot)
        else Rejected(link, task, ConnectFailed(task.endpoint.url, error))
  }

  // ---------- the window ----------

  class ArborWindow {
    var daemonConnectEpoch: nat
    var daemonBaseUrl: string
    var terminalDaemon: Option<Client>
    var connectedDaemonLabel: Option<string>
    var sshDaemonTunnel: Option<Tunnel>
    var notice: Option<string>
    var daemonAuthModal: Option<string>
    var pendingRemoteCreateRepoRoot: Option<string>
    var createDialogFor: Option<string>
    var daemonAuthTokens: map<string, string>

    function State(): Link
      reads this
    {
      Link(daemonConnectEpoch, daemonBaseUrl, terminalDaemon, connectedDaemonLabel, sshDaemonTunnel, notice,
           daemonAuthModal, pendingRemoteCreateRepoRoot, createDialogFor, daemonAuthTokens)
    }

    constructor (baseUrl: string, client: Option<Client>, tokens: map<string, string>)
      ensures State() == Link(0, baseUrl, client, None, None, None, None, None, None, tokens)
    {
      daemonConnectEpoch, daemonBaseUrl, terminalDaemon, daemonAuthTokens := 0, baseUrl, client, tokens;
      connectedDaemonLabel, sshDaemonTunnel, notice, daemonAuthModal := None, None, None, None;
      pendingRemoteCreateRepoRoot, createDialogFor := None, None;
    }

    method BeginDaemonConnectAttempt() returns (epoch: nat)
      modifies this`daemonConnectEpoch
      ensures epoch == daemonConnectEpoch == NextEpoch(old(daemonConnectEpoch))
    {
      epoch := (daemonConnectEpoch + 1) % EPOCHS;
      daemonConnectEpoch := epoch;
    }

    method ConnectToSshDaemon(destination: string, hostLabel: Option<string>, authKey: string) returns (task: Option<Task>)
      modifies this
      ensures Next(State(), task) == old(ConnectSsh(State(), destination, hostLabel, authKey))
    {
      var epoch := BeginDaemonConnectAttempt();
      sshDaemonTunnel := None;
      notice := Some("connecting to " + destination + " via SSH tunnel\U{2026}");
      task := Some(Tunnelling(epoch, hostLabel, authKey));
    }

    method ConnectToDaemonEndpoint(endpoint: Endpoint, attempt: Option<nat>, creation: Option<string>)
      returns (task: Option<Task>)
      modifies this
      ensures Next(State(), task) == old(Connect(State(), endpoint, attempt, creation))
    {
      var epoch;
      if attempt.Some? {
        epoch := attempt.value;
      } else {
        epoch := BeginDaemonConnectAttempt();
      }
      if daemonConnectEpoch != epoch {
        return None;
      }
      daemonBaseUrl := endpoint.url;
      var tokenKey := endpoint.authKey.GetOr(endpoint.url);
      if creation.Some? {
        notice := Some(ConnectFailed(endpoint.url, creation.value));
        terminalDaemon := None;
        connectedDaemonLabel := None;
        return None;
      }
      var client := Client(endpoint.url, None);
      if tokenKey in daemonAuthTokens {
        client := client.(token := Some(daemonAuthTokens[tokenKey]));
      }
      return Some(Listing(epoch, client, endpoint, tokenKey));
    }

    method FinishTunnel(done: Task, result: TunnelResult) returns (task: Option<Task>)
      requires done.Tunnelling?
      modifies this
      ensures Next(State(), task) == old(TunnelDone(State(), done, result))
    {
      if daemonConnectEpoch != done.epoch {
        return None;
      }
      match result {
        case Opened(tunnel) =>
          sshDaemonTunnel := Some(tunnel);
          return Some(Probing(done.epoch, tunnel, done.hostLabel, done.authKey));
        case NotOpened(error) =>
          notice := Some(error);
          terminalDaemon := None;
          connectedDaemonLabel := None;
          return None;
      }
    }

    method FinishProbe(done: Task, ready: bool, creation: Option<string>) returns (task: Option<Task>)
      requires done.Probing?
      modifies this
      ensures Next(State(), task) == old(ProbeDone(State(), done, ready, creation))
    {
      if daemonConnectEpoch != done.epoch {
        return None;
      }
      notice := None;
      if ready {
        task := ConnectToDaemonEndpoint(
          Endpoint(done.tunnel.localUrl, done.hostLabel, Some(done.authKey), None, true), Some(done.epoch), creation);
      } else {
        notice := Some(TIMED_OUT);
        sshDaemonTunnel := None;
        task := None;
      }
    }

    method FinishListing(done: Task, result: ListResult)
      requires done.Listing?
      modifies this
      ensures State() == old(ListDone(State(), done, result))
    {
      if daemonConnectEpoch != done.epoch {
        return;
      }
      match result {
        case Listed =>
          terminalDaemon := Some(done.client);
          connectedDaemonLabel := done.endpoint.hostLabel;
          if done.endpoint.repoRoot.Some? {
            createDialogFor := done.endpoint.repoRoot;
            pendingRemoteCreateRepoRoot := None;
          }
        case Refused(error) =>
          if Contains(error, "status 403") {
            notice := Some(FORBIDDEN);
            terminalDaemon := None;
            connectedDaemonLabel := None;
            if done.endpoint.stopTunnelOnFailure {
              sshDaemonTunnel := None;
            }
          } else if Contains(error, "status 401") {
            daemonAuthModal := Some(done.tokenKey);
            terminalDaemon := Some(done.client);
            connectedDaemonLabel := done.endpoint.hostLabel;
            pendingRemoteCreateRepoRoot := done.endpoint.repoRoot;
          } else {
            notice := Some(ConnectFailed(done.endpoint.url, error));
            terminalDaemon := None;
            connectedDaemonLabel := None;
            if done.endpoint.stopTunnelOnFailure {
              sshDaemonTunnel := None;
            }
          }
      }
    }
  }
}
