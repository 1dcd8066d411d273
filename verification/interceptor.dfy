/** The `--mq` wrappers around push and pull: passthrough, explicit override by the queue
    repository's own configuration, or redirect of the queue repository to the location
    of the queue inside the primary repository's peer (its `.hg` directory). */
module Interceptor {
  import opened Wrappers
  import opened Strings
  import opened Paths
  import opened QueueNames
  import opened RegistryFile
  import opened Hg
  import opened RemoteHq
  import opened Peers

  const NoQueueRepository := "no queue repository"
  const PushNotConfigured := "default repository not configured!"
  const PathHint := "see the \"path\" section in \"hg help config\""
  const PullNotFound := "repository default not found!"

  /** The command options: the `--mq` flag the wrapper pops, and everything else,
      which goes to the wrapped command untouched. */
  datatype Opts = Opts(mq: bool, rest: map<string, string>)

  /** The primary repository's mq state: the patch directory `repo.mq.path` and the
      queue repository `repo.mq.qrepo()`, when there is one. */
  datatype MqState = MqState(path: string, qrepo: Option<Repo>)

  /** A call of the wrapped push or pull command: the repository it runs in, the
      destination or source it is given, and the options passed through. */
  datatype Transfer = Transfer(repo: Repo, location: Option<string>, opts: map<string, string>)

  /** What a push does: the wrapped call, and the redirect peer as left by provisioning
      the queue on it (`None` when no queue was provisioned). */
  datatype PushCall = PushCall(transfer: Transfer, provisioned: Option<Peer>)

  /** Where an invocation stands once the flag, the queue repository and the peers have
      been looked at: finished, or about to redirect to the primary repository's peer. */
  datatype Stage<T> =
    | Finished(result: Result<T, Error>)
    | Redirect(qrepo: Repo, qname: string, peer: Option<Peer>)

  /** The location of queue `qname` as addressed through `peer`: inside a local
      repository's path (its `.hg` directory), and inside `.hg/` of a remote location. */
  function QueueLocation(peer: Peer, qname: string): string
  {
    match peer
    case Local(repo) => LocalQueuePath(repo.path, qname)
    case Remote(url, _, _) => RemoteQueuePath(url, qname)
  }

  // ---------------------------------------------------------------- push

  function PushStage(world: World, repo: Repo, mq: MqState, dest: Option<string>, opts: Opts): (s: Stage<PushCall>)
    ensures !opts.mq ==> s == Finished(Ok(PushCall(Transfer(repo, dest, opts.rest), None)))
    ensures opts.mq && mq.qrepo.None? ==> s == Finished(Err(Abort(NoQueueRepository, None)))
    ensures s.Finished? && s.result.Ok? ==> (s.result.value.provisioned.None?
      && s.result.value.transfer.opts == opts.rest
      && (opts.mq ==> mq.qrepo.Some? && s.result.value.transfer.repo == mq.qrepo.value))
    ensures s.Redirect? ==> (opts.mq && mq.qrepo.Some? && s.qrepo == mq.qrepo.value && s.qname == Basename(mq.path))
  {
    if !opts.mq then Finished(Ok(PushCall(Transfer(repo, dest, opts.rest), None)))
    else if mq.qrepo.None? then Finished(Err(Abort(NoQueueRepository, None)))
    else
      var r := mq.qrepo.value;
      match FindPushPeer(r, world, dest)
      case Err(e) => Finished(Err(e))
      case Ok(Some(_)) => Finished(Ok(PushCall(Transfer(r, dest, opts.rest), None)))
      case Ok(None) =>
        match FindPushPeer(repo, world, dest)
        case Err(e) => Finished(Err(e))
        case Ok(p) => Redirect(r, Basename(mq.path), p)
  }

  /** The redirect of a push to `peer`: a local peer gets the queue created directly, a
      remote one must advertise the capability and gets the `create_queue` wire command. */
  function PushTo(qrepo: Repo, qname: string, peer: Peer, opts: map<string, string>): (r: Result<PushCall, Error>)
    ensures r.Ok? <==> peer.Local? || Capability in peer.caps
    ensures r.Err? ==> r.error == Abort(PushNotConfigured, Some(PathHint))
    ensures r.Ok? ==> r.value.transfer == Transfer(qrepo, Some(QueueLocation(peer, qname)), opts)
    ensures r.Ok? ==> (r.value.provisioned.Some?
      && r.value.transfer.location == Some(QueueLocation(r.value.provisioned.value, qname)))
    ensures peer.Local? ==> r.value.provisioned == Some(Local(CreateQueueGuarded(peer.repo, qname)))
    ensures peer.Remote? && r.Ok? ==> r.value.provisioned == Some(peer.(server := CreateQueueGuarded(peer.server, qname)))
  {
    match peer
    case Local(pr) =>
      Ok(PushCall(Transfer(qrepo, Some(LocalQueuePath(pr.path, qname)), opts), Some(Local(CreateQueueGuarded(pr, qname)))))
    case Remote(url, caps, server) =>
      if Capability !in caps then Err(Abort(PushNotConfigured, Some(PathHint)))
      else
        var served := WireCreateQueue(server, qname);
        Ok(PushCall(Transfer(qrepo, Some(RemoteQueuePath(url, qname)), opts), Some(Remote(url, caps, served.repo))))
  }

  /** The redirect of a push to `peer` as written: the queue is created by the source's
      `create_queue`, directly on a local peer and through the wire command on a remote one. */
  function PushToAsWritten(qrepo: Repo, qname: string, peer: Peer, opts: map<string, string>): (r: Result<PushCall, Error>)
    ensures r.Ok? <==> peer.Local? || Capability in peer.caps
    ensures r.Err? ==> r.error == Abort(PushNotConfigured, Some(PathHint))
    ensures r.Ok? ==> r.value.transfer == Transfer(qrepo, Some(QueueLocation(peer, qname)), opts)
    ensures r.Ok? ==> (r.value.provisioned.Some?
      && r.value.transfer.location == Some(QueueLocation(r.value.provisioned.value, qname)))
    ensures peer.Local? ==> r.value.provisioned == Some(Local(CreateQueue(peer.repo, qname)))
    ensures peer.Remote? && r.Ok? ==> r.value.provisioned == Some(peer.(server := CreateQueue(peer.server, qname)))
  {
    match peer
    case Local(pr) =>
      Ok(PushCall(Transfer(qrepo, Some(LocalQueuePath(pr.path, qname)), opts), Some(Local(CreateQueue(pr, qname)))))
    case Remote(url, caps, server) =>
      if Capability !in caps then Err(Abort(PushNotConfigured, Some(PathHint)))
      else
        var served := WireCreateQueueAsWritten(server, qname);
        Ok(PushCall(Transfer(qrepo, Some(RemoteQueuePath(url, qname)), opts), Some(Remote(url, caps, served.repo))))
  }

  /** `push` with the missing primary peer reported as the `RepoError` that resolution
      swallowed. */
  function Push(world: World, repo: Repo, mq: MqState, dest: Option<string>, opts: Opts): (r: Result<PushCall, Error>)
    ensures !opts.mq ==> r == Ok(PushCall(Transfer(repo, dest, opts.rest), None))
    ensures opts.mq && mq.qrepo.None? ==> r == Err(Abort(NoQueueRepository, None))
    ensures opts.mq && r.Ok? ==> mq.qrepo.Some? && r.value.transfer.repo == mq.qrepo.value
    ensures r.Ok? ==> r.value.transfer.opts == opts.rest
    ensures r.Ok? && r.value.provisioned.Some?
      ==> r.value.transfer.location == Some(QueueLocation(r.value.provisioned.value, Basename(mq.path)))
  {
    match PushStage(world, repo, mq, dest, opts)
    case Finished(result) => result
    case Redirect(r, qname, Some(peer)) => PushTo(r, qname, peer, opts.rest)
    case Redirect(_, _, None) => Err(RepoError(DefaultPush))
  }

  /** `push` as written: the queue is provisioned by the source's `create_queue`, and a
      missing primary peer reaches `peer.local()` on `None`. */
  function PushAsWritten(world: World, repo: Repo, mq: MqState, dest: Option<string>, opts: Opts): (r: Result<PushCall, Error>)
    ensures !opts.mq ==> r == Ok(PushCall(Transfer(repo, dest, opts.rest), None))
    ensures opts.mq && mq.qrepo.None? ==> r == Err(Abort(NoQueueRepository, None))
    ensures opts.mq && r.Ok? ==> mq.qrepo.Some? && r.value.transfer.repo == mq.qrepo.value
    ensures r.Ok? ==> r.value.transfer.opts == opts.rest
    ensures r.Ok? && r.value.provisioned.Some?
      ==> r.value.transfer.location == Some(QueueLocation(r.value.provisioned.value, Basename(mq.path)))
  {
    match PushStage(world, repo, mq, dest, opts)
    case Finished(result) => result
    case Redirect(r, qname, Some(peer)) => PushToAsWritten(r, qname, peer, opts.rest)
    case Redirect(_, _, None) => Err(AttributeError("local"))
  }

  // ---------------------------------------------------------------- pull

  function PullStage(world: World, repo: Repo, mq: MqState, source: string, opts: Opts): Stage<Transfer>
  {
    if !opts.mq then Finished(Ok(Transfer(repo, Some(source), opts.rest)))
    else if mq.qrepo.None? then Finished(Err(Abort(NoQueueRepository, None)))
    else
      var r := mq.qrepo.value;
      match FindPullPeer(r, world, source)
      case Err(e) => Finished(Err(e))
      case Ok(Some(_)) => Finished(Ok(Transfer(r, Some(source), opts.rest)))
      case Ok(None) =>
        match FindPullPeer(repo, world, source)
        case Err(e) => Finished(Err(e))
        case Ok(p) => Redirect(r, Basename(mq.path), p)
  }

  /** The redirect of a pull from `peer`. A local peer is accepted when the PRIMARY
      repository's registry names the queue; a remote one must advertise the capability
      and answer `"True"` to the `has_queue` wire command. Every refusal is the same abort. */
  function PullFrom(repo: Repo, qrepo: Repo, qname: string, peer: Peer, opts: map<string, string>): (r: Result<Transfer, Error>)
    ensures r.Ok? <==> ((peer.Local? && HasQueue(repo, qname))
                     || (peer.Remote? && Capability in peer.caps && HasQueue(peer.server, qname)))
    ensures r.Err? ==> r.error == Abort(PullNotFound, None)
    ensures r.Ok? ==> r.value == Transfer(qrepo, Some(QueueLocation(peer, qname)), opts)
  {
    match peer
    case Local(pr) =>
      if !HasQueue(repo, qname) then Err(Abort(PullNotFound, None))
      else Ok(Transfer(qrepo, Some(LocalQueuePath(pr.path, qname)), opts))
    case Remote(url, caps, server) =>
      if Capability !in caps then Err(Abort(PullNotFound, None))
      else if WireHasQueue(server, qname) != "True" then Err(Abort(PullNotFound, None))
      else Ok(Transfer(qrepo, Some(RemoteQueuePath(url, qname)), opts))
  }

  /** `pull` with the passthrough handing over `source`, and the missing primary peer
      reported as the `RepoError` that resolution swallowed. */
  function Pull(world: World, repo: Repo, mq: MqState, source: string, opts: Opts): (r: Result<Transfer, Error>)
    ensures !opts.mq ==> r == Ok(Transfer(repo, Some(source), opts.rest))
    ensures opts.mq && mq.qrepo.None? ==> r == Err(Abort(NoQueueRepository, None))
    ensures opts.mq && r.Ok? ==> mq.qrepo.Some? && r.value.repo == mq.qrepo.value
    ensures r.Ok? ==> r.value.opts == opts.rest
  {
    match PullStage(world, repo, mq, source, opts)
    case Finished(result) => result
    case Redirect(r, qname, Some(peer)) => PullFrom(repo, r, qname, peer, opts.rest)
    case Redirect(_, _, None) => Err(RepoError(Default))
  }

  /** `pull` as written: the passthrough names an undefined `dest`, and a missing primary
      peer reaches `peer.local()` on `None`. */
  function PullAsWritten(world: World, repo: Repo, mq: MqState, source: string, opts: Opts): (r: Result<Transfer, Error>)
    ensures !opts.mq ==> r == Err(NameError("dest"))
    ensures opts.mq && mq.qrepo.None? ==> r == Err(Abort(NoQueueRepository, None))
    ensures r.Ok? ==> (opts.mq && mq.qrepo.Some? && r.value.repo == mq.qrepo.value && r.value.opts == opts.rest)
  {
    if !opts.mq then Err(NameError("dest"))
    else
      match PullStage(world, repo, mq, source, opts)
      case Finished(result) => result
      case Redirect(r, qname, Some(peer)) => PullFrom(repo, r, qname, peer, opts.rest)
      case Redirect(_, _, None) => Err(AttributeError("local"))
  }

  // ---------------------------------------------------------------- properties

  /** A queue repository that resolves a push peer of its own is pushed there directly,
      and the primary repository plays no part in the outcome. */
  lemma PushOverrideWins(world: World, repo: Repo, other: Repo, mq: MqState, dest: Option<string>, opts: Opts)
    requires opts.mq && mq.qrepo.Some?
    requires FindPushPeer(mq.qrepo.value, world, dest).Ok? && FindPushPeer(mq.qrepo.value, world, dest).value.Some?
    ensures Push(world, repo, mq, dest, opts) == Ok(PushCall(Transfer(mq.qrepo.value, dest, opts.rest), None))
    ensures Push(world, repo, mq, dest, opts) == Push(world, other, mq, dest, opts)
  {
  }

  /** The same for pull. */
  lemma PullOverrideWins(world: World, repo: Repo, other: Repo, mq: MqState, source: string, opts: Opts)
    requires opts.mq && mq.qrepo.Some?
    requires FindPullPeer(mq.qrepo.value, world, source).Ok? && FindPullPeer(mq.qrepo.value, world, source).value.Some?
    ensures Pull(world, repo, mq, source, opts) == Ok(Transfer(mq.qrepo.value, Some(source), opts.rest))
    ensures Pull(world, repo, mq, source, opts) == Pull(world, other, mq, source, opts)
  {
  }

  /** The conditions under which a push is redirected to the primary repository's peer `peer`. */
  predicate PushRedirects(world: World, repo: Repo, mq: MqState, dest: Option<string>, opts: Opts, peer: Peer)
  {
    && opts.mq && mq.qrepo.Some?
    && FindPushPeer(mq.qrepo.value, world, dest) == Ok(None)
    && FindPushPeer(repo, world, dest) == Ok(Some(peer))
  }

  /** The conditions under which a pull is redirected to the primary repository's peer `peer`. */
  predicate PullRedirects(world: World, repo: Repo, mq: MqState, source: string, opts: Opts, peer: Peer)
  {
    && opts.mq && mq.qrepo.Some?
    && FindPullPeer(mq.qrepo.value, world, source) == Ok(None)
    && FindPullPeer(repo, world, source) == Ok(Some(peer))
  }

  /** Once a push redirects, its outcome is that of `PushTo` on the resolved peer. */
  lemma PushRedirectIsPushTo(world: World, repo: Repo, mq: MqState, dest: Option<string>, opts: Opts, peer: Peer)
    requires PushRedirects(world, repo, mq, dest, opts, peer)
    ensures Push(world, repo, mq, dest, opts) == PushTo(mq.qrepo.value, Basename(mq.path), peer, opts.rest)
  {
    assert PushStage(world, repo, mq, dest, opts) == Redirect(mq.qrepo.value, Basename(mq.path), Some(peer));
  }

  /** Once the source's push redirects, its outcome is that of `PushToAsWritten` on the
      resolved peer, so the queue is provisioned by the source's `create_queue`. */
  lemma PushAsWrittenRedirectIsPushToAsWritten(world: World, repo: Repo, mq: MqState, dest: Option<string>, opts: Opts, peer: Peer)
    requires PushRedirects(world, repo, mq, dest, opts, peer)
    ensures PushAsWritten(world, repo, mq, dest, opts) == PushToAsWritten(mq.qrepo.value, Basename(mq.path), peer, opts.rest)
  {
    assert PushStage(world, repo, mq, dest, opts) == Redirect(mq.qrepo.value, Basename(mq.path), Some(peer));
  }

  /** Once a pull redirects, its outcome is that of `PullFrom` on the resolved peer. */
  lemma PullRedirectIsPullFrom(world: World, repo: Repo, mq: MqState, source: string, opts: Opts, peer: Peer)
    requires PullRedirects(world, repo, mq, source, opts, peer)
    ensures Pull(world, repo, mq, source, opts) == PullFrom(repo, mq.qrepo.value, Basename(mq.path), peer, opts.rest)
  {
    assert PullStage(world, repo, mq, source, opts) == Redirect(mq.qrepo.value, Basename(mq.path), Some(peer));
  }

  /** A push redirected to a local peer registers the queue there and transfers into
      exactly the directory `create_queue` made sure exists. */
  lemma {:induction false} PushLocalProvisions(world: World, repo: Repo, mq: MqState, dest: Option<string>, opts: Opts, pr: Repo)
    requires PushRedirects(world, repo, mq, dest, opts, Local(pr))
    requires Clean(RegistryName(Basename(mq.path)))
    requires pr.path != [] && !EndsWith(pr.path, "/")
    ensures Push(world, repo, mq, dest, opts).Ok?
    ensures var call := Push(world, repo, mq, dest, opts).value;
      && call.provisioned.Some? && call.provisioned.value.Local?
      && HasQueue(call.provisioned.value.repo, Basename(mq.path))
      && call.transfer.location == Some(Join(pr.path, Basename(mq.path)))
      && Join(pr.path, Basename(mq.path)) in call.provisioned.value.repo.existing
  {
    var qname := Basename(mq.path);
    PushRedirectIsPushTo(world, repo, mq, dest, opts, Local(pr));
    var call := PushTo(mq.qrepo.value, qname, Local(pr), opts.rest);
    assert call.Ok? && call.value.provisioned == Some(Local(CreateQueueGuarded(pr, qname)));
    assert call.value.transfer.location == Some(LocalQueuePath(pr.path, qname));
    assert qname != [] ==> qname[0] in qname;
    assert !IsAbsolute(qname);
    assert Join(pr.path, qname) == LocalQueuePath(pr.path, qname);
    CreateQueueGuardedRegisters(pr, qname);
  }

  /** A push redirected to a capable remote peer provisions the queue on the server and
      transfers into `.hg/` of the remote location. */
  lemma PushRemoteProvisions(world: World, repo: Repo, mq: MqState, dest: Option<string>, opts: Opts,
                             url: string, caps: seq<string>, server: Repo)
    requires PushRedirects(world, repo, mq, dest, opts, Remote(url, caps, server))
    requires Capability in caps
    requires Clean(RegistryName(Basename(mq.path)))
    ensures Push(world, repo, mq, dest, opts).Ok?
    ensures var call := Push(world, repo, mq, dest, opts).value;
      && call.provisioned.Some? && call.provisioned.value.Remote?
      && WireHasQueue(call.provisioned.value.server, Basename(mq.path)) == "True"
      && Join(server.path, Basename(mq.path)) in call.provisioned.value.server.existing
      && call.transfer.location == Some(RemoteQueuePath(url, Basename(mq.path)))
  {
    PushRedirectIsPushTo(world, repo, mq, dest, opts, Remote(url, caps, server));
    CreateQueueGuardedRegisters(server, Basename(mq.path));
  }

  /** A remote peer whose server advertises the extended capability list accepts the
      redirected push. */
  lemma AdvertisedServerAcceptsPush(qrepo: Repo, qname: string, url: string, base: seq<string>,
                                    server: Repo, opts: map<string, string>)
    ensures PushTo(qrepo, qname, Remote(url, Capabilities(base), server), opts).Ok?
  {
  }

  /** A resolution error for the queue repository's own push peer is what `push` raises. */
  lemma PushReportsQueueResolutionError(world: World, repo: Repo, mq: MqState, dest: Option<string>, opts: Opts)
    requires opts.mq && mq.qrepo.Some?
    requires FindPushPeer(mq.qrepo.value, world, dest).Err?
    ensures Push(world, repo, mq, dest, opts) == Err(RepoError(PushLocation(mq.qrepo.value, dest)))
  {
  }

  /** Without a peer of its own, a resolution error for the primary repository's push peer
      is what `push` raises. */
  lemma PushReportsPrimaryResolutionError(world: World, repo: Repo, mq: MqState, dest: Option<string>, opts: Opts)
    requires opts.mq && mq.qrepo.Some?
    requires FindPushPeer(mq.qrepo.value, world, dest) == Ok(None)
    requires FindPushPeer(repo, world, dest).Err?
    ensures Push(world, repo, mq, dest, opts) == Err(RepoError(PushLocation(repo, dest)))
  {
  }

  /** A resolution error for the queue repository's own pull peer is what `pull` raises. */
  lemma PullReportsQueueResolutionError(world: World, repo: Repo, mq: MqState, source: string, opts: Opts)
    requires opts.mq && mq.qrepo.Some?
    requires FindPullPeer(mq.qrepo.value, world, source).Err?
    ensures Pull(world, repo, mq, source, opts) == Err(RepoError(PullLocation(mq.qrepo.value, source)))
  {
  }

  /** Without a peer of its own, a resolution error for the primary repository's pull peer
      is what `pull` raises. */
  lemma PullReportsPrimaryResolutionError(world: World, repo: Repo, mq: MqState, source: string, opts: Opts)
    requires opts.mq && mq.qrepo.Some?
    requires FindPullPeer(mq.qrepo.value, world, source) == Ok(None)
    requires FindPullPeer(repo, world, source).Err?
    ensures Pull(world, repo, mq, source, opts) == Err(RepoError(PullLocation(repo, source)))
  {
  }

  /** A push redirected to a remote peer without the capability aborts with the
      configuration hint, and nothing is provisioned. */
  lemma PushRemoteIncapableAborts(world: World, repo: Repo, mq: MqState, dest: Option<string>, opts: Opts,
                                  url: string, caps: seq<string>, server: Repo)
    requires PushRedirects(world, repo, mq, dest, opts, Remote(url, caps, server))
    requires Capability !in caps
    ensures Push(world, repo, mq, dest, opts) == Err(Abort(PushNotConfigured, Some(PathHint)))
  {
    PushRedirectIsPushTo(world, repo, mq, dest, opts, Remote(url, caps, server));
  }

  /** The three ways a redirected pull is refused all abort with one and the same message. */
  lemma PullRefusalsShareMessage(world: World, repo: Repo, mq: MqState, source: string, opts: Opts, peer: Peer)
    requires PullRedirects(world, repo, mq, source, opts, peer)
    ensures peer.Local? && !HasQueue(repo, Basename(mq.path))
      ==> Pull(world, repo, mq, source, opts) == Err(Abort(PullNotFound, None))
    ensures peer.Remote? && Capability !in peer.caps
      ==> Pull(world, repo, mq, source, opts) == Err(Abort(PullNotFound, None))
    ensures peer.Remote? && Capability in peer.caps && WireHasQueue(peer.server, Basename(mq.path)) != "True"
      ==> Pull(world, repo, mq, source, opts) == Err(Abort(PullNotFound, None))
    ensures Pull(world, repo, mq, source, opts).Err? ==> Pull(world, repo, mq, source, opts).error == Abort(PullNotFound, None)
  {
  }

  /** A pull from a local peer is decided by the primary repository's registry: the
      peer's own registry does not matter. */
  lemma PullLocalConsultsPrimary(world: World, repo: Repo, mq: MqState, source: string, opts: Opts, pr: Repo)
    requires PullRedirects(world, repo, mq, source, opts, Local(pr))
    ensures Pull(world, repo, mq, source, opts).Ok? <==> HasQueue(repo, Basename(mq.path))
    ensures forall reg :: PullFrom(repo, mq.qrepo.value, Basename(mq.path), Local(pr.(registry := reg)), opts.rest)
                        == Pull(world, repo, mq, source, opts)
  {
    PullRedirectIsPullFrom(world, repo, mq, source, opts, Local(pr));
  }

  /** Push and pull address the queue through a given peer at the same location. */
  lemma PushPullSameLocation(world: World, repo: Repo, mq: MqState, dest: Option<string>, source: string, opts: Opts, peer: Peer)
    requires PushRedirects(world, repo, mq, dest, opts, peer)
    requires PullRedirects(world, repo, mq, source, opts, peer)
    requires Push(world, repo, mq, dest, opts).Ok? && Pull(world, repo, mq, source, opts).Ok?
    ensures Push(world, repo, mq, dest, opts).value.transfer.location == Pull(world, repo, mq, source, opts).value.location
  {
  }

  // ---------------------------------------------------------------- source defects

  /** Without `--mq`, the pull wrapper as written fails on the undefined name `dest`. */
  lemma PullAsWrittenPassthroughFails(world: World, repo: Repo, mq: MqState, source: string, opts: Opts)
    requires !opts.mq
    ensures PullAsWritten(world, repo, mq, source, opts) == Err(NameError("dest"))
    ensures Pull(world, repo, mq, source, opts) == Ok(Transfer(repo, Some(source), opts.rest))
  {
  }

  /** With `--mq`, the corrected pull agrees with the source wherever the source does not
      crash on a missing peer. */
  lemma PullAgreesWithAsWritten(world: World, repo: Repo, mq: MqState, source: string, opts: Opts)
    requires opts.mq
    requires PullAsWritten(world, repo, mq, source, opts) != Err(AttributeError("local"))
    ensures Pull(world, repo, mq, source, opts) == PullAsWritten(world, repo, mq, source, opts)
  {
  }

  /** With no `default-push` or `default` alias anywhere and nothing reachable, the push
      wrapper as written calls `local()` on `None`; the corrected one re-raises the
      `RepoError` for `default-push`. */
  lemma PushAsWrittenCrashesWithoutDefault(repo: Repo, qrepo: Repo, path: string)
    requires repo.paths == map[] && qrepo.paths == map[]
    ensures PushAsWritten(World(map[]), repo, MqState(path, Some(qrepo)), None, Opts(true, map[]))
         == Err(AttributeError("local"))
    ensures Push(World(map[]), repo, MqState(path, Some(qrepo)), None, Opts(true, map[]))
         == Err(RepoError(DefaultPush))
  {
    NoDefaultPushLocation(qrepo);
    NoDefaultPushLocation(repo);
    var world, mq, opts := World(map[]), MqState(path, Some(qrepo)), Opts(true, map[]);
    assert PushStage(world, repo, mq, None, opts) == Redirect(qrepo, Basename(path), None);
  }

  /** Wherever the source does not crash, the corrected push succeeds exactly when the
      source's does, fails with the same error, and makes the same wrapped call; only the
      provisioned peer may differ. */
  lemma PushAgreesWithAsWritten(world: World, repo: Repo, mq: MqState, dest: Option<string>, opts: Opts)
    requires PushAsWritten(world, repo, mq, dest, opts) != Err(AttributeError("local"))
    ensures Push(world, repo, mq, dest, opts).Ok? <==> PushAsWritten(world, repo, mq, dest, opts).Ok?
    ensures Push(world, repo, mq, dest, opts).Err? ==> Push(world, repo, mq, dest, opts) == PushAsWritten(world, repo, mq, dest, opts)
    ensures Push(world, repo, mq, dest, opts).Ok?
      ==> Push(world, repo, mq, dest, opts).value.transfer == PushAsWritten(world, repo, mq, dest, opts).value.transfer
  {
  }

  /** The repository a push redirected to `peer` creates the queue in. */
  function ProvisionedRepo(peer: Peer): Repo
  {
    match peer
    case Local(repo) => repo
    case Remote(_, _, server) => server
  }

  /** When the peer's registry file ends in a newline and the queue's registry name is a
      clean line, the corrected push and the source's push are the same in every respect,
      the provisioned peer included. */
  lemma PushProvisionsLikeAsWritten(world: World, repo: Repo, mq: MqState, dest: Option<string>, opts: Opts, peer: Peer)
    requires PushRedirects(world, repo, mq, dest, opts, peer)
    requires Terminated(ProvisionedRepo(peer).registry) && Clean(RegistryName(Basename(mq.path)))
    ensures Push(world, repo, mq, dest, opts) == PushAsWritten(world, repo, mq, dest, opts)
  {
    var qname := Basename(mq.path);
    PushRedirectIsPushTo(world, repo, mq, dest, opts, peer);
    PushAsWrittenRedirectIsPushToAsWritten(world, repo, mq, dest, opts, peer);
    PushToAgrees(mq.qrepo.value, qname, peer, opts.rest);
  }

  /** On a peer whose registry file ends in a newline, a clean queue name is provisioned
      alike by the corrected redirect and by the source's. */
  lemma PushToAgrees(qrepo: Repo, qname: string, peer: Peer, opts: map<string, string>)
    requires Terminated(ProvisionedRepo(peer).registry) && Clean(RegistryName(qname))
    ensures PushTo(qrepo, qname, peer, opts) == PushToAsWritten(qrepo, qname, peer, opts)
  {
    CreateQueueGuardedAgrees(ProvisionedRepo(peer), qname);
  }

  /** When neither the queue repository nor the primary repository resolves a push peer,
      the corrected push re-raises the `RepoError` for the primary repository's location,
      and the source's push calls `local()` on `None`. */
  lemma PushMissingPrimaryPeer(world: World, repo: Repo, mq: MqState, dest: Option<string>, opts: Opts)
    requires opts.mq && mq.qrepo.Some?
    requires FindPushPeer(mq.qrepo.value, world, dest) == Ok(None)
    requires FindPushPeer(repo, world, dest) == Ok(None)
    ensures Push(world, repo, mq, dest, opts) == Err(RepoError(PushLocation(repo, dest)))
    ensures PushAsWritten(world, repo, mq, dest, opts) == Err(AttributeError("local"))
  {
    assert PushStage(world, repo, mq, dest, opts) == Redirect(mq.qrepo.value, Basename(mq.path), None);
  }

  /** The same for pull, with the pull location. */
  lemma PullMissingPrimaryPeer(world: World, repo: Repo, mq: MqState, source: string, opts: Opts)
    requires opts.mq && mq.qrepo.Some?
    requires FindPullPeer(mq.qrepo.value, world, source) == Ok(None)
    requires FindPullPeer(repo, world, source) == Ok(None)
    ensures Pull(world, repo, mq, source, opts) == Err(RepoError(PullLocation(repo, source)))
    ensures PullAsWritten(world, repo, mq, source, opts) == Err(AttributeError("local"))
  {
    assert PullStage(world, repo, mq, source, opts) == Redirect(mq.qrepo.value, Basename(mq.path), None);
  }

  /** The pull counterpart: an unconfigured `default` that nothing answers at crashes the
      pull wrapper as written; the corrected one re-raises the `RepoError` for `default`. */
  lemma PullAsWrittenCrashesWithoutDefault(repo: Repo, qrepo: Repo, path: string)
    requires repo.paths == map[] && qrepo.paths == map[]
    ensures PullAsWritten(World(map[]), repo, MqState(path, Some(qrepo)), Default, Opts(true, map[]))
         == Err(AttributeError("local"))
    ensures Pull(World(map[]), repo, MqState(path, Some(qrepo)), Default, Opts(true, map[]))
         == Err(RepoError(Default))
  {
    NoDefaultPullLocation(qrepo);
    NoDefaultPullLocation(repo);
    var world, mq, opts := World(map[]), MqState(path, Some(qrepo)), Opts(true, map[]);
    assert PullStage(world, repo, mq, Default, opts) == Redirect(qrepo, Basename(path), None);
  }

  /** With no aliases configured, a push without destination finds no peer in an empty world. */
  lemma NoDefaultPushLocation(repo: Repo)
    requires repo.paths == map[]
    ensures FindPushPeer(repo, World(map[]), None) == Ok(None)
  {
    assert '#' !in DefaultPush;
    assert PushLocation(repo, None) == DefaultPush;
  }

  /** With no aliases configured, a pull from `default` finds no peer in an empty world. */
  lemma NoDefaultPullLocation(repo: Repo)
    requires repo.paths == map[]
    ensures FindPullPeer(repo, World(map[]), Default) == Ok(None)
  {
    assert '#' !in Default;
    assert PullLocation(repo, Default) == Default;
  }
}
