/** Peer resolution for push (`find_push_peer`) and pull (`find_pull_peer`). */
module Peers {
  import opened Wrappers
  import opened Paths
  import opened Hg

  /** The alias a push without destination uses first, and the one it falls back to. */
  const DefaultPush := "default-push"
  const Default := "default"

  /** Python's `value or fallback` on an optional string: `None` and `""` are both false. */
  function OrDefault(value: Option<string>, fallback: string): (r: string)
    ensures value.None? || value == Some([]) ==> r == fallback
    ensures value.Some? && value.value != [] ==> r == value.value
  {
    if value.None? || value.value == [] then fallback else value.value
  }

  /** The `[paths]` section defines `alias` with a non-empty location. */
  predicate Configured(paths: map<string, string>, alias: string)
  {
    alias in paths && paths[alias] != []
  }

  /** `ui.expandpath(loc, default)`: the location configured for `loc`, else the one
      configured for `default`, else `loc` itself. */
  function ExpandPath(paths: map<string, string>, loc: string, default: Option<string>): (r: string)
    ensures Configured(paths, loc) ==> r == paths[loc]
    ensures !Configured(paths, loc) && default.Some? && Configured(paths, default.value) ==> r == paths[default.value]
    ensures !Configured(paths, loc) && (default.None? || !Configured(paths, default.value)) ==> r == loc
  {
    if Configured(paths, loc) then paths[loc]
    else if default.Some? && Configured(paths, default.value) then paths[default.value]
    else loc
  }

  /** `hg.peer` on `url`: the peer there, or `RepoError`; the failure is swallowed (no peer)
      only when `url` is literally the `tolerated` default alias. */
  function Connect(world: World, url: string, tolerated: string): (r: Result<Option<Peer>, Error>)
    ensures url in world.peers ==> r == Ok(Some(world.peers[url]))
    ensures r == Ok(None) <==> url !in world.peers && url == tolerated
    ensures r.Err? <==> url !in world.peers && url != tolerated
    ensures r.Err? ==> r.error == RepoError(url)
  {
    if url in world.peers then Ok(Some(world.peers[url]))
    else if url == tolerated then Ok(None)
    else Err(RepoError(url))
  }

  /** The location a push to `dest` resolves to in `repo`'s configuration. */
  function PushLocation(repo: Repo, dest: Option<string>): string
  {
    ParseUrl(ExpandPath(repo.paths, OrDefault(dest, DefaultPush), Some(OrDefault(dest, Default))))
  }

  /** `find_push_peer`: the peer at the push location, nothing when that location is the
      unreachable `default-push` alias, and `RepoError` for any other unreachable location. */
  function FindPushPeer(repo: Repo, world: World, dest: Option<string>): (r: Result<Option<Peer>, Error>)
    ensures PushLocation(repo, dest) in world.peers ==> r == Ok(Some(world.peers[PushLocation(repo, dest)]))
    ensures r == Ok(None) <==> PushLocation(repo, dest) !in world.peers && PushLocation(repo, dest) == DefaultPush
    ensures r.Err? <==> PushLocation(repo, dest) !in world.peers && PushLocation(repo, dest) != DefaultPush
    ensures r.Err? ==> r.error == RepoError(PushLocation(repo, dest))
  {
    Connect(world, PushLocation(repo, dest), DefaultPush)
  }

  /** The location a pull from `source` resolves to in `repo`'s configuration. */
  function PullLocation(repo: Repo, source: string): string
  {
    ParseUrl(ExpandPath(repo.paths, source, None))
  }

  /** `find_pull_peer`: the peer at the pull location, nothing when that location is the
      unreachable `default` alias, and `RepoError` for any other unreachable location. */
  function FindPullPeer(repo: Repo, world: World, source: string): (r: Result<Option<Peer>, Error>)
    ensures PullLocation(repo, source) in world.peers ==> r == Ok(Some(world.peers[PullLocation(repo, source)]))
    ensures r == Ok(None) <==> PullLocation(repo, source) !in world.peers && PullLocation(repo, source) == Default
    ensures r.Err? <==> PullLocation(repo, source) !in world.peers && PullLocation(repo, source) != Default
    ensures r.Err? ==> r.error == RepoError(PullLocation(repo, source))
  {
    Connect(world, PullLocation(repo, source), Default)
  }

  /** A push without destination uses the `default-push` alias, then `default`, and
      otherwise the literal `default-push`. */
  lemma PushWithoutDestination(repo: Repo, dest: Option<string>)
    requires dest.None? || dest == Some([])
    ensures Configured(repo.paths, DefaultPush) ==> PushLocation(repo, dest) == ParseUrl(repo.paths[DefaultPush])
    ensures !Configured(repo.paths, DefaultPush) && Configured(repo.paths, Default)
      ==> PushLocation(repo, dest) == ParseUrl(repo.paths[Default])
    ensures !Configured(repo.paths, DefaultPush) && !Configured(repo.paths, Default)
      ==> PushLocation(repo, dest) == DefaultPush
  {
    assert '#' !in DefaultPush;
  }

  /** An explicit push destination that is neither an alias nor reachable is an error,
      unless it is spelled exactly `default-push`. */
  lemma ExplicitPushDestinationMustExist(repo: Repo, world: World, dest: string)
    requires dest != [] && '#' !in dest && !Configured(repo.paths, dest)
    requires dest !in world.peers
    ensures dest != DefaultPush ==> FindPushPeer(repo, world, Some(dest)) == Err(RepoError(dest))
    ensures dest == DefaultPush ==> FindPushPeer(repo, world, Some(dest)) == Ok(None)
  {
  }

  /** An unconfigured `default` source that nothing answers at is tolerated; any other
      unreachable source is an error. */
  lemma PullSourceTolerance(repo: Repo, world: World, source: string)
    requires '#' !in source && !Configured(repo.paths, source)
    requires source !in world.peers
    ensures source == Default ==> FindPullPeer(repo, world, source) == Ok(None)
    ensures source != Default ==> FindPullPeer(repo, world, source) == Err(RepoError(source))
  {
  }
}
