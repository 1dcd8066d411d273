# remotehq queue replication, and the wiki's edit decision, in Dafny

This project models the `remotehq` Mercurial extension. The extension carries a repository's
mq patch queue along when the repository is pushed or pulled. It has five parts:

- **Two queue names.** The directory name keeps the `patches-` prefix. The registry name
  drops its first 8 characters, except for the default queue `patches`.
- **The registry.** This is the control file `patches.queues`, with one registry name per line.
  `has_queue` reads it and `create_queue` appends to it. `create_queue` also creates the
  queue's repository.
- **Wire commands and capability.** The wire commands are `has_queue` and `create_queue`. The
  capability token is `remotemq`.
- **Peer resolution.** This looks up `[paths]` aliases. Failure is tolerated only for the
  default alias.
- **The push/pull wrappers.** Without `--mq` they pass the call through. If the queue
  repository has its own configured peer, that explicit override wins. Otherwise the queue
  repository is redirected to the queue's location inside the primary repository's peer,
  in its `.hg` directory.

It also models the pure parts of the wiki's edit page: `sanitize_newline`, the missing-file
fallbacks of `get_file_node` and `get_file_data`, and the optimistic-concurrency decision
taken when an edit is posted.

Mercurial is reduced to plain data:

- A `Hg.Repo` is `repo.path` (the control directory the opener resolves `patches.queues`
  against), the registry file, the set of existing paths, and the `[paths]` aliases.
- A `Hg.Peer` is `Local(repo)` or `Remote(url, caps, server)`. The server-side repository
  is the one the remote's wire commands act on.
- A `Hg.World` maps each location `hg.peer` can reach to its peer.
- The wrapped command `orig` is not executed. Push and pull return the `Transfer` they would
  hand to it: the repository, the location and the passed-through options. Push also
  returns the redirect peer as provisioning left it.

Where the source's behaviour departs from its evident intent, the model states both the
behaviour as written and a corrected version (see Findings):

- A missing primary peer reaches `peer.local()` on `None` in both wrappers. The corrected
  wrappers raise the `RepoError` that peer resolution swallowed.
- The pull passthrough names the undefined variable `dest`. The corrected passthrough hands
  over `source`.
- `create_queue` keeps the registry free of duplicates only when the registry name reads
  back from its own line and the file ends in a newline. Otherwise it appends a line on
  every call, or merges the new name into an unfinished last line. The corrected
  `RemoteHq.CreateQueueGuarded` completes the last line first and writes no name that
  could never read back. `Interceptor.Push` and `RemoteHq.WireCreateQueue` use the
  corrected version. `Interceptor.PushAsWritten` and `RemoteHq.WireCreateQueueAsWritten`
  keep the source's `create_queue`. `Interceptor.PushProvisionsLikeAsWritten` shows that the
  two pushes are identical when the peer's registry file ends in a newline and the
  registry name is clean.

A local-peer pull checks the registry of the primary repository, not the peer's registry.
That is modelled as written (`Interceptor.PullLocalConsultsPrimary`).

## Model

| member | source | states |
|---|---|---|
| `QueueNames.RegistryName` | remotehq/remotehq.py:13-14 | `patches` maps to itself; any other name of at most 8 characters maps to the empty name; a longer one is its first 8 characters followed by the registry name, so `patches-x` maps to `x` |
| `QueueNames.RegistryOfDirectory` | remotehq/remotehq.py:13-14 | every registry name converts back to itself through its directory name (`patches` or `patches-` + name) |
| `QueueNames.DirectoryOfRegistry` | remotehq/remotehq.py:13-14 | a directory name that is `patches`, or carries the prefix and is not `patches-patches`, is recovered from its registry name |
| `QueueNames.PrefixedDefaultCollides` | remotehq/remotehq.py:13-14 | `patches-patches` and `patches` share one registry line, so the conversion is not injective |
| `Strings.Strip` | remotehq/remotehq.py:18 | the result is the input with its leading and trailing whitespace removed: a slice of the input with only whitespace around it, itself without whitespace at either end; unchanged when the line had none, and empty exactly when the line is all whitespace |
| `Strings.StripIgnoresNewline` | remotehq/remotehq.py:17-18 | a line read with its newline terminator strips to the same value as without it, so lines may be modelled without terminators |
| `RegistryFile.Lines` | remotehq/remotehq.py:17-18 | the lines of the registry text contain no newline, and an empty text has no lines |
| `RegistryFile.LinesRoundTrip` | remotehq/remotehq.py:17-18 | the lines, written back each with its `\n`, give the text again; an unfinished last line gains its terminator |
| `RegistryFile.UnlinesRoundTrip` | remotehq/remotehq.py:17-18 | lines without newlines, written with terminators, are read back as exactly those lines |
| `RegistryFile.Queues` | remotehq/remotehq.py:18 | the queue list holds exactly the non-blank stripped lines |
| `RegistryFile.LinesConcat` | remotehq/remotehq.py:29-30 | appending to text whose last line is complete keeps all earlier lines and adds the lines of the appended text after them |
| `RegistryFile.AppendLine` | remotehq/remotehq.py:29-30 | writing `name\n` to a complete file adds exactly the line `name`, keeps the file complete, and makes a clean name readable by stripping |
| `RegistryFile.StripsToSurvivesAppend` | remotehq/remotehq.py:29-30 | a line matching a name still matches after anything is appended to a complete file |
| `RemoteHq.Capabilities` | remotehq/remotehq.py:6-9 | the capability list keeps the original entries in place and gains `remotemq` as its new last entry, whatever the original list held |
| `RemoteHq.HasQueue` | remotehq/remotehq.py:12-23 | false for an absent registry file; otherwise true iff the registry name is non-blank and some line strips to it |
| `RemoteHq.CreateQueue` | remotehq/remotehq.py:26-35 | the registry file is either left alone or grows by exactly the registry name plus newline; on a complete file, and when the registry name contains no newline, that is exactly one more line; a complete file stays complete; the path `os.path.join(repo.path, qname)` exists afterwards; the path and `[paths]` are unchanged |
| `RemoteHq.CreateQueueWritesOnlyWhenMissing` | remotehq/remotehq.py:26-31 | the registry file is written if and only if `has_queue` was false beforehand |
| `RemoteHq.CreateQueueRegisters` | remotehq/remotehq.py:26-35 | on a complete file, a clean name is registered afterwards, whether or not it was before |
| `RemoteHq.CreateQueueIdempotent` | remotehq/remotehq.py:26-35 | for a clean name and a complete file, a second `create_queue` changes nothing (no duplicate line, no second repository) |
| `RemoteHq.CreateQueueMonotonic` | remotehq/remotehq.py:26-31 | on a complete file, a queue that is registered stays registered after any `create_queue` |
| `RemoteHq.CreateQueueRepeatsBlankName` | remotehq/remotehq.py:26-31 | as written, `create_queue("patches-")` on an empty registry writes a blank line, and a second call writes another |
| `RemoteHq.CreateQueueMergesUnfinishedLine` | remotehq/remotehq.py:26-31 | as written, on a registry holding the unfinished line `a`, where `patches-a` is registered, creating `patches-b` leaves the single line `ab` and `patches-a` is no longer registered |
| `RemoteHq.CreateQueueGuarded` | remotehq/remotehq.py:26-35 | corrected `create_queue`: the registry file is left alone, and always when the name cannot read back, or it becomes a complete file with exactly the registry name added as the last line; the queue's path exists afterwards; the path and `[paths]` are unchanged |
| `RemoteHq.CreateQueueGuardedWritesOnlyWhenMissing` | remotehq/remotehq.py:26-31 | the corrected version writes the registry file if and only if the queue is not registered yet and its registry name is clean; an already-registered queue never gains a second line |
| `RemoteHq.CreateQueueGuardedRegisters` | remotehq/remotehq.py:26-35 | the corrected version registers every clean name, whether or not the file's last line was complete |
| `RemoteHq.CreateQueueGuardedIdempotent` | remotehq/remotehq.py:26-35 | the corrected version is idempotent for every registry file and every name |
| `RemoteHq.CreateQueueGuardedMonotonic` | remotehq/remotehq.py:26-31 | under the corrected version a registered queue stays registered, whatever state the file was in |
| `RemoteHq.CreateQueueGuardedAgrees` | remotehq/remotehq.py:26-35 | on a complete file and a clean name, the corrected version does exactly what the source does |
| `RemoteHq.WireHasQueue` | remotehq/remotehq.py:38-40 | the reply is the literal `"True"` or `"False"`, and `"True"` exactly when `has_queue` holds |
| `RemoteHq.WireCreateQueue` | remotehq/remotehq.py:43-46 | the reply is always `"OK"`, and the server's repository is left as the corrected `create_queue` leaves it |
| `RemoteHq.WireCreateThenHas` | remotehq/remotehq.py:38-46 | after the wire `create_queue` of a clean name, the wire `has_queue` answers `"True"`, whatever state the registry file was in |
| `RemoteHq.WireCreateQueueAsWritten` | remotehq/remotehq.py:43-46 | as written, the reply is always `"OK"`, and the server's repository is left as the source's `create_queue` leaves it |
| `RemoteHq.WireCreateAsWrittenThenHas` | remotehq/remotehq.py:38-46 | as written, after the wire `create_queue` of a clean name on a complete registry file, the wire `has_queue` answers `"True"` |
| `RemoteHq.WireCreateAsWrittenCanMiss` | remotehq/remotehq.py:26-46 | as written, on a server whose registry holds the unfinished line `a`, the wire `create_queue` of `patches-b` answers `"OK"`, yet the wire `has_queue` then answers `"False"` |
| `Peers.OrDefault` | remotehq/remotehq.py:50 | Python's `dest or default`: a missing or empty destination yields the default, any other is kept |
| `Peers.ExpandPath` | remotehq/remotehq.py:50 | an alias configured for the location wins, then one configured for the fallback, else the location itself |
| `Peers.Connect` | remotehq/remotehq.py:53-59 | a reachable location yields its peer; an unreachable one yields no peer exactly when it is the tolerated default alias, and `RepoError` for that location otherwise |
| `Peers.FindPushPeer` | remotehq/remotehq.py:49-59 | a reachable push location yields its peer; an unreachable one yields no peer exactly when it is literally `default-push`, and otherwise the `RepoError` of that location |
| `Peers.FindPullPeer` | remotehq/remotehq.py:95-103 | a reachable pull location yields its peer; an unreachable one yields no peer exactly when it is literally `default`, and otherwise the `RepoError` of that location |
| `Peers.PushWithoutDestination` | remotehq/remotehq.py:50 | a push without destination uses the `default-push` alias, falls back to `default`, and is otherwise the literal `default-push` |
| `Peers.ExplicitPushDestinationMustExist` | remotehq/remotehq.py:53-59 | an explicit destination that is neither configured nor reachable raises `RepoError`, unless it is spelled `default-push` |
| `Peers.PullSourceTolerance` | remotehq/remotehq.py:95-103 | an unconfigured, unreachable source is tolerated only when it is `default` |
| `Paths.Join` | remotehq/remotehq.py:33 | an absolute second part replaces the first; otherwise the parts are concatenated, with exactly one `/` between them when the first part is non-empty and does not end in `/`, and none otherwise |
| `Paths.Basename` | remotehq/remotehq.py:75 | the queue name is the suffix of the mq path after its last `/` and contains no `/` |
| `Paths.ParseUrl` | remotehq/remotehq.py:51 | the location is cut at its first `#`, so the `#branch` fragment goes and everything before it is kept |
| `Paths.RemoteQueuePath` | remotehq/remotehq.py:87-90 | the remote location is a prefix, the path ends in `/.hg/` + queue name, and a `/` is inserted exactly when the location did not already end in one |
| `Paths.RemoteQueuePathNormalises` | remotehq/remotehq.py:87-90 | a remote location with or without its trailing `/` addresses the same queue |
| `Interceptor.PushTo` | remotehq/remotehq.py:78-92 | a local peer gets the corrected `create_queue` directly; a remote peer without `remotemq` aborts with "default repository not configured!" and the path hint, before anything is provisioned; a capable remote gets the wire `create_queue`; every success transfers the queue repository to the queue's location on the provisioned peer |
| `Interceptor.PushToAsWritten` | remotehq/remotehq.py:78-92 | as `Interceptor.PushTo`, except that the queue is provisioned by the source's `create_queue`, directly on a local peer and through the wire command on a capable remote |
| `Interceptor.Push` | remotehq/remotehq.py:62-92 | without `--mq` the original call is passed through; without a queue repository it aborts with "no queue repository"; any transfer under `--mq` is of the queue repository; options always pass through; a provisioned peer is the one whose queue location is the target |
| `Interceptor.PushAsWritten` | remotehq/remotehq.py:62-92 | as written: without `--mq` the original call is passed through; without a queue repository it aborts with "no queue repository"; any transfer under `--mq` is of the queue repository; options always pass through; a provisioned peer is the one whose queue location is the target |
| `Interceptor.PullFrom` | remotehq/remotehq.py:122-139 | succeeds iff (local peer and the primary registry names the queue) or (remote with `remotemq` and the server names it); every refusal is "repository default not found!"; success targets the queue's location on the peer |
| `Interceptor.Pull` | remotehq/remotehq.py:106-139 | the corrected passthrough hands over `source`; without a queue repository it aborts with "no queue repository"; any transfer under `--mq` is of the queue repository, with options passed through |
| `Interceptor.PullAsWritten` | remotehq/remotehq.py:106-139 | as written: without `--mq` it raises `NameError` for `dest`; without a queue repository it aborts with "no queue repository"; a transfer only happens under `--mq`, of the queue repository, with options passed through |
| `Interceptor.PushOverrideWins` | remotehq/remotehq.py:71-73 | when the queue repository resolves its own push peer, it is pushed to the original destination, and the primary repository does not affect the outcome |
| `Interceptor.PullOverrideWins` | remotehq/remotehq.py:115-117 | when the queue repository resolves its own pull peer, it pulls from the original source, and the primary repository does not affect the outcome |
| `Interceptor.PushRedirectIsPushTo` | remotehq/remotehq.py:75-92 | when the queue repository resolves no push peer of its own and the primary repository resolves one, the push is the redirect to that peer, with the base name of the mq directory as queue name |
| `Interceptor.PushAsWrittenRedirectIsPushToAsWritten` | remotehq/remotehq.py:75-92 | when the queue repository resolves no push peer of its own and the primary repository resolves one, the source's push is the as-written redirect to that peer, provisioning the queue by the source's `create_queue` |
| `Interceptor.PullRedirectIsPullFrom` | remotehq/remotehq.py:119-139 | the same for pull |
| `Interceptor.PushLocalProvisions` | remotehq/remotehq.py:78-80 | a push redirected to a local peer registers a clean queue name there; the transfer target is the very directory `create_queue` ensured exists |
| `Interceptor.PushRemoteProvisions` | remotehq/remotehq.py:81-90 | a push redirected to a capable remote makes the server register a clean queue name and create its directory; the queue repository goes to the remote location + `.hg/` + queue name |
| `Interceptor.AdvertisedServerAcceptsPush` | remotehq/remotehq.py:6-9 | a remote peer advertising the extended capability list is accepted by the push redirect |
| `Interceptor.PushReportsQueueResolutionError` | remotehq/remotehq.py:53-59 | under `--mq`, a resolution error for the queue repository's push location is what `push` raises |
| `Interceptor.PushReportsPrimaryResolutionError` | remotehq/remotehq.py:75-78 | under `--mq`, when the queue repository has no push peer, a resolution error for the primary repository's push location is what `push` raises |
| `Interceptor.PullReportsQueueResolutionError` | remotehq/remotehq.py:97-103 | under `--mq`, a resolution error for the queue repository's pull location is what `pull` raises |
| `Interceptor.PullReportsPrimaryResolutionError` | remotehq/remotehq.py:119-122 | under `--mq`, when the queue repository has no pull peer, a resolution error for the primary repository's pull location is what `pull` raises |
| `Interceptor.PushRemoteIncapableAborts` | remotehq/remotehq.py:82-84 | a push redirected to a remote without `remotemq` aborts with "default repository not configured!" and the path hint |
| `Interceptor.PullRefusalsShareMessage` | remotehq/remotehq.py:122-132 | a local registry miss, a remote without the capability and a `has_queue` reply other than `"True"` all abort with the identical "repository default not found!" |
| `Interceptor.PullLocalConsultsPrimary` | remotehq/remotehq.py:122-125 | a pull from a local peer succeeds iff the primary repository's registry names the queue, whatever the peer's own registry holds |
| `Interceptor.PushPullSameLocation` | remotehq/remotehq.py:78-90 | push and pull redirected through the same peer address the queue at the same location |
| `Interceptor.PullAsWrittenPassthroughFails` | remotehq/remotehq.py:106-109 | without `--mq` the wrapper as written raises `NameError` for `dest`; the corrected one passes the original call through with `source` |
| `Interceptor.PullAgreesWithAsWritten` | remotehq/remotehq.py:111-139 | with `--mq`, the corrected pull equals the source wherever the source does not call `local()` on `None` |
| `Interceptor.PushAsWrittenCrashesWithoutDefault` | remotehq/remotehq.py:76-78 | with no aliases and nothing reachable, the push wrapper as written raises `AttributeError`; the corrected one raises the `RepoError` for `default-push` |
| `Interceptor.PushAgreesWithAsWritten` | remotehq/remotehq.py:62-92 | wherever the source does not call `local()` on `None`, the corrected push succeeds exactly when the source's does, fails with the same error, and makes the same wrapped call |
| `Interceptor.PushProvisionsLikeAsWritten` | remotehq/remotehq.py:75-92 | for a redirected push whose peer's registry file ends in a newline and whose registry name is clean, the corrected push equals the source's, the provisioned peer included |
| `Interceptor.PushToAgrees` | remotehq/remotehq.py:78-92 | on a peer whose registry file ends in a newline, a clean queue name is provisioned alike by the corrected redirect and by the source's |
| `Interceptor.PushMissingPrimaryPeer` | remotehq/remotehq.py:71-78 | when neither repository resolves a push peer, the corrected push raises the `RepoError` for the primary repository's push location, and the source's raises `AttributeError` |
| `Interceptor.PullMissingPrimaryPeer` | remotehq/remotehq.py:115-122 | when neither repository resolves a pull peer, the corrected pull raises the `RepoError` for the primary repository's pull location, and the source's raises `AttributeError` |
| `Interceptor.PullAsWrittenCrashesWithoutDefault` | remotehq/remotehq.py:120-122 | with no aliases and nothing reachable, the pull wrapper as written raises `AttributeError`; the corrected one raises the `RepoError` for `default` |
| `Interceptor.NoDefaultPushLocation` | remotehq/remotehq.py:49-59 | with no aliases configured, a push without destination finds no peer in an empty world |
| `Interceptor.NoDefaultPullLocation` | remotehq/remotehq.py:95-103 | with no aliases configured, a pull from `default` finds no peer in an empty world |
| `Wiki.GetFileNode` | wiki/wiki.py:60-64 | the node `repo[rev][filename].node()` returns at a known revision, `None` when the file is missing there, and an uncaught error for an unknown revision |
| `Wiki.GetFileData` | wiki/wiki.py:67-71 | the contents of the file at a known revision, `""` when the file is missing there, and an uncaught error for an unknown revision |
| `Wiki.NodeAndDataAgree` | wiki/wiki.py:60-71 | both lookups fail together; a missing node goes with empty data; a present node goes with the data of that very file at that revision: the stored file is exactly that node and that data |
| `Wiki.ReplaceCrlf` | wiki/wiki.py:75 | never lengthens the text, leaves text without CRLF unchanged, and keeps the last character |
| `Wiki.ReplaceCrlfDropsCr` | wiki/wiki.py:75 | the one-pass replacement equals deleting every `\r` that the input has directly before a `\n` |
| `Wiki.SanitizeNewline` | wiki/wiki.py:74-80 | the result ends with `\n`; it is the CRLF-replaced text, unchanged when that already ends with `\n` and otherwise with one `\n` added; so it is at most one character longer than the input |
| `Wiki.SanitizeCanLeaveCrlf` | wiki/wiki.py:75 | `"\r\r\n"` sanitises to `"\r\n"`, so a CRLF can remain and sanitising is not idempotent |
| `Wiki.EditPost` | wiki/wiki.py:113-138 | the content is sanitised; an edit on the current head commits; a stale parent commits on the head iff the node `repo[rev][filename].node()` returns is equal at both revisions, and fails if either revision is unknown; a commit is always on the head; otherwise the conflict carries the file at the parent and at the head |
| `Wiki.MissingAtBothCommits` | wiki/wiki.py:123-128 | a file missing at both the stale parent and the head counts as unchanged, so the edit commits on the head |

## Left out

- Mercurial internals are not part of this model. `hg.peer` is a lookup in `World`, and
  `ui.expandpath` is a `[paths]` lookup without its URL and local-directory short cut.
  `hg.parseurl` only removes the `#branch` fragment; the branches it returns are unused by
  the source anyway. `repo.mq.qrepo()` and `repo.mq.path` are inputs.
- The data transfer itself (`orig`) is not executed. Push and pull return the call they
  would make.
- `peer._call` transport failures and network errors are left out. A capable remote is taken
  to run this extension's wire commands on its `server` repository.
- `hg.repository(create=True)` is modelled as adding the path to the existing paths. Its
  on-disk layout and any failure to create are left out.
- An existing registry file that cannot be opened for appending is left out: I/O errors
  other than a missing file are not modelled.
- The check-then-act race between concurrent `create_queue` callers, and the wiki's
  `repo.wlock`, are concurrency concerns and are left out.
- RemoteHq.WireCreateQueue: describes the corrected provisioning, not the source's
  `create_queue`; the source's is `RemoteHq.WireCreateQueueAsWritten`.
- RemoteHq.WireCreateThenHas: holds of the corrected provisioning only; as written it needs a
  registry file that ends in a newline (`RemoteHq.WireCreateAsWrittenThenHas`), and
  `RemoteHq.WireCreateAsWrittenCanMiss` shows it failing otherwise.
- Interceptor.PushTo: describes the corrected provisioning; the source's is
  `Interceptor.PushToAsWritten`.
- Interceptor.PushLocalProvisions: describes the corrected provisioning; for the source's
  push it carries over through `Interceptor.PushProvisionsLikeAsWritten` only when the
  peer's registry file ends in a newline.
- Interceptor.PushRemoteProvisions: describes the corrected provisioning; for the source's
  push it carries over through `Interceptor.PushProvisionsLikeAsWritten` only when the
  server's registry file ends in a newline.
- `extsetup` (the wrapping of `_capabilities`, push and pull) is registration plumbing.
  `Interceptor.Push`, `Interceptor.Pull` and `RemoteHq.Capabilities` are the wrapped
  functions themselves.
- Wiki: Flask routing, templates, redirects, Beaker sessions, CSRF tokens (`os.urandom`),
  login and password checking, `add_user`, `init` and `run` are web, crypto and I/O
  plumbing. Also left out: the GET branch of the edit page, the commit itself
  (`commit_one_file`, `memctx`) and the bookmark move after it. The decision returns the
  revision the commit goes on.
- Wiki: text encoding (`.encode('utf-8')`) is left out; strings are sequences of characters.
- Wiki: an unknown revision is modelled as an error the page does not catch. Mercurial's
  exception classes are not part of this model.

## Findings

| source | as written | input that shows it | evidently intended | confidence | as-written member | corrected member |
|---|---|---|---|---|---|---|
| remotehq/remotehq.py:106-109 | the pull passthrough calls `orig(ui, repo, dest, **opts)`, but `dest` is not defined in `pull`, so `NameError` is raised | any `pull` without `--mq` while the extension is loaded | pass the call through with `source` | high; not executed | `Interceptor.PullAsWrittenPassthroughFails` | `Interceptor.Pull` |
| remotehq/remotehq.py:76-78 | `find_push_peer(repo, ...)` returns `None` when `default-push` is unconfigured and unreachable; `peer.local()` is then called on `None` | `push --mq` with no destination, and no `default-push` or `default` alias in either repository | re-raise the `RepoError` the resolution swallowed | high; not executed | `Interceptor.PushAsWrittenCrashesWithoutDefault` | `Interceptor.Push` |
| remotehq/remotehq.py:26-31 | `create_queue` appends `name\n` whenever `has_queue` is false, but a blank registry name never reads back | `create_queue(repo, "patches-")` twice on an empty registry | write no line that `has_queue` can never match, so repeated calls change nothing | medium; not executed | `RemoteHq.CreateQueueRepeatsBlankName` | `RemoteHq.CreateQueueGuarded` |
| remotehq/remotehq.py:29-30 | the append does not first end an unfinished last line, so the new name merges into it | registry text `a`, then `create_queue(repo, "patches-b")` | keep existing registrations and add the new one as its own line | medium; not executed | `RemoteHq.CreateQueueMergesUnfinishedLine` | `RemoteHq.CreateQueueGuarded` |
| remotehq/remotehq.py:120-122 | `find_pull_peer(repo, ...)` returns `None` when `default` is unconfigured and unreachable; `peer.local()` is then called on `None` | `pull --mq` with no source, and no `default` alias in either repository | re-raise the `RepoError` the resolution swallowed | high; not executed | `Interceptor.PullAsWrittenCrashesWithoutDefault` | `Interceptor.Pull` |
