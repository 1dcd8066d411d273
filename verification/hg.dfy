/** The Mercurial objects the extension touches, reduced to plain data. */
module Hg {
  import opened Wrappers
  import RegistryFile

  /** A repository: `path` is Mercurial's `repo.path` (the control directory the opener
      reads `patches.queues` from), `registry` that file, `existing` the filesystem paths
      `os.path.exists` reports, and `paths` the `[paths]` aliases of the repository's ui. */
  datatype Repo = Repo(
    path: string,
    registry: RegistryFile.File,
    existing: set<string>,
    paths: map<string, string>)

  /** A connected peer: a local repository object, or a remote location with the
      capabilities its server advertised and the server-side repository its wire
      commands act on. */
  datatype Peer =
    | Local(repo: Repo)
    | Remote(url: string, caps: seq<string>, server: Repo)

  /** The peers `hg.peer` can connect to, by location; any other location raises `RepoError`. */
  datatype World = World(peers: map<string, Peer>)

  /** The exceptions the extension raises or lets through. */
  datatype Error =
    | Abort(message: string, hint: Option<string>)
    | RepoError(location: string)
    | AttributeError(attribute: string)
    | NameError(name: string)
}
