/** Path and location arithmetic used by the queue extension. */
module Paths {
  import opened Strings

  predicate IsAbsolute(p: string)
  {
    |p| > 0 && p[0] == '/'
  }

  /** Python's two-argument `os.path.join` on POSIX: an absolute second part replaces the
      first; otherwise one `/` separates them unless the first is empty or already ends in `/`. */
  function Join(a: string, b: string): (r: string)
    ensures EndsWith(r, b)
    ensures IsAbsolute(b) ==> r == b
    ensures !IsAbsolute(b) ==> r == a + b || r == a + "/" + b
    ensures !IsAbsolute(b) && a != [] && !EndsWith(a, "/") ==> r == a + "/" + b
    ensures !IsAbsolute(b) && (a == [] || EndsWith(a, "/")) ==> r == a + b
  {
    if IsAbsolute(b) then b
    else if a == [] || EndsWith(a, "/") then a + b
    else a + "/" + b
  }

  /** Python's `os.path.basename`: the text after the last `/`. */
  function Basename(p: string): (r: string)
    ensures '/' !in r
    ensures EndsWith(p, r)
    ensures |r| == |p| || p[|p| - |r| - 1] == '/'
  {
    AfterLast(p, '/')
  }

  /** The location part of `hg.parseurl`: everything before the `#branch` fragment. */
  function ParseUrl(location: string): (url: string)
    ensures '#' !in url
    ensures StartsWith(location, url)
    ensures '#' !in location ==> url == location
    ensures |url| == |location| || location[|url|] == '#'
  {
    location[..IndexOf(location, '#')]
  }

  /** Where a queue named `qname` lives inside a local peer's repository path, which is
      its `.hg` control directory (remotehq/remotehq.py:80 and :125). */
  function LocalQueuePath(root: string, qname: string): string
  {
    root + "/" + qname
  }

  /** Where a queue named `qname` is addressed on a remote peer: the peer's location, a `/`
      only if it does not already end in one, then `.hg/` and the queue's directory name. */
  function RemoteQueuePath(url: string, qname: string): (p: string)
    ensures StartsWith(p, url)
    ensures EndsWith(p, "/.hg/" + qname)
    ensures EndsWith(url, "/") <==> |p| == |url| + 4 + |qname|
    ensures !EndsWith(url, "/") <==> |p| == |url| + 5 + |qname|
  {
    var base := if EndsWith(url, "/") then url else url + "/";
    assert EndsWith(base, "/");
    base + ".hg/" + qname
  }

  /** Normalisation: a location with or without its trailing `/` addresses the same queue. */
  lemma {:induction false} RemoteQueuePathNormalises(url: string, qname: string)
    requires !EndsWith(url, "/")
    ensures RemoteQueuePath(url + "/", qname) == RemoteQueuePath(url, qname)
  {
    assert EndsWith(url + "/", "/");
  }
}
