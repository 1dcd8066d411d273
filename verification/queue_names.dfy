/** The two spellings of a queue: its directory name (prefix kept) and its registry name
    (prefix dropped, except for the default queue). */
module QueueNames {
  import opened Strings

  /** The default queue's name, which is its own directory and registry name. */
  const DefaultQueue := "patches"

  /** The prefix every other queue directory carries; its length is the 8 characters
      the registry conversion drops. */
  const QueuePrefix := "patches-"

  /** The registry name stored for the queue whose directory name is `dir`:
      the default queue maps to itself, any other name loses its first 8 characters. */
  function RegistryName(dir: string): (reg: string)
    ensures dir == DefaultQueue ==> reg == DefaultQueue
    ensures dir != DefaultQueue && |dir| <= |QueuePrefix| ==> reg == []
    ensures dir != DefaultQueue && |QueuePrefix| < |dir| ==> dir == dir[..|QueuePrefix|] + reg
    ensures StartsWith(dir, QueuePrefix) ==> dir == QueuePrefix + reg
  {
    if dir == DefaultQueue then dir else Drop(dir, |QueuePrefix|)
  }

  /** The directory name of the queue registered as `reg` (mq's naming convention). */
  function DirectoryName(reg: string): (dir: string)
    ensures reg == DefaultQueue ==> dir == DefaultQueue
    ensures reg != DefaultQueue ==> StartsWith(dir, QueuePrefix)
  {
    if reg == DefaultQueue then reg else QueuePrefix + reg
  }

  /** A directory name that follows the convention and is not ambiguous. */
  predicate WellFormedDirectory(dir: string)
  {
    dir == DefaultQueue || (StartsWith(dir, QueuePrefix) && dir != QueuePrefix + DefaultQueue)
  }

  /** Every registry name converts back to itself through its directory name. */
  lemma {:induction false} RegistryOfDirectory(reg: string)
    ensures RegistryName(DirectoryName(reg)) == reg
  {
    if reg != DefaultQueue {
      var dir := QueuePrefix + reg;
      assert dir != DefaultQueue by {
        assert |dir| >= 8 && |DefaultQueue| == 7;
      }
      if |dir| > |QueuePrefix| {
        assert dir[|QueuePrefix|..] == reg;
      }
    }
  }

  /** Well-formed directory names round-trip through their registry name. */
  lemma {:induction false} DirectoryOfRegistry(dir: string)
    requires WellFormedDirectory(dir)
    ensures DirectoryName(RegistryName(dir)) == dir
  {
    if dir != DefaultQueue {
      var reg := RegistryName(dir);
      assert dir == QueuePrefix + reg;
      assert reg != DefaultQueue;
    }
  }

  /** The conversion is not injective: `patches-patches` shares its registry line with the
      default queue, so the registry cannot tell the two apart. */
  lemma PrefixedDefaultCollides()
    ensures RegistryName(QueuePrefix + DefaultQueue) == RegistryName(DefaultQueue)
    ensures QueuePrefix + DefaultQueue != DefaultQueue
  {
    assert (QueuePrefix + DefaultQueue)[|QueuePrefix|..] == DefaultQueue;
  }
}
