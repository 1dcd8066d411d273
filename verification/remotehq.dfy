/** The queue registry, queue provisioning, the two wire commands and the capability
    advertisement of the `remotehq` extension. */
module RemoteHq {
  import opened Strings
  import opened Paths
  import opened QueueNames
  import opened RegistryFile
  import opened Hg

  /** The capability token the extension adds. */
  const Capability := "remotemq"

  /** The capability list with the extension's token appended at the end. */
  function Capabilities(base: seq<string>): (caps: seq<string>)
    ensures Capability in caps
    ensures |caps| == |base| + 1 && caps[..|base|] == base
    ensures caps[|base|] == Capability
    ensures forall c :: c in caps <==> c in base || c == Capability
  {
    base + [Capability]
  }

  /** A registry name that reads back from its own line: non-blank, with no surrounding
      whitespace and no newline inside. */
  predicate Clean(reg: string)
  {
    reg != [] && Trimmed(reg) && '\n' !in reg
  }

  /** `has_queue`: whether the registry names the queue with directory name `name`.
      An absent (unreadable) registry names nothing, and blank lines never match. */
  function HasQueue(repo: Repo, name: string): (b: bool)
    ensures repo.registry.Absent? ==> !b
    ensures b <==> RegistryName(name) != [] && StripsTo(FileLines(repo.registry), RegistryName(name))
  {
    match repo.registry
    case Absent => false
    case Text(t) => RegistryName(name) in Queues(Lines(t))
  }

  /** `create_queue`: registers the queue unless already registered, and creates its
      repository at `repo.path` joined with the directory name unless that path exists. */
  function CreateQueue(repo: Repo, qname: string): (r: Repo)
    ensures r.path == repo.path && r.paths == repo.paths
    ensures r.registry == repo.registry || Content(r.registry) == Content(repo.registry) + (RegistryName(qname) + "\n")
    ensures r.existing == repo.existing + {Join(repo.path, qname)}
    ensures Terminated(repo.registry) ==> Terminated(r.registry)
    ensures Terminated(repo.registry) && '\n' !in RegistryName(qname)
      ==> r.registry == repo.registry || FileLines(r.registry) == FileLines(repo.registry) + [RegistryName(qname)]
  {
    var name := RegistryName(qname);
    var path := Join(repo.path, qname);
    var existing := if path in repo.existing then repo.existing else repo.existing + {path};
    AppendLineIfTerminated(repo.registry, name);
    var registry := if HasQueue(repo, qname) then repo.registry else Append(repo.registry, name + "\n");
    repo.(registry := registry, existing := existing)
  }

  /** The registry file is written exactly when it does not already name the queue. */
  lemma CreateQueueWritesOnlyWhenMissing(repo: Repo, qname: string)
    ensures HasQueue(repo, qname) <==> CreateQueue(repo, qname).registry == repo.registry
  {
  }

  /** Afterwards a clean name is registered, provided the file's last line was complete. */
  lemma CreateQueueRegisters(repo: Repo, qname: string)
    requires Terminated(repo.registry) && Clean(RegistryName(qname))
    ensures HasQueue(CreateQueue(repo, qname), qname)
  {
    if !HasQueue(repo, qname) {
      AppendLine(repo.registry, RegistryName(qname));
    }
  }

  /** As written, a blank registry name never reads back, so every call appends another
      blank line. */
  lemma CreateQueueRepeatsBlankName(repo: Repo)
    requires repo.registry == Text("")
    ensures CreateQueue(repo, "patches-").registry == Text("\n")
    ensures CreateQueue(CreateQueue(repo, "patches-"), "patches-").registry == Text("\n\n")
  {
    assert RegistryName("patches-") == [];
    assert !HasQueue(repo, "patches-");
    var once := CreateQueue(repo, "patches-");
    assert once.registry == Text("\n");
    assert !HasQueue(once, "patches-");
    TwoBlankLines();
  }

  /** A file holding just the unfinished line `a` registers `patches-a` and not `patches-b`. */
  lemma UnfinishedLineA(repo: Repo)
    requires repo.registry == Text("a")
    ensures HasQueue(repo, "patches-a") && !HasQueue(repo, "patches-b")
  {
    assert RegistryName("patches-a") == "a";
    assert RegistryName("patches-b") == "b";
    SingleLine(repo.registry);
  }

  /** As written, a name appended to an unfinished last line merges into it, and the queue
      that line named is no longer registered. */
  lemma CreateQueueMergesUnfinishedLine(repo: Repo)
    requires repo.registry == Text("a")
    ensures HasQueue(repo, "patches-a")
    ensures FileLines(CreateQueue(repo, "patches-b").registry) == ["ab"]
    ensures !HasQueue(CreateQueue(repo, "patches-b"), "patches-a")
  {
    UnfinishedLineA(repo);
    assert RegistryName("patches-a") == "a";
    assert RegistryName("patches-b") == "b";
    var after := CreateQueue(repo, "patches-b").registry;
    assert Content(after) == "a" + ("b" + "\n");
    MergedLine(after);
  }

  lemma TwoBlankLines()
    ensures "\n" + ([] + "\n") == "\n\n"
  {
  }

  /** `create_queue` with both gaps closed: an unfinished last line is completed before
      the new line is written, and a registry name that could never read back from its
      own line is not written at all. */
  function CreateQueueGuarded(repo: Repo, qname: string): (r: Repo)
    ensures r.path == repo.path && r.paths == repo.paths
    ensures r.existing == repo.existing + {Join(repo.path, qname)}
    ensures !Clean(RegistryName(qname)) ==> r.registry == repo.registry
    ensures r.registry == repo.registry
         || (Terminated(r.registry) && FileLines(r.registry) == FileLines(repo.registry) + [RegistryName(qname)])
  {
    var name := RegistryName(qname);
    var path := Join(repo.path, qname);
    var existing := if path in repo.existing then repo.existing else repo.existing + {path};
    assert existing == repo.existing + {path};
    if HasQueue(repo, qname) || !Clean(name) then
      repo.(existing := existing)
    else
      var base := Complete(repo.registry);
      var registry := Append(base, name + "\n");
      assert Terminated(registry) && FileLines(registry) == FileLines(repo.registry) + [name] by {
        AppendLine(base, name);
      }
      repo.(registry := registry, existing := existing)
  }

  /** The corrected version writes the registry file exactly when the queue is not
      registered yet and its registry name can read back; an already-registered queue
      never gains a second line. */
  lemma CreateQueueGuardedWritesOnlyWhenMissing(repo: Repo, qname: string)
    ensures HasQueue(repo, qname) || !Clean(RegistryName(qname))
        <==> CreateQueueGuarded(repo, qname).registry == repo.registry
  {
    var r := CreateQueueGuarded(repo, qname);
    if !HasQueue(repo, qname) && Clean(RegistryName(qname)) {
      var base := Complete(repo.registry);
      AppendLine(base, RegistryName(qname));
      assert |FileLines(r.registry)| == |FileLines(repo.registry)| + 1;
    }
  }

  /** The guarded version registers every clean name, whatever state the file was in. */
  lemma CreateQueueGuardedRegisters(repo: Repo, qname: string)
    requires Clean(RegistryName(qname))
    ensures HasQueue(CreateQueueGuarded(repo, qname), qname)
  {
    if !HasQueue(repo, qname) {
      AppendLine(Complete(repo.registry), RegistryName(qname));
    }
  }

  /** The guarded version is idempotent for every file and every name. */
  lemma CreateQueueGuardedIdempotent(repo: Repo, qname: string)
    ensures CreateQueueGuarded(CreateQueueGuarded(repo, qname), qname) == CreateQueueGuarded(repo, qname)
  {
    if Clean(RegistryName(qname)) {
      CreateQueueGuardedRegisters(repo, qname);
    }
  }

  /** The guarded version never unregisters a queue, whatever state the file was in. */
  lemma {:induction false} CreateQueueGuardedMonotonic(repo: Repo, qname: string, other: string)
    requires HasQueue(repo, other)
    ensures HasQueue(CreateQueueGuarded(repo, qname), other)
  {
    var name := RegistryName(qname);
    if !HasQueue(repo, qname) && Clean(name) {
      var base := Complete(repo.registry);
      assert StripsTo(FileLines(base), RegistryName(other));
      StripsToSurvivesAppend(base, name + "\n", RegistryName(other));
    }
  }

  /** Where the written `create_queue` already behaves, the guarded version is the same. */
  lemma CreateQueueGuardedAgrees(repo: Repo, qname: string)
    requires Terminated(repo.registry) && Clean(RegistryName(qname))
    ensures CreateQueueGuarded(repo, qname) == CreateQueue(repo, qname)
  {
  }

  /** The wire command `has_queue`: the literal `"True"` or `"False"`. */
  function WireHasQueue(repo: Repo, name: string): (reply: string)
    ensures reply == "True" || reply == "False"
    ensures reply == "True" <==> HasQueue(repo, name)
  {
    if HasQueue(repo, name) then "True" else "False"
  }

  /** A wire reply together with the server-side repository after the command. */
  datatype Served = Served(reply: string, repo: Repo)

  /** The wire command `create_queue`: always `"OK"`, whether or not the queue existed. */
  function WireCreateQueue(repo: Repo, name: string): (s: Served)
    ensures s.reply == "OK"
    ensures s.repo == CreateQueueGuarded(repo, name)
  {
    Served("OK", CreateQueueGuarded(repo, name))
  }

  /** `create_queue` is idempotent: a second call adds no registry line and creates
      no second repository. */
  lemma CreateQueueIdempotent(repo: Repo, qname: string)
    requires Terminated(repo.registry) && Clean(RegistryName(qname))
    ensures CreateQueue(CreateQueue(repo, qname), qname) == CreateQueue(repo, qname)
  {
    CreateQueueRegisters(repo, qname);
  }

  /** Registration is monotonic: a queue the registry names stays named after any
      other `create_queue`. */
  lemma {:induction false} CreateQueueMonotonic(repo: Repo, qname: string, other: string)
    requires Terminated(repo.registry)
    requires HasQueue(repo, other)
    ensures HasQueue(CreateQueue(repo, qname), other)
  {
    if !HasQueue(repo, qname) {
      StripsToSurvivesAppend(repo.registry, RegistryName(qname) + "\n", RegistryName(other));
    }
  }

  /** The wire command `create_queue` as written: it runs the source's `create_queue`. */
  function WireCreateQueueAsWritten(repo: Repo, name: string): (s: Served)
    ensures s.reply == "OK"
    ensures s.repo == CreateQueue(repo, name)
  {
    Served("OK", CreateQueue(repo, name))
  }

  /** As written, the wire `create_queue` of a clean name is followed by a `"True"` from the
      wire `has_queue` only when the server's registry file ends in a newline. */
  lemma WireCreateAsWrittenThenHas(repo: Repo, qname: string)
    requires Terminated(repo.registry) && Clean(RegistryName(qname))
    ensures WireHasQueue(WireCreateQueueAsWritten(repo, qname).repo, qname) == "True"
  {
    CreateQueueRegisters(repo, qname);
  }

  /** As written, on a server whose registry holds the unfinished line `a`, the wire
      `create_queue` of `patches-b` is answered `"OK"`, yet the wire `has_queue` then
      answers `"False"`. */
  lemma WireCreateAsWrittenCanMiss(repo: Repo)
    requires repo.registry == Text("a")
    ensures WireCreateQueueAsWritten(repo, "patches-b").reply == "OK"
    ensures WireHasQueue(WireCreateQueueAsWritten(repo, "patches-b").repo, "patches-b") == "False"
  {
    UnfinishedLineA(repo);
    assert RegistryName("patches-b") == "b";
    var after := CreateQueue(repo, "patches-b").registry;
    assert Content(after) == "a" + ("b" + "\n");
    MergedLine(after);
  }

  /** After the wire command `create_queue`, the wire command `has_queue` answers `"True"`. */
  lemma WireCreateThenHas(repo: Repo, qname: string)
    requires Clean(RegistryName(qname))
    ensures WireHasQueue(WireCreateQueue(repo, qname).repo, qname) == "True"
  {
    CreateQueueGuardedRegisters(repo, qname);
  }
}
