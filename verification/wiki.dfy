/** The pure parts of the wiki's edit page: newline sanitising, the missing-file
    fallbacks, and the optimistic-concurrency decision of a posted edit. */
module Wiki {
  import opened Wrappers
  import opened Strings

  /** The bookmark that marks the published head. */
  const Bookmark := "public"

  /** A file at one revision: the node `repo[rev][filename].node()` returns, and its contents. */
  datatype FileRev = FileRev(node: string, data: string)

  /** The repository as the page reads it: the files of every revision it can look up. */
  type Store = map<string, map<string, FileRev>>

  /** Looking up a revision the repository does not know raises; the page does not catch it. */
  datatype WikiError = UnknownRevision(rev: string)

  /** `get_file_node`: the file's node at `rev`, or `None` when the file is missing there. */
  function GetFileNode(store: Store, rev: string, filename: string): (r: Result<Option<string>, WikiError>)
    ensures r.Err? <==> rev !in store
    ensures r.Err? ==> r.error == UnknownRevision(rev)
    ensures rev in store && filename !in store[rev] ==> r == Ok(None)
    ensures rev in store && filename in store[rev] ==> r == Ok(Some(store[rev][filename].node))
  {
    if rev !in store then Err(UnknownRevision(rev))
    else if filename !in store[rev] then Ok(None)
    else Ok(Some(store[rev][filename].node))
  }

  /** `get_file_data`: the file's contents at `rev`, or `""` when the file is missing there. */
  function GetFileData(store: Store, rev: string, filename: string): (r: Result<string, WikiError>)
    ensures r.Err? <==> rev !in store
    ensures r.Err? ==> r.error == UnknownRevision(rev)
    ensures rev in store && filename !in store[rev] ==> r == Ok([])
    ensures rev in store && filename in store[rev] ==> r == Ok(store[rev][filename].data)
  {
    if rev !in store then Err(UnknownRevision(rev)) else Ok(FileDataIn(store[rev], filename))
  }

  /** The contents of `filename` among `files`, `""` when it is missing. */
  function FileDataIn(files: map<string, FileRev>, filename: string): string
  {
    if filename in files then files[filename].data else []
  }

  /** The two lookups fail together, a missing node goes with empty data, and a present
      node goes with the data of that very file at that revision. */
  lemma NodeAndDataAgree(store: Store, rev: string, filename: string)
    ensures GetFileNode(store, rev, filename).Err? <==> GetFileData(store, rev, filename).Err?
    ensures GetFileNode(store, rev, filename) == Ok(None) ==> GetFileData(store, rev, filename) == Ok([])
    ensures GetFileNode(store, rev, filename).Ok? && GetFileNode(store, rev, filename).value.Some?
      ==> (rev in store && filename in store[rev]
           && store[rev][filename] == FileRev(GetFileNode(store, rev, filename).value.value,
                                              GetFileData(store, rev, filename).value))
  {
  }

  // ---------------------------------------------------------------- newlines

  /** `s` contains `"\r\n"` at position `i`. */
  predicate CrlfAt(s: string, i: int)
  {
    0 <= i && i + 1 < |s| && s[i] == '\r' && s[i + 1] == '\n'
  }

  predicate HasCrlf(s: string)
  {
    exists i :: 0 <= i < |s| && CrlfAt(s, i)
  }

  /** Python's `s.replace("\r\n", "\n")`: occurrences found left to right are replaced
      in one pass. */
  function ReplaceCrlf(s: string): (r: string)
    ensures |r| <= |s|
    ensures !HasCrlf(s) ==> r == s
    ensures |s| > 0 ==> |r| > 0 && r[|r| - 1] == s[|s| - 1]
  {
    if s == [] then []
    else if CrlfAt(s, 0) then
      assert !HasCrlf(s[2..]) ==> s[2..] == [] || s[2..][0] == s[2];
      "\n" + ReplaceCrlf(s[2..])
    else
      assert HasCrlf(s[1..]) ==> HasCrlf(s) by {
        if HasCrlf(s[1..]) {
          var i :| 0 <= i < |s[1..]| && CrlfAt(s[1..], i);
          assert CrlfAt(s, i + 1);
        }
      }
      [s[0]] + ReplaceCrlf(s[1..])
  }

  /** Reference definition: delete every `\r` that the input has directly before a `\n`. */
  function DropCrBeforeLf(s: string): (r: string)
  {
    if s == [] then []
    else (if CrlfAt(s, 0) then [] else [s[0]]) + DropCrBeforeLf(s[1..])
  }

  /** Replacing `"\r\n"` by `"\n"` is the same as deleting each `\r` that stands before
      a `\n` in the input (occurrences cannot overlap). */
  lemma {:induction false} ReplaceCrlfDropsCr(s: string)
    ensures ReplaceCrlf(s) == DropCrBeforeLf(s)
    decreases |s|
  {
    if s != [] {
      if CrlfAt(s, 0) {
        assert !CrlfAt(s[1..], 0);
        assert s[1..][1..] == s[2..];
        ReplaceCrlfDropsCr(s[2..]);
      } else {
        ReplaceCrlfDropsCr(s[1..]);
      }
    }
  }

  /** `sanitize_newline`: CRLF replaced, then a `\n` appended unless the text already
      ends with one. */
  function SanitizeNewline(content: string): (r: string)
    ensures |r| > 0 && r[|r| - 1] == '\n'
    ensures !HasCrlf(content) && EndsWith(content, "\n") ==> r == content
    ensures StartsWith(r, ReplaceCrlf(content)) && |r| <= |ReplaceCrlf(content)| + 1
    ensures EndsWith(ReplaceCrlf(content), "\n") ==> r == ReplaceCrlf(content)
    ensures |r| <= |content| + 1
  {
    var replaced := ReplaceCrlf(content);
    if EndsWith(replaced, "\n") then replaced else replaced + "\n"
  }

  /** A single pass can leave a CRLF behind, so sanitising is not idempotent. */
  lemma SanitizeCanLeaveCrlf()
    ensures SanitizeNewline("\r\r\n") == "\r\n"
    ensures HasCrlf(SanitizeNewline("\r\r\n"))
    ensures SanitizeNewline(SanitizeNewline("\r\r\n")) != SanitizeNewline("\r\r\n")
  {
    var s := "\r\r\n";
    assert !CrlfAt(s, 0) && CrlfAt(s[1..], 0);
    assert s[1..][2..] == [];
    assert ReplaceCrlf(s) == "\r\n";
    assert CrlfAt("\r\n", 0);
    assert ReplaceCrlf("\r\n") == "\n";
  }

  // ---------------------------------------------------------------- posting an edit

  /** `listbookmarks(repo).get(BOOKMARK, '')`: the published head, or `""`. */
  function CurrentHead(bookmarks: map<string, string>): string
  {
    if Bookmark in bookmarks then bookmarks[Bookmark] else []
  }

  /** The outcome of posting an edit: a commit of the sanitised content on top of the
      published head, or a conflict showing the file at the editor's parent and at the head. */
  datatype EditOutcome =
    | Committed(onto: string, content: string)
    | Conflict(parent: string, current: string, content: string, diff: (string, string))

  /** The decision of a posted edit in `article_edit_view`. */
  function EditPost(store: Store, bookmarks: map<string, string>, parent: string, filename: string, raw: string)
    : (r: Result<EditOutcome, WikiError>)
    ensures r.Ok? ==> r.value.content == SanitizeNewline(raw)
    ensures r.Ok? && r.value.Committed? ==> r.value.onto == CurrentHead(bookmarks)
    ensures parent == CurrentHead(bookmarks) ==> r.Ok? && r.value.Committed?
    ensures parent != CurrentHead(bookmarks) ==> (r.Err? <==> parent !in store || CurrentHead(bookmarks) !in store)
    ensures parent != CurrentHead(bookmarks) && parent in store && CurrentHead(bookmarks) in store
      ==> (r.value.Committed? <==> GetFileNode(store, parent, filename) == GetFileNode(store, CurrentHead(bookmarks), filename))
    ensures r.Ok? && r.value.Conflict?
      ==> && r.value.parent == parent && r.value.current == CurrentHead(bookmarks)
          && r.value.diff == (GetFileData(store, parent, filename).value, GetFileData(store, CurrentHead(bookmarks), filename).value)
  {
    var content := SanitizeNewline(raw);
    var current := CurrentHead(bookmarks);
    if current == parent then Ok(Committed(current, content))
    else
      var atParent :- GetFileNode(store, parent, filename);
      var atCurrent :- GetFileNode(store, current, filename);
      // an unchanged file lets the stale parent move up to the head
      if atParent == atCurrent then Ok(Committed(current, content))
      else Ok(Conflict(parent, current, content, (FileDataIn(store[parent], filename), FileDataIn(store[current], filename))))
  }

  /** A file missing at both the stale parent and the head does not block the commit. */
  lemma MissingAtBothCommits(store: Store, bookmarks: map<string, string>, parent: string, filename: string, raw: string)
    requires parent in store && CurrentHead(bookmarks) in store
    requires filename !in store[parent] && filename !in store[CurrentHead(bookmarks)]
    ensures EditPost(store, bookmarks, parent, filename, raw) == Ok(Committed(CurrentHead(bookmarks), SanitizeNewline(raw)))
  {
  }
}
