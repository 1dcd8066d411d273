/** The registry control file `patches.queues`: one registry name per line. */
module RegistryFile {
  import opened Strings

  /** The registry file as the repository's opener sees it. */
  datatype File = Absent | Text(content: string)

  /** The file's text; an absent file reads as empty. */
  function Content(f: File): string
  {
    match f
    case Absent => []
    case Text(t) => t
  }

  /** The lines Python yields when iterating over the text, with their `\n` terminators
      removed; a final line without terminator still counts, an empty text has no lines. */
  function Lines(t: string): (ls: seq<string>)
    ensures forall i :: 0 <= i < |ls| ==> '\n' !in ls[i]
    ensures t == [] <==> ls == []
    decreases |t|
  {
    if t == [] then []
    else
      var i := IndexOf(t, '\n');
      if i == |t| then [t] else [t[..i]] + Lines(t[i + 1..])
  }

  /** Reference definition: every line written back with its `\n` terminator. */
  function Unlines(ls: seq<string>): string
  {
    if ls == [] then [] else ls[0] + "\n" + Unlines(ls[1..])
  }

  /** A text with a newline at `i` reads as the line before it followed by the lines after it. */
  lemma LinesCut(t: string, i: nat)
    requires i < |t| && t[i] == '\n' && '\n' !in t[..i]
    ensures Unlines(Lines(t)) == t[..i] + "\n" + Unlines(Lines(t[i + 1..]))
  {
    assert IndexOf(t, '\n') == i;
    var ls := Lines(t);
    assert ls == [t[..i]] + Lines(t[i + 1..]);
    assert ls[0] == t[..i] && ls[1..] == Lines(t[i + 1..]);
  }

  /** Cutting a text into lines and writing them back with terminators gives the text
      again, with a terminator added to an unfinished last line. */
  lemma {:induction false} LinesRoundTrip(t: string)
    ensures Unlines(Lines(t)) == if t == [] || t[|t| - 1] == '\n' then t else t + "\n"
    decreases |t|
  {
    if t != [] {
      var i := IndexOf(t, '\n');
      if i == |t| {
        assert Lines(t) == [t];
        assert Unlines([t]) == t + "\n" + Unlines([]);
      } else {
        assert '\n' !in t[..i];
        LinesCut(t, i);
        LinesRoundTrip(t[i + 1..]);
        SplitAtNewline(t, i);
      }
    }
  }

  /** A text cut at a newline is the part before it, the newline, and the rest; the rest ends
      where the text ends. */
  lemma SplitAtNewline(t: string, i: nat)
    requires i < |t| && t[i] == '\n'
    ensures t == t[..i] + "\n" + t[i + 1..]
    ensures t[..i] + "\n" + (t[i + 1..] + "\n") == t + "\n"
    ensures t[i + 1..] == [] ==> t[|t| - 1] == '\n'
    ensures t[i + 1..] != [] ==> t[i + 1..][|t[i + 1..]| - 1] == t[|t| - 1]
  {
    assert t == t[..i] + "\n" + t[i + 1..];
  }

  /** Lines without newlines, written with terminators, read back as the same lines. */
  lemma {:induction false} UnlinesRoundTrip(ls: seq<string>)
    requires forall i :: 0 <= i < |ls| ==> '\n' !in ls[i]
    ensures Lines(Unlines(ls)) == ls
    decreases |ls|
  {
    if ls != [] {
      var t := Unlines(ls);
      var l := ls[0];
      assert t == l + "\n" + Unlines(ls[1..]);
      assert t[|l|] == '\n';
      assert forall j :: 0 <= j < |l| ==> t[j] == l[j];
      assert IndexOf(t, '\n') == |l|;
      assert t[..|l|] == l;
      assert t[|l| + 1..] == Unlines(ls[1..]);
      UnlinesRoundTrip(ls[1..]);
      assert ls == [l] + ls[1..];
    }
  }

  /** The lines of the file; an absent file has none. */
  function FileLines(f: File): seq<string>
  {
    Lines(Content(f))
  }

  /** Every line of the file is complete: the text is empty or ends with a newline. */
  predicate Terminated(f: File)
  {
    Content(f) == [] || Content(f)[|Content(f)| - 1] == '\n'
  }

  /** Writing `s` through an opener in append mode, creating the file if it is absent. */
  function Append(f: File, s: string): (g: File)
    ensures Content(g) == Content(f) + s
    ensures g.Text?
  {
    Text(Content(f) + s)
  }

  /** Ending an unfinished last line with a newline leaves the lines as they were. */
  lemma NewlineEndsLastLine(t: string)
    requires t != [] && t[|t| - 1] != '\n'
    ensures Lines(t + "\n") == Lines(t)
  {
    LinesRoundTrip(t);
    UnlinesRoundTrip(Lines(t));
  }

  /** A line written after an unfinished one joins it: the two read as one line. */
  lemma AppendedToUnfinished(a: string, b: string)
    requires '\n' !in a && '\n' !in b
    ensures Lines(a + (b + "\n")) == [a + b]
  {
    assert a + (b + "\n") == (a + b) + "\n";
    LinesOfOneLine(a + b);
  }

  /** The names `a` and `b` written back to back read as the single line `ab`, which
      strips to neither of them. */
  lemma MergedLine(f: File)
    requires Content(f) == "a" + ("b" + "\n")
    ensures FileLines(f) == ["ab"]
    ensures !StripsTo(FileLines(f), "a") && !StripsTo(FileLines(f), "b")
  {
    assert "a" + "b" == "ab";
    AppendedToUnfinished("a", "b");
    assert Trimmed("ab");
    assert Strip(FileLines(f)[0]) == "ab";
  }

  /** The file with an unfinished last line completed by one newline. */
  function Complete(f: File): (g: File)
    ensures Terminated(g)
    ensures Terminated(f) ==> g == f
    ensures FileLines(g) == FileLines(f)
  {
    if Terminated(f) then f
    else
      NewlineEndsLastLine(Content(f));
      Append(f, "\n")
  }

  /** Some line of `ls` strips to `q`. */
  predicate StripsTo(ls: seq<string>, q: string)
  {
    exists i :: 0 <= i < |ls| && Strip(ls[i]) == q
  }

  lemma StripsToCons(ls: seq<string>)
    requires ls != []
    ensures forall q {:trigger StripsTo(ls, q)} :: StripsTo(ls, q) <==> Strip(ls[0]) == q || StripsTo(ls[1..], q)
  {
    forall q | StripsTo(ls, q) && Strip(ls[0]) != q
      ensures StripsTo(ls[1..], q)
    {
      var i :| 0 <= i < |ls| && Strip(ls[i]) == q;
      assert Strip(ls[1..][i - 1]) == q;
    }
    forall q | StripsTo(ls[1..], q)
      ensures StripsTo(ls, q)
    {
      var i :| 0 <= i < |ls[1..]| && Strip(ls[1..][i]) == q;
      assert Strip(ls[i + 1]) == q;
    }
  }

  /** Python's `[l.strip() for l in lines if l.strip()]`: the non-blank stripped lines. */
  function Queues(ls: seq<string>): (qs: seq<string>)
    ensures forall q :: q in qs <==> q != [] && StripsTo(ls, q)
  {
    if ls == [] then []
    else
      var head := Strip(ls[0]);
      StripsToCons(ls);
      if head != [] then [head] + Queues(ls[1..]) else Queues(ls[1..])
  }

  /** Appending text after a complete last line leaves the earlier lines untouched. */
  lemma {:induction false} LinesConcat(t: string, s: string)
    requires t == [] || t[|t| - 1] == '\n'
    ensures Lines(t + s) == Lines(t) + Lines(s)
    decreases |t|
  {
    if t != [] {
      var i := IndexOf(t, '\n');
      assert i < |t|;
      var ts := t + s;
      var k := IndexOf(ts, '\n');
      assert ts[i] == '\n';
      assert k == i;
      assert ts[..i] == t[..i];
      assert ts[i + 1..] == t[i + 1..] + s;
      assert Lines(ts) == [t[..i]] + Lines(t[i + 1..] + s);
      assert Lines(t) == [t[..i]] + Lines(t[i + 1..]);
      LinesConcat(t[i + 1..], s);
    } else {
      assert t + s == s;
    }
  }

  /** A name without newline, written with its terminator, reads back as exactly one line. */
  lemma LinesOfOneLine(name: string)
    requires '\n' !in name
    ensures Lines(name + "\n") == [name]
  {
    var t := name + "\n";
    assert t[..|name|] == name;
    assert t[|name| + 1..] == [];
    assert IndexOf(t, '\n') == |name| by {
      var k := IndexOf(t, '\n');
      assert t[|name|] == '\n';
    }
  }

  /** Appending one line to a complete file adds exactly that line at the end, keeps the
      file complete, and makes a clean name readable. */
  lemma AppendLine(f: File, name: string)
    requires Terminated(f)
    ensures Terminated(Append(f, name + "\n"))
    ensures FileLines(Append(f, name + "\n")) == FileLines(f) + Lines(name + "\n")
    ensures '\n' !in name ==> FileLines(Append(f, name + "\n")) == FileLines(f) + [name]
    ensures name != [] && Trimmed(name) && '\n' !in name ==> StripsTo(FileLines(Append(f, name + "\n")), name)
  {
    LinesConcat(Content(f), name + "\n");
    if '\n' !in name {
      LinesOfOneLine(name);
      var ls := FileLines(Append(f, name + "\n"));
      assert ls[|ls| - 1] == name;
      if name != [] && Trimmed(name) {
        assert Strip(ls[|ls| - 1]) == name;
      }
    }
  }

  /** Appending a line keeps a complete file complete and, for a name without newline,
      adds exactly that line. */
  lemma AppendLineIfTerminated(f: File, name: string)
    ensures Terminated(f) ==> Terminated(Append(f, name + "\n"))
    ensures Terminated(f) && '\n' !in name ==> FileLines(Append(f, name + "\n")) == FileLines(f) + [name]
  {
    if Terminated(f) {
      AppendLine(f, name);
    }
  }

  /** The unfinished line `a` is the file's one line, and it strips to `a` but not to `b`. */
  lemma SingleLine(f: File)
    requires Content(f) == "a"
    ensures FileLines(f) == ["a"]
    ensures StripsTo(FileLines(f), "a") && !StripsTo(FileLines(f), "b")
  {
    assert IndexOf("a", '\n') == 1;
    assert Trimmed("a");
    assert Strip(FileLines(f)[0]) == "a";
  }

  /** A line that strips to `q` is still there after anything is appended to a complete file. */
  lemma StripsToSurvivesAppend(f: File, s: string, q: string)
    requires Terminated(f) && StripsTo(FileLines(f), q)
    ensures StripsTo(FileLines(Append(f, s)), q)
  {
    LinesConcat(Content(f), s);
    StripsToExtends(FileLines(f), Lines(s), q);
  }

  /** A line that strips to `q` still does once more lines follow it. */
  lemma StripsToExtends(ls: seq<string>, more: seq<string>, q: string)
    requires StripsTo(ls, q)
    ensures StripsTo(ls + more, q)
  {
    var i :| 0 <= i < |ls| && Strip(ls[i]) == q;
    assert (ls + more)[i] == ls[i];
  }
}
