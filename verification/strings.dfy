/** String helpers with Python 2 byte-string semantics. */
module Strings {

  /** The characters Python 2's `str.strip()` removes: space, `\t`, `\n`, `\r`, `\v`, `\f`. */
  predicate IsSpace(c: char)
  {
    c == ' ' || c == '\t' || c == '\n' || c == '\r' || c == '\U{B}' || c == '\U{C}'
  }

  /** Neither the first nor the last character is whitespace. */
  predicate Trimmed(s: string)
  {
    s == [] || (!IsSpace(s[0]) && !IsSpace(s[|s| - 1]))
  }

  predicate StartsWith(s: string, prefix: string)
  {
    |prefix| <= |s| && s[..|prefix|] == prefix
  }

  predicate EndsWith(s: string, suffix: string)
  {
    |suffix| <= |s| && s[|s| - |suffix|..] == suffix
  }

  /** Removes leading whitespace: the result is the suffix of `s` after its whitespace run. */
  function TrimLeft(s: string): (r: string)
    ensures |r| <= |s| && r == s[|s| - |r|..]
    ensures forall i :: 0 <= i < |s| - |r| ==> IsSpace(s[i])
    ensures r == [] || !IsSpace(r[0])
  {
    if s != [] && IsSpace(s[0]) then TrimLeft(s[1..]) else s
  }

  /** Removes trailing whitespace: the result is the prefix of `s` before its whitespace run. */
  function TrimRight(s: string): (r: string)
    ensures |r| <= |s| && r == s[..|r|]
    ensures forall i :: |r| <= i < |s| ==> IsSpace(s[i])
    ensures r == [] || !IsSpace(r[|r| - 1])
  {
    if s != [] && IsSpace(s[|s| - 1]) then TrimRight(s[..|s| - 1]) else s
  }

  /** `r` is the slice of `s` starting at `i`, and everything around it is whitespace. */
  predicate SurroundedBySpace(s: string, r: string, i: int)
  {
    0 <= i <= |s| - |r| && r == s[i..i + |r|]
    && (forall k :: 0 <= k < i ==> IsSpace(s[k]))
    && (forall k :: i + |r| <= k < |s| ==> IsSpace(s[k]))
  }

  /** Python's `s.strip()`: `s` with its leading and trailing whitespace removed. */
  function Strip(s: string): (r: string)
    ensures Trimmed(r)
    ensures exists i :: SurroundedBySpace(s, r, i)
    ensures |r| <= |s|
    ensures Trimmed(s) ==> r == s
    ensures r == [] <==> forall i :: 0 <= i < |s| ==> IsSpace(s[i])
  {
    var l := TrimLeft(s);
    assert l == [] ==> forall i :: 0 <= i < |s| ==> IsSpace(s[i]);
    var r := TrimRight(l);
    var i := |s| - |l|;
    assert r == s[i..i + |r|];
    assert SurroundedBySpace(s, r, i);
    r
  }

  /** Stripping ignores one trailing newline, so a line read with its terminator strips
      to the same value as the line without it. */
  lemma {:induction false} StripIgnoresNewline(l: string)
    ensures Strip(l + "\n") == Strip(l)
  {
    TrimLeftNewline(l);
    var t := TrimLeft(l);
    if t != [] {
      TrimRightNewline(t);
    }
  }

  /** Trimming on the right removes a trailing newline along with the whitespace before it. */
  lemma TrimRightNewline(t: string)
    ensures TrimRight(t + "\n") == TrimRight(t)
  {
    assert (t + "\n")[..|t|] == t;
  }

  lemma {:induction false} TrimLeftNewline(l: string)
    ensures TrimLeft(l + "\n") == if TrimLeft(l) == [] then [] else TrimLeft(l) + "\n"
    decreases |l|
  {
    if l == [] {
      assert TrimLeft("\n") == TrimLeft([]);
    } else if IsSpace(l[0]) {
      assert (l + "\n")[1..] == l[1..] + "\n";
      TrimLeftNewline(l[1..]);
    }
  }

  /** Index of the first `c` in `s`, or `|s|` when there is none. */
  function IndexOf(s: string, c: char): (i: nat)
    ensures i <= |s|
    ensures i < |s| ==> s[i] == c
    ensures forall j :: 0 <= j < i ==> s[j] != c
  {
    if s == [] then 0 else if s[0] == c then 0 else 1 + IndexOf(s[1..], c)
  }

  /** The part of `s` after its last `c` (all of `s` when `c` does not occur). */
  function AfterLast(s: string, c: char): (r: string)
    ensures c !in r
    ensures EndsWith(s, r)
    ensures |r| == |s| || s[|s| - |r| - 1] == c
  {
    if s == [] then []
    else if s[|s| - 1] == c then []
    else
      var r := AfterLast(s[..|s| - 1], c);
      assert s[..|s| - 1][|s| - 1 - |r|..] == s[|s| - 1 - |r|..|s| - 1];
      r + [s[|s| - 1]]
  }

  /** Python's `s[n:]` for `n >= 0`: empty when `s` has no more than `n` characters. */
  function Drop(s: string, n: nat): (r: string)
    ensures |s| <= n ==> r == []
    ensures n < |s| ==> |r| == |s| - n && s == s[..n] + r
  {
    if |s| <= n then [] else s[n..]
  }
}
