/**
  Line splitting and joining of text, as the dispatcher uses it.

  `SplitLines` models Python's `str.splitlines()` restricted to the `'\n'`
  terminator: the terminators are stripped, the empty string yields no lines
  and a trailing terminator does not add an empty last line.  `Join` models
  `sep.join(xs)`.
 */
module TextLines {

  /** Index of the first `'\n'` in `s`, or `|s|` when there is none. */
  function FirstNewline(s: string): (k: nat)
    ensures k <= |s|
    ensures forall j :: 0 <= j < k ==> s[j] != '\n'
    ensures k < |s| ==> s[k] == '\n'
  {
    if s == [] then 0
    else if s[0] == '\n' then 0
    else 1 + FirstNewline(s[1..])
  }

  /** No line produced by a split holds a terminator. */
  ghost predicate NoTerminators(lines: seq<string>)
  {
    forall i :: 0 <= i < |lines| ==> '\n' !in lines[i]
  }

  /** Each line followed by its terminator: the text a list of lines came from. */
  function JoinTerminated(lines: seq<string>): string
  {
    if lines == [] then "" else lines[0] + "\n" + JoinTerminated(lines[1..])
  }

  /** `s` with a final terminator supplied when it lacks one (the empty text needs none). */
  function Terminated(s: string): string
  {
    if s == "" || s[|s| - 1] == '\n' then s else s + "\n"
  }

  /** Python's `s.splitlines()`, on `'\n'` only. */
  function SplitLines(s: string): (lines: seq<string>)
    ensures |lines| == 0 <==> s == ""
    ensures NoTerminators(lines)
    ensures JoinTerminated(lines) == Terminated(s)
    decreases |s|
  {
    if s == "" then []
    else
      var k := FirstNewline(s);
      if k == |s| then
        assert forall c :: c in s ==> c != '\n';
        [s]
      else
        var rest := SplitLines(s[k + 1..]);
        ConsLine(s, k, rest);
        [s[..k]] + rest
  }

  /** The line before the first terminator, put in front of the lines after it, stands for the whole text. */
  lemma ConsLine(s: string, k: nat, rest: seq<string>)
    requires k < |s| && s[k] == '\n'
    requires forall j :: 0 <= j < k ==> s[j] != '\n'
    requires NoTerminators(rest)
    requires JoinTerminated(rest) == Terminated(s[k + 1..])
    ensures NoTerminators([s[..k]] + rest)
    ensures JoinTerminated([s[..k]] + rest) == Terminated(s)
  {
    var lines := [s[..k]] + rest;
    assert lines[1..] == rest;
    assert s == s[..k] + "\n" + s[k + 1..];
    assert '\n' !in s[..k];
    assert s[k + 1..] != "" ==> s[|s| - 1] == s[k + 1..][|s[k + 1..]| - 1];
  }

  /** The total length of the strings in `xs`. */
  function TotalLength(xs: seq<string>): nat
  {
    if xs == [] then 0 else |xs[0]| + TotalLength(xs[1..])
  }

  /** Python's `sep.join(xs)`: the items in order, with one `sep` between each two. */
  function Join(sep: string, xs: seq<string>): string
  {
    if |xs| == 0 then ""
    else if |xs| == 1 then xs[0]
    else xs[0] + sep + Join(sep, xs[1..])
  }

  /** Joining n > 0 strings adds exactly n - 1 separators to their total length. */
  lemma {:induction false} JoinLength(sep: string, xs: seq<string>)
    requires xs != []
    ensures |Join(sep, xs)| == TotalLength(xs) + |sep| * (|xs| - 1)
  {
    if |xs| > 1 {
      JoinLength(sep, xs[1..]);
      assert |sep| * (|xs| - 1) == |sep| + |sep| * (|xs[1..]| - 1);
    }
  }

  /** Splitting the text made from terminator-free lines gives those lines back. */
  lemma {:induction false} SplitJoinTerminated(lines: seq<string>)
    requires NoTerminators(lines)
    ensures SplitLines(JoinTerminated(lines)) == lines
  {
    if lines != [] {
      var rest := lines[1..];
      assert NoTerminators(rest) by {
        forall i | 0 <= i < |rest| ensures '\n' !in rest[i] {
          assert rest[i] == lines[i + 1];
        }
      }
      SplitJoinTerminated(rest);
      SplitFirstLine(lines[0], JoinTerminated(rest));
    }
  }

  /** A text that starts with a terminator-free line and its terminator splits into that line and the rest's lines. */
  lemma SplitFirstLine(l: string, rest: string)
    requires '\n' !in l
    ensures SplitLines(l + "\n" + rest) == [l] + SplitLines(rest)
  {
    var s := l + "\n" + rest;
    assert forall j :: 0 <= j < |l| ==> s[j] == l[j];
    assert s[|l|] == '\n';
    assert FirstNewline(s) == |l|;
    assert s[..|l|] == l;
    assert s[|l| + 1..] == rest;
  }

  /** A non-empty list of lines joined with `"\n"` is the terminated text minus its last terminator. */
  lemma {:induction false} JoinIsJoinTerminatedLessLast(lines: seq<string>)
    requires lines != []
    ensures Join("\n", lines) + "\n" == JoinTerminated(lines)
  {
    if |lines| > 1 {
      JoinIsJoinTerminatedLessLast(lines[1..]);
    }
  }

  /**
    Joining the lines of a split with `"\n"` gives the text back, less one
    trailing terminator when it had one.
   */
  lemma {:induction false} JoinSplitLines(s: string)
    ensures Join("\n", SplitLines(s)) == if s != "" && s[|s| - 1] == '\n' then s[..|s| - 1] else s
  {
    var lines := SplitLines(s);
    if lines != [] {
      JoinIsJoinTerminatedLessLast(lines);
      var j := Join("\n", lines);
      assert j + "\n" == Terminated(s);
      if s[|s| - 1] == '\n' {
        assert s == s[..|s| - 1] + "\n";
        LessLastTerminator(j, s[..|s| - 1]);
      } else {
        LessLastTerminator(j, s);
      }
    }
  }

  /** Two texts that are equal once each gets a newline appended were equal before. */
  lemma LessLastTerminator(a: string, b: string)
    requires a + "\n" == b + "\n"
    ensures a == b
  {
    assert a == (a + "\n")[..|a|];
    assert b == (b + "\n")[..|b|];
  }

  /**
    `"\n".join(s)` on a plain string iterates its characters, so the result
    interleaves a newline between every two characters.
   */
  lemma {:induction false} JoinCharactersInterleaves(s: string)
    requires s != ""
    ensures var j := Join("\n", Characters(s));
      && |j| == 2 * |s| - 1
      && (forall i :: 0 <= i < |s| ==> j[2 * i] == s[i])
      && (forall i :: 0 <= i < |s| - 1 ==> j[2 * i + 1] == '\n')
  {
    if |s| > 1 {
      var tail := Characters(s[1..]);
      JoinCharactersInterleaves(s[1..]);
      JoinCons("\n", [s[0]], tail);
      var t := Join("\n", tail);
      var j := [s[0]] + "\n" + t;
      forall i | 1 <= i < |s| - 1
        ensures j[2 * i + 1] == '\n'
      {
        assert j[2 * i + 1] == t[2 * (i - 1) + 1];
      }
      forall i | 1 <= i < |s|
        ensures j[2 * i] == s[i]
      {
        assert j[2 * i] == t[2 * (i - 1)];
      }
    }
  }

  /** Joining a first item onto a non-empty rest puts one separator between them. */
  lemma JoinCons(sep: string, x: string, xs: seq<string>)
    requires xs != []
    ensures Join(sep, [x] + xs) == x + sep + Join(sep, xs)
  {
    assert ([x] + xs)[1..] == xs;
  }

  /** The one-character strings a Python string yields when iterated, one per character. */
  function Characters(s: string): (cs: seq<string>)
    ensures |cs| == |s|
    ensures forall i :: 0 <= i < |s| ==> cs[i] == [s[i]]
  {
    if s == "" then []
    else
      var rest := Characters(s[1..]);
      var cs := [[s[0]]] + rest;
      assert cs[1..] == rest;
      assert s == [s[0]] + s[1..];
      cs
  }

  /** Concatenating the characters a string yields gives the string back. */
  lemma {:induction false} JoinCharactersRestores(s: string)
    ensures Join("", Characters(s)) == s
  {
    if |s| == 1 {
      assert s == [s[0]];
      assert Characters(s) == [[s[0]]];
    } else if |s| > 1 {
      var tail := Characters(s[1..]);
      assert Characters(s) == [[s[0]]] + tail;
      JoinCons("", [s[0]], tail);
      JoinCharactersRestores(s[1..]);
      assert [s[0]] + "" == [s[0]];
      assert s == [s[0]] + s[1..];
    }
  }
}
