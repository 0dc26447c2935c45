/** The last lines of a file: `tail` of `Utils/FileTools.py`. */
module Tail {
  import opened Common

  /** Iterating over a file: its lines, each with its newline. */
  function Lines(s: string): seq<string>
    decreases |s|
  {
    if s == "" then []
    else
      var rest := Lines(s[1..]);
      if s[0] == '\n' || rest == [] then [[s[0]]] + rest else [[s[0]] + rest[0]] + rest[1..]
  }

  function Join(lines: seq<string>): string
    decreases |lines|
  {
    if lines == [] then "" else lines[0] + Join(lines[1..])
  }

  /** A line holds a newline at its end only; all lines but the last have one. */
  ghost predicate IsLine(line: string, last: bool) {
    && line != "" && (forall i | 0 <= i < |line| - 1 :: line[i] != '\n')
    && (last || line[|line| - 1] == '\n')
  }

  ghost predicate AreLines(lines: seq<string>) {
    forall i | 0 <= i < |lines| :: IsLine(lines[i], i == |lines| - 1)
  }

  lemma {:induction false} LinesAre(s: string)
    ensures AreLines(Lines(s)) && Join(Lines(s)) == s
    decreases |s|
  {
    if s != "" {
      LinesAre(s[1..]);
      var rest, lines := Lines(s[1..]), Lines(s);
      assert s == [s[0]] + s[1..];
      if s[0] == '\n' || rest == [] {
        assert lines[1..] == rest;
        forall i | 0 <= i < |lines| ensures IsLine(lines[i], i == |lines| - 1) {
          assert i > 0 ==> lines[i] == rest[i - 1] && IsLine(rest[i - 1], i - 1 == |rest| - 1);
        }
      } else {
        assert lines[1..] == rest[1..];
        assert [s[0]] + rest[0] + Join(rest[1..]) == [s[0]] + (rest[0] + Join(rest[1..]));
        forall i | 0 <= i < |lines| ensures IsLine(lines[i], i == |lines| - 1) {
          assert IsLine(rest[i], i == |rest| - 1);
        }
      }
    }
  }

  /** Python's `lines[-n:]`, which for 0 is everything. */
  function LastSlice(lines: seq<string>, n: nat): seq<string> {
    if n == 0 || n > |lines| then lines else lines[|lines| - n..]
  }

  /** The last `n` lines. */
  function LastLines(s: string, n: nat): string {
    var lines := Lines(s);
    Join(if n > |lines| then lines else lines[|lines| - n..])
  }

  // ----- which part of the file the last lines are -----

  lemma DropOneMore<T>(s: seq<T>, j: nat)
    requires 0 < j <= |s|
    ensures s[j..] == s[1..][j - 1..]
  {
  }

  lemma AfterFirst(s: string)
    requires s != ""
    ensures var rest := Lines(s[1..]); Lines(s)[1..] == if s[0] == '\n' || rest == [] then rest else rest[1..]
  {
    var rest := Lines(s[1..]);
    if s[0] == '\n' || rest == [] {
      assert ([[s[0]]] + rest)[1..] == rest;
    } else {
      assert ([[s[0]] + rest[0]] + rest[1..])[1..] == rest[1..];
    }
  }

  /** After the first line come the lines of what is read without the first character, or all
      of them but the first. */
  lemma LaterLines(s: string, j: nat) returns (i: nat)
    requires s != "" && 0 < j <= |Lines(s)|
    ensures i <= |Lines(s[1..])| && Lines(s)[j..] == Lines(s[1..])[i..]
  {
    var lines, rest := Lines(s), Lines(s[1..]);
    AfterFirst(s);
    DropOneMore(lines, j);
    if s[0] == '\n' || rest == [] {
      i := j - 1;
    } else {
      i := j;
      assert |lines| == |lines[1..]| + 1 && |rest[1..]| == |rest| - 1;
      DropOneMore(rest, j);
    }
  }

  /** From the start of any line on, the file has that line and those after it. */
  lemma {:induction false} LinesFrom(s: string, j: nat) returns (k: nat)
    requires j <= |Lines(s)|
    ensures k <= |s| && s[k..] == Join(Lines(s)[j..]) && Lines(s[k..]) == Lines(s)[j..]
    decreases |s|
  {
    if j == 0 {
      k := 0;
      LinesAre(s);
      assert Lines(s)[0..] == Lines(s) && s[0..] == s;
    } else {
      var i := LaterLines(s, j);
      k := LinesFrom(s[1..], i);
      assert s[k + 1..] == s[1..][k..];
      k := k + 1;
    }
  }

  /** The last `n` lines end the file, and are as many as asked for, or all there are. */
  lemma LastLinesAre(s: string, n: nat) returns (k: nat)
    ensures k <= |s| && LastLines(s, n) == s[k..]
    ensures |Lines(s[k..])| == if n < |Lines(s)| then n else |Lines(s)|
  {
    var lines := Lines(s);
    assert lines[0..] == lines;
    k := LinesFrom(s, if n > |lines| then 0 else |lines| - n);
  }

  // ----- reading from the middle -----

  /** Reading from any point of the file on, only the first line can be cut off. */
  lemma {:induction false} SameButFirst(a: string, b: string)
    requires b != ""
    ensures var all, end := Lines(a + b), Lines(b);
            end != [] && |all| >= |end| && all[|all| - |end| + 1..] == end[1..]
    decreases |a|
  {
    if a == "" {
      assert a + b == b;
    } else {
      var all, rest, end := Lines(a + b), Lines(a[1..] + b), Lines(b);
      SameButFirst(a[1..], b);
      assert (a + b)[1..] == a[1..] + b;
      AfterFirst(a + b);
      SameEnd(all, rest, |end| - 1);
      assert rest[|rest| - |end| + 1..] == rest[|rest| - (|end| - 1)..];
    }
  }

  /** Lists that differ in their first element alone, or by one more at the start, end alike. */
  lemma SameEnd<T>(all: seq<T>, rest: seq<T>, m: nat)
    requires all != [] && m < |all| && m <= |rest|
    requires all[1..] == rest || (m < |rest| && all[1..] == rest[1..])
    ensures all[|all| - m..] == rest[|rest| - m..]
  {
    DropOneMore(all, |all| - m);
    if all[1..] != rest {
      DropOneMore(rest, |rest| - m);
    }
  }

  /** So with more lines than wanted, the last ones are those of the whole file. */
  lemma EnoughLines(content: string, start: nat, n: nat)
    requires start <= |content| && |Lines(content[start..])| > n
    ensures LastLines(content[start..], n) == LastLines(content, n)
  {
    var a, b := content[..start], content[start..];
    assert content == a + b;
    SameButFirst(a, b);
    var all, end := Lines(content), Lines(b);
    assert end[|end| - n..] == end[1..][|end| - 1 - n..];
    assert all[|all| - n..] == all[|all| - |end| + 1..][|end| - 1 - n..];
  }

  // ----- the loop -----

  /** What `seek(-pos, 2)` does with a file of some size in bytes: where reading goes on, or an
      `IOError`. It may fail at any time, and does before the start of the file. */
  type Seek = nat -> Option<nat>

  ghost predicate IsSeek(seek: Seek, content: string, size: nat) {
    forall pos: nat | seek(pos).Some? :: pos <= size && seek(pos).value <= |content|
  }

  /** `tail`; `None` for the failed assertion. */
  method LastOf(content: string, size: nat, seek: Seek, nLines: int) returns (text: Option<string>)
    requires IsSeek(seek, content, size)
    ensures text.None? <==> nLines < 0
    ensures text.Some? ==> exists k: nat :: k <= |content| && text.value == content[k..]
    ensures nLines >= 0 ==> (text == Some(LastLines(content, nLines)) <==> nLines > 0 || content == "")
  {
    if nLines < 0 {
      return None;
    }
    var pos, lines: seq<string> := nLines + 1, [];
    ghost var start: nat := |content|;
    assert content[start..] == "" && content[0..] == content;
    while |lines| <= nLines
      invariant pos > 0 && start <= |content| && lines == Lines(content[start..])
      decreases size - pos
    {
      var found := seek(pos);
      if found.None? {
        lines, start := Lines(content), 0;
        break;
      }
      lines, start := Lines(content[found.value..]), found.value;
      pos := pos * 2;
    }
    text := Some(Join(LastSlice(lines, nLines)));
    Result(content, start, nLines);
    ghost var k := SuffixOf(content, start, nLines);
  }

  /** Whatever is read, the text ends the file. */
  lemma SuffixOf(content: string, start: nat, n: nat) returns (k: nat)
    requires start <= |content|
    ensures k <= |content| && Join(LastSlice(Lines(content[start..]), n)) == content[k..]
  {
    var read := content[start..];
    var lines := Lines(read);
    var j := if n == 0 || n > |lines| then 0 else |lines| - n;
    k := LinesFrom(read, j);
    DropTwice(content, start, k);
    assert LastSlice(lines, n) == lines[j..];
    k := start + k;
  }

  lemma DropTwice<T>(s: seq<T>, i: nat, k: nat)
    requires i + k <= |s|
    ensures s[i..][k..] == s[i + k..]
  {
  }

  lemma Result(content: string, start: nat, n: nat)
    requires start <= |content| && (start == 0 || |Lines(content[start..])| > n)
    ensures Join(LastSlice(Lines(content[start..]), n)) == LastLines(content, n) <==> n > 0 || content == ""
  {
    var read := content[start..];
    assert content[0..] == content;
    if n > 0 {
      if start > 0 { EnoughLines(content, start, n); }
    } else {
      LinesAre(read);
      assert Lines(content)[|Lines(content)|..] == [];
      assert read == "" <==> content == "";
    }
  }
}
