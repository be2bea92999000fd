/** Lines of a byte stream: what kstep_io_readline hands over, one call after another (kmod/io.c), and
    which of them the cli takes for commands (kmod/cli.c). */
module Lines {

  /** The complete lines of s, and what follows the last newline. */
  function Split(s: string): (seq<string>, string) {
    if s == "" then ([], "")
    else
      var (lines, rest) := Split(s[..|s| - 1]);
      var c := s[|s| - 1];
      if c == '\n' then (lines + [rest], "") else (lines, rest + [c])
  }

  function Join(lines: seq<string>): string {
    if lines == [] then "" else Join(lines[..|lines| - 1]) + lines[|lines| - 1] + "\n"
  }

  /** Splitting loses nothing, and no line holds a newline. */
  lemma {:induction false} SplitIsFaithful(s: string)
    ensures s == Join(Split(s).0) + Split(s).1
    ensures '\n' !in Split(s).1 && forall i :: 0 <= i < |Split(s).0| ==> '\n' !in Split(s).0[i]
  {
    if s != "" {
      var before, c := s[..|s| - 1], s[|s| - 1];
      SplitIsFaithful(before);
      var (lines, rest) := Split(before);
      assert s == before + [c];
      if c == '\n' {
        assert (lines + [rest])[..|lines|] == lines;
      }
    }
  }

  lemma {:induction false} SplitExtends(s: string, part: string)
    requires '\n' !in part
    ensures Split(s + part).0 == Split(s).0 && Split(s + part).1 == Split(s).1 + part
    decreases |part|
  {
    if part == "" {
      assert s + part == s;
      assert Split(s).1 + part == Split(s).1;
    } else {
      var n := |part| - 1;
      SplitExtends(s, part[..n]);
      assert (s + part)[..|s + part| - 1] == s + part[..n];
      assert part[n] in part;
      assert Split(s).1 + part == Split(s).1 + part[..n] + [part[n]];
    }
  }

  /** Appending a line that holds no newline, with its newline, appends a line. */
  lemma SplitAppends(s: string, line: string)
    requires '\n' !in line
    ensures Split(s + line + "\n").0 == Split(s).0 + [Split(s).1 + line] && Split(s + line + "\n").1 == ""
  {
    var t := s + line + "\n";
    assert t[..|t| - 1] == s + line;
    SplitExtends(s, line);
  }

  /** And so it is the only way to take a stream apart. */
  lemma {:induction false} SplitOfJoin(lines: seq<string>, rest: string)
    requires '\n' !in rest && forall i :: 0 <= i < |lines| ==> '\n' !in lines[i]
    ensures Split(Join(lines) + rest).0 == lines && Split(Join(lines) + rest).1 == rest
    decreases |lines|
  {
    if lines == [] {
      SplitExtends("", rest);
      assert Join(lines) + rest == "" + rest;
    } else {
      SplitOfLines(lines);
      SplitExtends(Join(lines), rest);
    }
  }

  lemma {:induction false} SplitOfLines(lines: seq<string>)
    requires forall i :: 0 <= i < |lines| ==> '\n' !in lines[i]
    ensures Split(Join(lines)).0 == lines && Split(Join(lines)).1 == ""
    decreases |lines|
  {
    if lines != [] {
      var n := |lines| - 1;
      SplitOfLines(lines[..n]);
      SplitAppends(Join(lines[..n]), lines[n]);
      assert "" + lines[n] == lines[n];
      assert lines[..n] + [lines[n]] == lines;
    }
  }

  lemma {:induction false} SplitOfBoth(s: string, t: string)
    requires Split(s).1 == ""
    ensures Split(s + t).0 == Split(s).0 + Split(t).0 && Split(s + t).1 == Split(t).1
    decreases |t|
  {
    if t == "" {
      assert s + t == s;
    } else {
      var n := |t| - 1;
      SplitOfBoth(s, t[..n]);
      assert (s + t)[..|s + t| - 1] == s + t[..n];
      assert Split(s).0 + Split(t[..n]).0 + [Split(t[..n]).1] == Split(s).0 + (Split(t[..n]).0 + [Split(t[..n]).1]);
    }
  }

  /** What fits into a buffer of max with its terminator. */
  function Cut(line: string, max: nat): string
    requires max > 0
  {
    if |line| < max then line else line[..max - 1]
  }

  function CutAll(lines: seq<string>, max: nat): seq<string>
    requires max > 0
  {
    seq(|lines|, i requires 0 <= i < |lines| => Cut(lines[i], max))
  }
}
