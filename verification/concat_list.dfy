/** The concat list handed to ffmpeg's concat demuxer: one `file '<path>'`
    directive per clip, in order, each on its own line. Inside single quotes
    every character stands for itself, so a quote in a path is written as
    quote, backslash, quote, quote: leave the quotes, emit an escaped quote,
    re-enter them. A reader of that quoting is modelled next to the writer and
    the two are proved to be inverses. */
module ConcatList {
  import opened Wrappers

  /** The replacement for one quote character inside a quoted path. */
  const EscapedQuote: string := "'\\''"

  /** Replace every quote of p by the escaped quote; all other characters are
      kept as they are. */
  function Escape(p: string): (r: string)
    ensures '\'' !in p ==> r == p
    ensures '\n' !in p ==> '\n' !in r
  {
    if p == [] then []
    else (if p[0] == '\'' then EscapedQuote else [p[0]]) + Escape(p[1..])
  }

  /** The directive naming one clip. */
  function Line(p: string): string {
    "file '" + Escape(p) + "'"
  }

  /** The whole list file: every directive followed by a newline. */
  function ListFile(files: seq<string>): string {
    if files == [] then [] else Line(files[0]) + "\n" + ListFile(files[1..])
  }

  /** The quoting rule of the reader: outside quotes a backslash takes the
      next character literally and a quote opens a quoted part; inside quotes
      everything up to the next quote is literal. */
  function Dequote(s: string, quoted: bool): string
    decreases |s|
  {
    if s == [] then []
    else if quoted then
      if s[0] == '\'' then Dequote(s[1..], false) else [s[0]] + Dequote(s[1..], true)
    else if s[0] == '\'' then Dequote(s[1..], true)
    else if s[0] == '\\' && |s| >= 2 then [s[1]] + Dequote(s[2..], false)
    else [s[0]] + Dequote(s[1..], false)
  }

  /** Inside quotes, the escaped quote reads as one quote and leaves the
      reader inside quotes. */
  lemma DequoteEscapedQuote(tail: string)
    ensures Dequote(EscapedQuote + tail, true) == "'" + Dequote(tail, true)
  {
    var s := EscapedQuote + tail;
    assert s[1..] == "\\''" + tail;
    assert s[1..][2..] == "'" + tail;
    assert ("'" + tail)[1..] == tail;
    assert Dequote(s, true) == Dequote(s[1..], false);
    assert Dequote(s[1..], false) == "'" + Dequote("'" + tail, false);
  }

  /** Inside quotes, any other character reads as itself. */
  lemma DequoteOther(c: char, tail: string)
    requires c != '\''
    ensures Dequote([c] + tail, true) == [c] + Dequote(tail, true)
  {
    assert ([c] + tail)[1..] == tail;
  }

  lemma EscapeCons(p: string, rest: string)
    requires p != []
    ensures Escape(p) + rest == (if p[0] == '\'' then EscapedQuote else [p[0]]) + (Escape(p[1..]) + rest)
  {
  }

  /** Read inside quotes, an escaped path gives the path back and leaves the
      reader inside quotes. */
  lemma {:induction false} DequoteEscaped(p: string, rest: string)
    ensures Dequote(Escape(p) + rest, true) == p + Dequote(rest, true)
    decreases |p|
  {
    if p != [] {
      DequoteEscaped(p[1..], rest);
      EscapeCons(p, rest);
      if p[0] == '\'' {
        DequoteEscapedQuote(Escape(p[1..]) + rest);
      } else {
        DequoteOther(p[0], Escape(p[1..]) + rest);
      }
      assert p == [p[0]] + p[1..];
    } else {
      assert Escape(p) + rest == rest;
    }
  }

  /** The quoted form of a path reads back as that path. */
  lemma QuotedRoundTrip(p: string)
    ensures Dequote("'" + Escape(p) + "'", false) == p
  {
    var s := "'" + Escape(p) + "'";
    assert s[1..] == Escape(p) + "'";
    DequoteEscaped(p, "'");
    assert Dequote("'", true) == [];
  }

  /** The directive of a path, past its "file " keyword, reads back as the
      path. */
  function ReadLine(line: string): Option<string> {
    if |line| >= 5 && line[..5] == "file " then Some(Dequote(line[5..], false)) else None
  }

  lemma ReadLineOfLine(p: string)
    ensures ReadLine(Line(p)) == Some(p)
  {
    assert Line(p)[5..] == "'" + Escape(p) + "'";
    QuotedRoundTrip(p);
  }

  /** Distinct paths give distinct directives. */
  lemma LineInjective(p: string, q: string)
    ensures Line(p) == Line(q) ==> p == q
  {
    ReadLineOfLine(p);
    ReadLineOfLine(q);
  }

  /** Index of the first newline of s, or |s|. */
  function NewlineAt(s: string): (i: nat)
    ensures i <= |s| && '\n' !in s[..i]
    ensures i < |s| ==> s[i] == '\n'
  {
    if s == [] || s[0] == '\n' then 0 else 1 + NewlineAt(s[1..])
  }

  /** The lines of a text, each without its newline. */
  function SplitLines(s: string): seq<string>
    decreases |s|
  {
    if s == [] then []
    else
      var i := NewlineAt(s);
      [s[..i]] + (if i < |s| then SplitLines(s[i + 1..]) else [])
  }

  lemma NewlineAfter(line: string, rest: string)
    requires '\n' !in line
    ensures NewlineAt(line + "\n" + rest) == |line|
    decreases |line|
  {
    if line != [] {
      assert (line + "\n" + rest)[1..] == line[1..] + "\n" + rest;
      NewlineAfter(line[1..], rest);
    }
  }

  /** Read every line of a list file as a directive; None if one is not. */
  function ReadLines(lines: seq<string>): Option<seq<string>> {
    if lines == [] then Some([])
    else match (ReadLine(lines[0]), ReadLines(lines[1..]))
      case (Some(p), Some(ps)) => Some([p] + ps)
      case _ => None
  }

  function ReadListFile(content: string): Option<seq<string>> {
    ReadLines(SplitLines(content))
  }

  /** A directive holds a newline only where its path does. */
  lemma LineNoNewline(p: string)
    requires '\n' !in p
    ensures '\n' !in Line(p)
  {
  }

  lemma SplitLinesCons(line: string, rest: string)
    requires '\n' !in line
    ensures SplitLines(line + "\n" + rest) == [line] + SplitLines(rest)
  {
    NewlineAfter(line, rest);
    var s := line + "\n" + rest;
    assert s[..|line|] == line;
    assert s[|line| + 1..] == rest;
  }

  /** The list file has exactly one line per clip, its directive, as long as
      no path holds a newline (a line break would split its directive). */
  lemma {:induction false} ListFileLines(files: seq<string>)
    requires forall k :: 0 <= k < |files| ==> '\n' !in files[k]
    ensures SplitLines(ListFile(files)) == seq(|files|, k requires 0 <= k < |files| => Line(files[k]))
    decreases |files|
  {
    if files != [] {
      ListFileLines(files[1..]);
      LineNoNewline(files[0]);
      SplitLinesCons(Line(files[0]), ListFile(files[1..]));
    }
  }

  lemma {:induction false} ReadDirectives(files: seq<string>)
    ensures ReadLines(seq(|files|, k requires 0 <= k < |files| => Line(files[k]))) == Some(files)
    decreases |files|
  {
    if files != [] {
      var lines := seq(|files|, k requires 0 <= k < |files| => Line(files[k]));
      assert lines[1..] == seq(|files| - 1, k requires 0 <= k < |files| - 1 => Line(files[1..][k]));
      ReadDirectives(files[1..]);
      ReadLineOfLine(files[0]);
      assert files == [files[0]] + files[1..];
    }
  }

  /** Reading the list file back gives the clips, in order, as long as no
      path holds a newline. */
  lemma ListFileRoundTrip(files: seq<string>)
    requires forall k :: 0 <= k < |files| ==> '\n' !in files[k]
    ensures ReadListFile(ListFile(files)) == Some(files)
  {
    ListFileLines(files);
    ReadDirectives(files);
  }

  lemma {:induction false} ListFileSnoc(files: seq<string>, f: string)
    ensures ListFile(files + [f]) == ListFile(files) + Line(f) + "\n"
    decreases |files|
  {
    if files == [] {
      assert [f][1..] == [];
    } else {
      assert (files + [f])[1..] == files[1..] + [f];
      ListFileSnoc(files[1..], f);
    }
  }

  /** The writing loop: one directive per clip, in input order. */
  method BuildListFile(files: seq<string>) returns (content: string)
    ensures content == ListFile(files)
  {
    content := "";
    var i := 0;
    while i < |files|
      invariant 0 <= i <= |files|
      invariant content == ListFile(files[..i])
    {
      var p := Escape(files[i]);
      var line := "file '" + p + "'";
      assert line == Line(files[i]);
      ListFileSnoc(files[..i], files[i]);
      assert files[..i + 1] == files[..i] + [files[i]];
      content := content + line + "\n";
      i := i + 1;
    }
    assert files[..i] == files;
  }
}
