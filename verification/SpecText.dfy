/** The string operations the specification parser is written in. */
module SpecText {
  import opened Prelude

  /** Unicode white space, as `char::is_whitespace` defines it. */
  predicate IsWhitespace(c: char)
  {
    var u := c as int;
    || 0x9 <= u <= 0xD || u == 0x20 || u == 0x85 || u == 0xA0 || u == 0x1680 || 0x2000 <= u <= 0x200A
    || u == 0x2028 || u == 0x2029 || u == 0x202F || u == 0x205F || u == 0x3000
  }

  function TrimStart(s: string): string
  {
    if s != "" && IsWhitespace(s[0]) then TrimStart(s[1..]) else s
  }

  function TrimEnd(s: string): string
  {
    if s != "" && IsWhitespace(s[|s| - 1]) then TrimEnd(s[..|s| - 1]) else s
  }

  function Trim(s: string): string { TrimEnd(TrimStart(s)) }

  function StripPrefix(s: string, prefix: string): (r: Option<string>)
    ensures r.Some? ==> s == prefix + r.value
  {
    if |prefix| <= |s| && s[..|prefix|] == prefix then Some(s[|prefix|..]) else None
  }

  /** Position of the first occurrence. */
  function Find(s: string, pattern: string): (r: Option<nat>)
    ensures r.Some? ==> r.value + |pattern| <= |s| && s[r.value..r.value + |pattern|] == pattern
  {
    if |s| < |pattern| then None
    else if s[..|pattern|] == pattern then Some(0)
    else if s == "" then None
    else
      match Find(s[1..], pattern)
      case None => None
      case Some(p) => Some(p + 1)
  }

  function SplitOnce(s: string, separator: string): Option<(string, string)>
  {
    match Find(s, separator)
    case None => None
    case Some(p) => Some((s[..p], s[p + |separator|..]))
  }

  /** Length of the part before the first white space. */
  function WordLength(s: string): (n: nat)
    ensures n <= |s|
  {
    if s == "" || IsWhitespace(s[0]) then 0 else 1 + WordLength(s[1..])
  }

  function Lower(c: char): char { if 'A' <= c <= 'Z' then (c as int + 32) as char else c }

  function ToAsciiLowercase(s: string): string
  {
    seq(|s|, i requires 0 <= i < |s| => Lower(s[i]))
  }

  /** Split at every separator. */
  function Split(s: string, separator: char): seq<string>
  {
    if s == "" then [""]
    else
      var rest := Split(s[1..], separator);
      if s[0] == separator then [""] + rest else if rest == [] then [[s[0]]] else [[s[0]] + rest[0]] + rest[1..]
  }

  function Joined(parts: seq<string>, separator: char): string
  {
    if parts == [] then "" else if |parts| == 1 then parts[0]
        else parts[0] + [separator] + Joined(parts[1..], separator)
  }

  /** Splitting cuts at every separator and loses nothing. */
  lemma {:induction false} SplitMeaning(s: string, separator: char)
    ensures var parts := Split(s, separator);
            && parts != [] && Joined(parts, separator) == s
            && forall i :: 0 <= i < |parts| ==> separator !in parts[i]
  {
    if s != "" {
      SplitMeaning(s[1..], separator);
      var rest := Split(s[1..], separator);
      assert s == [s[0]] + s[1..];
      if s[0] == separator {
        assert ([""] + rest)[1..] == rest;
      } else {
        var parts := [[s[0]] + rest[0]] + rest[1..];
        assert parts[1..] == rest[1..];
        if |rest| > 1 { Regroup([s[0]], rest[0], [separator] + Joined(rest[1..], separator)); }
        assert Joined(parts, separator) == [s[0]] + Joined(rest, separator) by {
          if |rest| > 1 {
            assert [s[0]] + rest[0] + [separator] + Joined(rest[1..], separator)
                == [s[0]] + (rest[0] + [separator] + Joined(rest[1..], separator));
          }
        }
      }
    }
  }

  function Map<A, B>(f: A -> B, s: seq<A>): (r: seq<B>)
    ensures |r| == |s|
  {
    seq(|s|, i requires 0 <= i < |s| => f(s[i]))
  }

  lemma MapAppend<A, B>(f: A -> B, s: seq<A>, x: A)
    ensures Map(f, s + [x]) == Map(f, s) + [f(x)]
  {
  }

  lemma MapUpdate<A, B>(f: A -> B, s: seq<A>, i: nat, x: A)
    requires i < |s|
    ensures Map(f, s[i := x]) == Map(f, s)[i := f(x)] && Map(f, s)[i] == f(s[i])
  {
  }

  // ---------------------------------------------------------------- lines

  function LineLength(s: string): (n: nat)
    ensures n <= |s| && '\n' !in s[..n] && (n < |s| ==> s[n] == '\n')
  {
    if s == "" || s[0] == '\n' then 0
    else
      assert s[..1 + LineLength(s[1..])] == [s[0]] + s[1..][..LineLength(s[1..])];
      1 + LineLength(s[1..])
  }

  /** `split_inclusive('\n')` with the newlines dropped: a trailing newline starts no further line. */
  function Lines(s: string): (lines: seq<string>)
    ensures forall i :: 0 <= i < |lines| ==> '\n' !in lines[i]
    decreases |s|
  {
    if s == "" then []
    else
      var n := LineLength(s);
      if n == |s| then [s[..n]] else [s[..n]] + Lines(s[n + 1..])
  }

  function Join(lines: seq<string>): string
  {
    if lines == [] then "" else if |lines| == 1 then lines[0] else lines[0] + "\n" + Join(lines[1..])
  }

  /** What is written back: the lines joined, ending in a newline. */
  function Written(lines: seq<string>): string
  {
    var content := Join(lines);
    if content != "" && content[|content| - 1] == '\n' then content else content + "\n"
  }

  ghost predicate Clean(lines: seq<string>)
  {
    forall i :: 0 <= i < |lines| ==> '\n' !in lines[i]
  }

  lemma {:induction false} FirstLine(line: string, rest: string)
    requires '\n' !in line
    ensures LineLength(line + "\n" + rest) == |line|
  {
    if line != "" {
      assert (line + "\n" + rest)[1..] == line[1..] + "\n" + rest;
      FirstLine(line[1..], rest);
    }
  }

  lemma LinesCons(line: string, rest: string)
    requires '\n' !in line
    ensures Lines(line + "\n" + rest) == [line] + Lines(rest)
  {
    FirstLine(line, rest);
    var s := line + "\n" + rest;
    assert s[..|line|] == line && s[|line| + 1..] == rest;
  }

  lemma Regroup(a: string, b: string, c: string)
    ensures a + b + c == a + (b + c)
  {
  }

  /** Joining clean lines and ending in a newline loses nothing. */
  lemma {:induction false} LinesOfJoin(lines: seq<string>)
    requires Clean(lines) && lines != []
    ensures Lines(Join(lines) + "\n") == lines
  {
    if |lines| == 1 {
      LinesCons(lines[0], "");
      assert lines[0] + "\n" == lines[0] + "\n" + "";
      assert lines == [lines[0]];
    } else {
      var rest := Join(lines[1..]);
      LinesOfJoin(lines[1..]);
      LinesCons(lines[0], rest + "\n");
      Regroup(lines[0] + "\n", rest, "\n");
      assert lines == [lines[0]] + lines[1..];
    }
  }

  /** The join ends in a newline exactly when a last, empty line follows another. */
  lemma {:induction false} JoinEnd(lines: seq<string>)
    requires Clean(lines) && lines != []
    ensures var content, last := Join(lines), lines[|lines| - 1];
            if |lines| > 1 && last == "" then content == Join(lines[..|lines| - 1]) + "\n"
            else content == "" || content[|content| - 1] != '\n'
  {
    if |lines| == 2 {
      assert lines[1..] == [lines[1]] && lines[..1] == [lines[0]];
      assert Join(lines) == lines[0] + "\n" + lines[1];
    } else if |lines| > 2 {
      JoinEnd(lines[1..]);
      assert lines[1..][..|lines| - 2] == lines[..|lines| - 1][1..];
    }
  }

  function LastNewline(s: string): string { if s != "" && s[|s| - 1] == '\n' then "\n" else "" }

  lemma OneLine(s: string)
    requires s != "" && LineLength(s) == |s|
    ensures Join(Lines(s)) + LastNewline(s) == s
  {
    assert s[..|s|] == s && s[|s| - 1] in s[..|s|];
  }

  lemma MoreLines(line: string, rest: string)
    requires '\n' !in line && Join(Lines(rest)) + LastNewline(rest) == rest
    ensures Join(Lines(line + "\n" + rest)) + LastNewline(line + "\n" + rest) == line + "\n" + rest
  {
    LinesCons(line, rest);
    LastOfMore(line, rest);
    if rest != "" {
      JoinCons(line, Lines(rest));
      Regroup(line + "\n", Join(Lines(rest)), LastNewline(rest));
    } else {
      assert line + "\n" + rest == line + "\n" && [line] + Lines(rest) == [line];
    }
  }

  lemma LastOfMore(line: string, rest: string)
    ensures LastNewline(line + "\n" + rest) == if rest == "" then "\n" else LastNewline(rest)
  {
  }

  lemma JoinCons(line: string, lines: seq<string>)
    requires lines != []
    ensures Join([line] + lines) == line + "\n" + Join(lines)
  {
    assert ([line] + lines)[1..] == lines;
  }

  lemma CutLine(s: string) returns (line: string, rest: string)
    requires LineLength(s) < |s|
    ensures s == line + "\n" + rest && '\n' !in line
  {
    var n := LineLength(s);
    line, rest := s[..n], s[n + 1..];
  }

  /** The lines of a text, joined again, are the text without a last newline. */
  lemma {:induction false} LinesMeaning(s: string)
    ensures Join(Lines(s)) + LastNewline(s) == s
    decreases |s|
  {
    if s != "" {
      if LineLength(s) < |s| {
        var line, rest := CutLine(s);
        LinesMeaning(rest);
        MoreLines(line, rest);
      } else {
        OneLine(s);
      }
    }
  }

  /** Reading back what was written yields the same lines, except that one trailing blank line is lost. */
  lemma LinesOfWritten(lines: seq<string>)
    requires Clean(lines) && lines != []
    ensures var last := lines[|lines| - 1];
            Lines(Written(lines)) == if |lines| > 1 && last == "" then lines[..|lines| - 1] else lines
  {
    JoinEnd(lines);
    if |lines| > 1 && lines[|lines| - 1] == "" {
      LinesOfJoin(lines[..|lines| - 1]);
    } else {
      LinesOfJoin(lines);
    }
  }
}
