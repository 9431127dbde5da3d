/** Writing milestones out and parsing them again: which part of a line is read as which field. */
module SpecRoundTrip {
  import opened Prelude
  import opened SpecText
  import opened SpecMilestones
  import opened SpecEdit

  // ---------------------------------------------------------------- trimming

  lemma {:induction false} TrimStartMeaning(s: string)
    ensures |TrimStart(s)| <= |s| && (TrimStart(s) != "" ==> !IsWhitespace(TrimStart(s)[0]))
    ensures TrimStart(s) == s <==> s == "" || !IsWhitespace(s[0])
    ensures TrimStart(s) != s ==> |TrimStart(s)| < |s|
  {
    if s != "" && IsWhitespace(s[0]) { TrimStartMeaning(s[1..]); }
  }

  lemma {:induction false} TrimEndMeaning(s: string)
    ensures |TrimEnd(s)| <= |s|
    ensures TrimEnd(s) == s <==> s == "" || !IsWhitespace(s[|s| - 1])
  {
    if s != "" && IsWhitespace(s[|s| - 1]) { TrimEndMeaning(s[..|s| - 1]); }
  }

  /** Nothing to trim at either end. */
  predicate Trimmed(s: string) { s == "" || (!IsWhitespace(s[0]) && !IsWhitespace(s[|s| - 1])) }

  lemma TrimKeeps(s: string)
    ensures Trim(s) == s <==> Trimmed(s)
  {
    TrimStartMeaning(s);
    TrimEndMeaning(s);
    TrimEndMeaning(TrimStart(s));
  }

  lemma TrimIndent(s: string)
    requires s != "" && !IsWhitespace(s[0])
    ensures TrimStart("  " + s) == s && Trim("  " + s) == Trim(s)
  {
    assert ("  " + s)[1..] == " " + s && (" " + s)[1..] == s;
    assert TrimStart(" " + s) == TrimStart(s) == s;
  }

  // ---------------------------------------------------------------- one milestone, written out

  /** Fields that survive being written on their lines. */
  predicate WellFormed(m: Milestone)
  {
    && |m.marker| > 1 && m.marker[0] == '#' && (forall c :: c in m.marker ==> !IsWhitespace(c))
    && m.title != "" && Trimmed(m.title) && '\n' !in m.title
    && m.id != "" && Trimmed(m.id) && '\n' !in m.id
    && Trimmed(m.dependsOn) && '\n' !in m.dependsOn
  }

  function HeaderLine(m: Milestone): string
  {
    "- [" + [if m.completed then 'x' else ' ', ']', ' '] + (m.marker + " " + m.title)
  }
  function FieldLine(field: string, value: string): string { "  - " + field + ": " + value }
  function IdLine(m: Milestone): string { FieldLine("ID", m.id) }
  function DependsLine(m: Milestone): string { FieldLine("Depends on", m.dependsOn) }

  // ---------------------------------------------------------------- the header line

  lemma {:induction false} WordEnds(word: string, rest: string)
    requires forall c :: c in word ==> !IsWhitespace(c)
    ensures WordLength(word + " " + rest) == |word|
  {
    if word != "" {
      assert (word + " " + rest)[1..] == word[1..] + " " + rest;
      WordEnds(word[1..], rest);
    }
  }

  lemma TitleReads(m: Milestone)
    requires WellFormed(m)
    ensures ParseTitle(m.completed, m.marker + " " + m.title) == Some(Header(m.completed, m.marker, m.title))
  {
    var text, n := m.marker + " " + m.title, |m.marker|;
    WordEnds(m.marker, m.title);
    assert text[..n] == m.marker && text[n + 1..] == m.title;
    TrimKeeps(m.marker);
    TrimKeeps(m.title);
  }

  lemma TitleTrims(m: Milestone)
    requires WellFormed(m)
    ensures Trim(m.marker + " " + m.title) == m.marker + " " + m.title
  {
    var text := m.marker + " " + m.title;
    assert text[0] == m.marker[0] && text[|text| - 1] == m.title[|m.title| - 1];
    TrimKeeps(text);
  }

  /** A box with a space is open, one with an `x` of either case is ticked, and any other is no header. */
  lemma BoxReads(mark: char, text: string)
    requires mark != ']'
    ensures var header := ParseHeader("- [" + [mark, ']', ' '] + text);
            && (mark == ' ' ==> header == ParseTitle(false, Trim(text)))
            && (mark == 'x' || mark == 'X' ==> header == ParseTitle(true, Trim(text)))
            && (mark !in {' ', 'x', 'X'} ==> header.None?)
  {
    assert [mark][0] == mark && " "[0] == ' ' && "x"[0] == 'x' && "X"[0] == 'X';
    BoxedLine(mark, text);
    SplitMark(mark, text);
  }

  /** The box of a header line says whether it is completed; the word after it is the marker and the rest is
      the title. */
  lemma HeaderReads(m: Milestone)
    requires WellFormed(m)
    ensures ParseHeader(HeaderLine(m)) == Some(Header(m.completed, m.marker, m.title))
  {
    BoxReads(if m.completed then 'x' else ' ', m.marker + " " + m.title);
    TitleTrims(m);
    TitleReads(m);
  }

  lemma HeaderIsNoField(m: Milestone, field: string)
    requires WellFormed(m) && field != "" && field[0] != '['
    ensures ParseChildField(HeaderLine(m), field).None?
  {
    var line := HeaderLine(m);
    assert line[0] == '-' && line[|line| - 1] == m.title[|m.title| - 1];
    TrimKeeps(line);
    assert line[..2] == "- " && line[2..][0] == '[';
    if |field| <= |line[2..]| { assert line[2..][..|field|][0] == '['; }
  }

  // ---------------------------------------------------------------- the field lines

  /** A field line without its indent. */
  function Item(field: string, value: string): string { "- " + field + ": " + value }

  lemma ItemTrims(field: string, value: string)
    requires Trimmed(value)
    ensures Trim(FieldLine(field, value)) == if value == "" then "- " + field + ":" else Item(field, value)
  {
    var item := Item(field, value);
    assert FieldLine(field, value) == "  " + item && item[0] == '-';
    TrimIndent(item);
    TrimStartMeaning(item);
    if value == "" {
      var bare := "- " + field + ":";
      assert item == bare + " " && item[..|item| - 1] == bare;
      TrimEndMeaning(bare);
    } else {
      assert item[|item| - 1] == value[|value| - 1];
      TrimKeeps(item);
    }
  }

  /** What follows the field's name and colon, trimmed, is its value. */
  lemma FieldReads(field: string, value: string)
    requires Trimmed(value)
    ensures ParseChildField(FieldLine(field, value), field) == Some(value)
  {
    ItemTrims(field, value);
    var tail := if value == "" then ":" else ": " + value;
    var trimmed := "- " + field + tail;
    assert trimmed == Trim(FieldLine(field, value)) by { assert Item(field, value) == "- " + field + (": " + value); }
    assert trimmed[..2] == "- " && trimmed[2..] == field + tail;
    assert (field + tail)[..|field|] == field && (field + tail)[|field|..] == tail;
    assert tail[..1] == ":" && tail[1..] == if value == "" then "" else " " + value;
    TailTrims(value);
  }

  lemma TailTrims(value: string)
    requires Trimmed(value)
    ensures Trim(if value == "" then "" else " " + value) == value
  {
    TrimKeeps(value);
    if value != "" { assert (" " + value)[1..] == value; }
  }

  lemma FieldIsNoOther(field: string, value: string, other: string)
    requires Trimmed(value) && field != "" && other != "" && field[0] != other[0]
    ensures ParseChildField(FieldLine(field, value), other).None?
  {
    ItemTrims(field, value);
    var trimmed := Trim(FieldLine(field, value));
    assert trimmed[..2] == "- " && trimmed[2..][0] == field[0];
    if |other| <= |trimmed[2..]| { assert trimmed[2..][..|other|][0] == field[0]; }
  }

  lemma FieldIsNoHeader(field: string, value: string)
    requires field != "" && field[0] != '['
    ensures ParseHeader(FieldLine(field, value)).None?
  {
    var item := Item(field, value);
    assert FieldLine(field, value) == "  " + item && item[0] == '-';
    TrimIndent(item);
    assert item[2] == field[0];
    if |item| >= 3 { assert item[..3][2] == field[0]; }
  }

  // ---------------------------------------------------------------- the file

  function Block(m: Milestone): seq<string> { [HeaderLine(m), IdLine(m), DependsLine(m)] }

  function Render(ms: seq<Milestone>): (lines: seq<string>)
    ensures |lines| == 3 * |ms|
  {
    if ms == [] then [] else Render(ms[..|ms| - 1]) + Block(ms[|ms| - 1])
  }

  ghost predicate Rendered(ms: seq<Milestone>)
  {
    forall i :: 0 <= i < |ms| ==> WellFormed(ms[i]) && ms[i].lineIndex == 3 * i
  }

  lemma {:induction false} BlockAt(ms: seq<Milestone>, k: nat)
    requires k < |ms|
    ensures Render(ms)[3 * k..3 * k + 3] == Block(ms[k])
  {
    var init := ms[..|ms| - 1];
    if k < |ms| - 1 {
      BlockAt(init, k);
      assert Render(ms)[3 * k..3 * k + 3] == Render(init)[3 * k..3 * k + 3];
    }
  }

  lemma LinesRead(m: Milestone)
    requires WellFormed(m)
    ensures Read(HeaderLine(m)) == LineInfo(Some(Header(m.completed, m.marker, m.title)), None, None)
    ensures Read(IdLine(m)) == LineInfo(None, Some(m.id), None)
    ensures Read(DependsLine(m)) == LineInfo(None, None, Some(m.dependsOn))
  {
    HeaderReads(m);
    HeaderIsNoField(m, "ID");
    HeaderIsNoField(m, "Depends on");
    FieldReads("ID", m.id);
    FieldIsNoHeader("ID", m.id);
    FieldReads("Depends on", m.dependsOn);
    FieldIsNoOther("Depends on", m.dependsOn, "ID");
    FieldIsNoHeader("Depends on", m.dependsOn);
  }

  /** The three lines from `i` on carry the milestone's fields. */
  predicate Carries(infos: seq<LineInfo>, i: nat, m: Milestone)
  {
    && i + 3 <= |infos|
    && infos[i] == LineInfo(Some(Header(m.completed, m.marker, m.title)), None, None)
    && infos[i + 1] == LineInfo(None, Some(m.id), None)
    && infos[i + 2] == LineInfo(None, None, Some(m.dependsOn))
  }

  lemma BlockReads(ms: seq<Milestone>, k: nat)
    requires Rendered(ms) && k < |ms|
    ensures Carries(ReadAll(Render(ms)), 3 * k, ms[k])
  {
    BlockAt(ms, k);
    BlockCarries(Render(ms), 3 * k, ms[k]);
  }

  lemma BlockCarries(lines: seq<string>, i: nat, m: Milestone)
    requires WellFormed(m) && i + 3 <= |lines| && lines[i..i + 3] == Block(m)
    ensures Carries(ReadAll(lines), i, m)
  {
    LinesRead(m);
    assert lines[i] == lines[i..i + 3][0] && lines[i + 1] == lines[i..i + 3][1] && lines[i + 2] == lines[i..i + 3][2];
  }

  /** A block of three such lines is one milestone. */
  lemma BlockIsMilestone(infos: seq<LineInfo>, i: nat, m: Milestone)
    requires Carries(infos, i, m) && m.id != "" && m.lineIndex == i
    requires i + 3 < |infos| ==> infos[i + 3].header.Some?
    ensures Milestones(infos, i) == [m] + Milestones(infos, i + 3)
  {
    BlockMilestone(infos, i, m);
    PlainLine(infos, i + 1);
    PlainLine(infos, i + 2);
  }

  lemma PlainLine(infos: seq<LineInfo>, i: nat)
    requires i < |infos| && infos[i].header.None?
    ensures Milestones(infos, i) == Milestones(infos, i + 1)
  {
  }

  lemma BlockMilestone(infos: seq<LineInfo>, i: nat, m: Milestone)
    requires Carries(infos, i, m) && m.id != "" && m.lineIndex == i
    requires i + 3 < |infos| ==> infos[i + 3].header.Some?
    ensures MilestoneAt(infos, i) == [m]
  {
    assert BlockEnd(infos, i + 3) == i + 3;
    assert BlockEnd(infos, i + 2) == i + 3;
    assert LastId(infos, i + 1, i + 2) == Some(m.id);
  }

  /** The milestone's three lines are where its place in the list puts them. */
  predicate InPlace(infos: seq<LineInfo>, ms: seq<Milestone>, k: nat)
  {
    k < |ms| && Carries(infos, 3 * k, ms[k]) && ms[k].id != "" && ms[k].lineIndex == 3 * k
  }

  lemma NextBlock(infos: seq<LineInfo>, ms: seq<Milestone>, k: nat)
    requires |infos| == 3 * |ms| && InPlace(infos, ms, k) && (k + 1 < |ms| ==> InPlace(infos, ms, k + 1))
    ensures Milestones(infos, 3 * k) == [ms[k]] + Milestones(infos, 3 * (k + 1))
  {
    var i := 3 * k;
    assert i + 3 == 3 * (k + 1);
    BlockIsMilestone(infos, i, ms[k]);
  }

  ghost predicate Leads(found: nat -> seq<Milestone>, ms: seq<Milestone>, k: nat)
  {
    k < |ms| ==> found(k) == [ms[k]] + found(k + 1)
  }

  /** What is found one by one is found in all. */
  lemma {:induction false} FoundOneByOne(found: nat -> seq<Milestone>, ms: seq<Milestone>, k: nat)
    requires found(|ms|) == [] && k <= |ms| && forall i: nat :: Leads(found, ms, i)
    ensures found(k) == ms[k..]
    decreases |ms| - k
  {
    if k < |ms| {
      assert Leads(found, ms, k);
      FoundOneByOne(found, ms, k + 1);
      assert ms[k..] == [ms[k]] + ms[k + 1..];
    }
  }

  lemma CarriedMilestones(infos: seq<LineInfo>, ms: seq<Milestone>)
    requires |infos| == 3 * |ms| && forall i :: 0 <= i < |ms| ==> InPlace(infos, ms, i)
    ensures Milestones(infos, 0) == ms
  {
    var found := (k: nat) => if 3 * k <= |infos| then Milestones(infos, 3 * k) else [];
    forall k: nat ensures Leads(found, ms, k) { if k < |ms| { NextBlock(infos, ms, k); } }
    FoundOneByOne(found, ms, 0);
    assert found(0) == Milestones(infos, 0) && ms[0..] == ms;
  }

  lemma NewlineIsSpace(s: string)
    requires forall c :: c in s ==> !IsWhitespace(c)
    ensures '\n' !in s
  {
    assert IsWhitespace('\n');
  }

  lemma BlockIsClean(m: Milestone)
    requires WellFormed(m)
    ensures Clean(Block(m))
  {
    NewlineIsSpace(m.marker);
    assert '\n' !in "- [" && '\n' !in "  - " && '\n' !in ": " && '\n' !in "ID" && '\n' !in "Depends on";
  }

  lemma {:induction false} RenderIsClean(ms: seq<Milestone>)
    requires forall i :: 0 <= i < |ms| ==> WellFormed(ms[i])
    ensures Clean(Render(ms))
  {
    if ms != [] {
      RenderIsClean(ms[..|ms| - 1]);
      BlockIsClean(ms[|ms| - 1]);
    }
  }

  /** The round trip: a file that lists milestones, each with its header, id and dependencies, is parsed as
      exactly those milestones. */
  lemma RenderedFileParses(ms: seq<Milestone>)
    requires Rendered(ms) && ms != []
    ensures MilestonesOf(Written(Render(ms))) == ms
  {
    RenderIsClean(ms);
    WrittenMilestones(Render(ms));
    forall i | 0 <= i < |ms| ensures InPlace(ReadAll(Render(ms)), ms, i) { BlockReads(ms, i); }
    CarriedMilestones(ReadAll(Render(ms)), ms);
  }
}
