/** Specification milestones: parsing them, planning over them, and completing one in place. */
module SpecMilestones {
  import opened Prelude
  import opened SpecText

  datatype Milestone = Milestone(marker: string, id: string, title: string, dependsOn: string, completed: bool,
                                 lineIndex: nat)

  datatype Header = Header(completed: bool, marker: string, title: string)

  // ---------------------------------------------------------------- one line

  function ParseHeader(line: string): Option<Header>
  {
    match StripPrefix(TrimStart(line), "- [")
    case None => None
    case Some(rest) =>
      match SplitOnce(rest, "] ")
      case None => None
      case Some((mark, text)) =>
        if mark == " " then ParseTitle(false, Trim(text))
        else if mark == "x" || mark == "X" then ParseTitle(true, Trim(text))
        else None
  }

  function ParseTitle(completed: bool, text: string): Option<Header>
  {
    if text == "" || text[0] != '#' then None
    else
      var n := WordLength(text);
      var marker, title := Trim(text[..n]), if n < |text| then Trim(text[n + 1..]) else "";
      if |marker| <= 1 || title == "" then None else Some(Header(completed, marker, title))
  }

  function ParseChildField(line: string, field: string): Option<string>
  {
    var trimmed := Trim(line);
    var item := if StripPrefix(trimmed, "- ").Some? then StripPrefix(trimmed, "- ").value else trimmed;
    match StripPrefix(item, field)
    case None => None
    case Some(rest) =>
      match StripPrefix(rest, ":")
      case None => None
      case Some(value) => Some(Trim(value))
  }

  /** Everything the parser reads off one line: a header, an id, or a dependency list. */
  datatype LineInfo = LineInfo(header: Option<Header>, id: Option<string>, dependsOn: Option<string>)

  function Read(line: string): LineInfo
  {
    var id := ParseChildField(line, "ID");
    LineInfo(ParseHeader(line), id, if id.Some? then None else ParseChildField(line, "Depends on"))
  }

  function ReadAll(lines: seq<string>): seq<LineInfo> { Map(Read, lines) }

  // ---------------------------------------------------------------- what a file means

  /** The block of a header runs up to the next header. */
  function BlockEnd(infos: seq<LineInfo>, i: nat): (end: nat)
    requires i <= |infos|
    ensures i <= end <= |infos|
    decreases |infos| - i
  {
    if i == |infos| || infos[i].header.Some? then i else BlockEnd(infos, i + 1)
  }

  /** The last line of a range that carries the field decides. */
  function LastId(infos: seq<LineInfo>, lo: nat, hi: nat): Option<string>
    requires lo <= hi <= |infos|
    decreases hi - lo
  {
    if lo == hi then None else if infos[hi - 1].id.Some? then infos[hi - 1].id else LastId(infos, lo, hi - 1)
  }

  function LastDepends(infos: seq<LineInfo>, lo: nat, hi: nat): Option<string>
    requires lo <= hi <= |infos|
    decreases hi - lo
  {
    if lo == hi then None
    else if infos[hi - 1].dependsOn.Some? then infos[hi - 1].dependsOn
    else LastDepends(infos, lo, hi - 1)
  }

  function Milestoned(header: Header, id: Option<string>, dependsOn: Option<string>, i: nat): seq<Milestone>
  {
    if id.None? || id.value == "" then []
    else
      var after := if dependsOn.Some? then dependsOn.value else "none";
      [Milestone(header.marker, id.value, header.title, after, header.completed, i)]
  }

  /** The milestone a line introduces: a header whose block gives it a non-empty id. */
  function MilestoneAt(infos: seq<LineInfo>, i: nat): seq<Milestone>
    requires i < |infos|
  {
    if infos[i].header.None? then []
    else
      var end := BlockEnd(infos, i + 1);
      Milestoned(infos[i].header.value, LastId(infos, i + 1, end), LastDepends(infos, i + 1, end), i)
  }

  /** Every line considered on its own. */
  function Milestones(infos: seq<LineInfo>, from: nat): seq<Milestone>
    requires from <= |infos|
    decreases |infos| - from
  {
    if from == |infos| then [] else MilestoneAt(infos, from) + Milestones(infos, from + 1)
  }

  function MilestonesOf(content: string): seq<Milestone> { Milestones(ReadAll(Lines(content)), 0) }

  // ---------------------------------------------------------------- what a header's block gives it

  /** The lines that belong to the header on line `i`: those up to the next header. */
  predicate InBlock(infos: seq<LineInfo>, i: nat, j: int)
  {
    i < j < |infos| && forall l :: i < l <= j ==> infos[l].header.None?
  }

  /** The last line of the block with an id. */
  ghost predicate GivesId(infos: seq<LineInfo>, i: nat, j: int)
  {
    && InBlock(infos, i, j) && infos[j].id.Some?
    && forall l :: j < l && InBlock(infos, i, l) ==> infos[l].id.None?
  }

  ghost predicate GivesDepends(infos: seq<LineInfo>, i: nat, j: int)
  {
    && InBlock(infos, i, j) && infos[j].dependsOn.Some?
    && forall l :: j < l && InBlock(infos, i, l) ==> infos[l].dependsOn.None?
  }

  lemma {:induction false} BlockEndMeaning(infos: seq<LineInfo>, i: nat)
    requires i <= |infos|
    ensures forall l :: i <= l < BlockEnd(infos, i) ==> infos[l].header.None?
    ensures BlockEnd(infos, i) < |infos| ==> infos[BlockEnd(infos, i)].header.Some?
    decreases |infos| - i
  {
    if i < |infos| && infos[i].header.None? { BlockEndMeaning(infos, i + 1); }
  }

  lemma BlockMeaning(infos: seq<LineInfo>, i: nat, j: int)
    requires i < |infos|
    ensures InBlock(infos, i, j) <==> i < j < BlockEnd(infos, i + 1)
  {
    BlockEndMeaning(infos, i + 1);
  }

  lemma {:induction false} LastIdIs(infos: seq<LineInfo>, lo: nat, hi: nat, j: int)
    requires lo <= j < hi <= |infos| && infos[j].id.Some? && forall l :: j < l < hi ==> infos[l].id.None?
    ensures LastId(infos, lo, hi) == infos[j].id
    decreases hi - lo
  {
    if j < hi - 1 { LastIdIs(infos, lo, hi - 1, j); }
  }

  lemma {:induction false} NoIdThere(infos: seq<LineInfo>, lo: nat, hi: nat)
    requires lo <= hi <= |infos| && forall l :: lo <= l < hi ==> infos[l].id.None?
    ensures LastId(infos, lo, hi).None?
    decreases hi - lo
  {
    if lo < hi { NoIdThere(infos, lo, hi - 1); }
  }

  lemma {:induction false} LastDependsIs(infos: seq<LineInfo>, lo: nat, hi: nat, j: int)
    requires lo <= j < hi <= |infos| && infos[j].dependsOn.Some? && forall l :: j < l < hi ==> infos[l].dependsOn.None?
    ensures LastDepends(infos, lo, hi) == infos[j].dependsOn
    decreases hi - lo
  {
    if j < hi - 1 { LastDependsIs(infos, lo, hi - 1, j); }
  }

  lemma {:induction false} NoDependsThere(infos: seq<LineInfo>, lo: nat, hi: nat)
    requires lo <= hi <= |infos| && forall l :: lo <= l < hi ==> infos[l].dependsOn.None?
    ensures LastDepends(infos, lo, hi).None?
    decreases hi - lo
  {
    if lo < hi { NoDependsThere(infos, lo, hi - 1); }
  }

  /** A header introduces a milestone exactly when the last id of its block is there and not empty. It keeps
      the header's fields; its dependencies are the last ones of the block, or "none". */
  lemma MilestoneMeaning(infos: seq<LineInfo>, i: nat, idAt: int, dependsAt: int)
    requires i < |infos| && infos[i].header.Some?
    requires GivesId(infos, i, idAt) || forall j :: InBlock(infos, i, j) ==> infos[j].id.None?
    requires GivesDepends(infos, i, dependsAt) || forall j :: InBlock(infos, i, j) ==> infos[j].dependsOn.None?
    ensures var header := infos[i].header.value;
            MilestoneAt(infos, i) ==
              if !GivesId(infos, i, idAt) || infos[idAt].id.value == "" then []
              else [Milestone(header.marker, infos[idAt].id.value, header.title,
                              if GivesDepends(infos, i, dependsAt) then infos[dependsAt].dependsOn.value else "none",
                              header.completed, i)]
  {
    var end := BlockEnd(infos, i + 1);
    forall j ensures InBlock(infos, i, j) <==> i < j < end { BlockMeaning(infos, i, j); }
    if GivesId(infos, i, idAt) { LastIdIs(infos, i + 1, end, idAt); } else { NoIdThere(infos, i + 1, end); }
    if GivesDepends(infos, i, dependsAt) {
      LastDependsIs(infos, i + 1, end, dependsAt);
    } else {
      NoDependsThere(infos, i + 1, end);
    }
  }

  // ---------------------------------------------------------------- the parser

  lemma {:induction false} SkipBlock(infos: seq<LineInfo>, i: nat)
    requires i <= |infos|
    ensures Milestones(infos, i) == Milestones(infos, BlockEnd(infos, i))
    decreases |infos| - i
  {
    if i < |infos| && infos[i].header.None? { SkipBlock(infos, i + 1); }
  }

  /** The milestones found so far, followed by those of the lines left, are all of them. */
  ghost predicate Parsed(found: seq<Milestone>, infos: seq<LineInfo>, idx: nat)
  {
    idx <= |infos| && found + Milestones(infos, idx) == Milestones(infos, 0)
  }

  lemma HeaderStep(found: seq<Milestone>, infos: seq<LineInfo>, i: nat)
    requires i < |infos| && infos[i].header.Some? && Parsed(found, infos, i)
    ensures Parsed(found + MilestoneAt(infos, i), infos, BlockEnd(infos, i + 1))
  {
    SkipBlock(infos, i + 1);
    var at, rest := MilestoneAt(infos, i), Milestones(infos, BlockEnd(infos, i + 1));
    assert found + (at + rest) == found + at + rest;
  }

  lemma PlainStep(found: seq<Milestone>, infos: seq<LineInfo>, i: nat)
    requires i < |infos| && infos[i].header.None? && Parsed(found, infos, i)
    ensures Parsed(found, infos, i + 1)
  {
    assert [] + Milestones(infos, i + 1) == Milestones(infos, i + 1);
  }

  /** Gather the fields below a header, up to the next header. */
  method ScanBlock(infos: seq<LineInfo>, start: nat) returns (id: Option<string>, dependsOn: Option<string>, child: nat)
    requires start <= |infos|
    ensures child == BlockEnd(infos, start) && id == LastId(infos, start, child)
        && dependsOn == LastDepends(infos, start, child)
  {
    id, dependsOn, child := None, None, start;
    while child < |infos|
      invariant start <= child <= |infos|
      invariant BlockEnd(infos, start) == BlockEnd(infos, child)
      invariant id == LastId(infos, start, child) && dependsOn == LastDepends(infos, start, child)
    {
      if infos[child].header.Some? { break; }
      if infos[child].id.Some? { id := infos[child].id; }
      if infos[child].dependsOn.Some? { dependsOn := infos[child].dependsOn; }
      child := child + 1;
    }
  }

  /** The block-by-block scan finds exactly the milestones the lines introduce one by one. */
  method FindMilestones(infos: seq<LineInfo>) returns (milestones: seq<Milestone>)
    ensures milestones == Milestones(infos, 0)
  {
    milestones := [];
    var idx := 0;
    while idx < |infos|
      invariant Parsed(milestones, infos, idx)
    {
      if infos[idx].header.Some? {
        HeaderStep(milestones, infos, idx);
        var id, dependsOn, child := ScanBlock(infos, idx + 1);
        milestones := milestones + Milestoned(infos[idx].header.value, id, dependsOn, idx);
        idx := child;
      } else {
        PlainStep(milestones, infos, idx);
        idx := idx + 1;
      }
    }
    assert milestones + [] == milestones;
  }

  method ParseSpec(content: string) returns (milestones: seq<Milestone>, lines: seq<string>)
    ensures milestones == MilestonesOf(content) && lines == Lines(content)
  {
    lines := Lines(content);
    milestones := FindMilestones(ReadAll(lines));
  }

  // ---------------------------------------------------------------- marking a line

  function Mark(line: string): string
  {
    match Find(line, "- [ ]")
    case None => line
    case Some(p) => Replace(line, p)
  }

  lemma StartsOtherwise(s: string, pattern: string)
    requires 0 < |pattern| <= |s| && s[0] != pattern[0]
    ensures s[..|pattern|] != pattern
  {
    assert s[..|pattern|][0] == s[0];
  }

  lemma FindSkips(s: string, pattern: string)
    requires s != "" && pattern != "" && s[0] != pattern[0]
    ensures Find(s, pattern) == match Find(s[1..], pattern) case None => None case Some(p) => Some(p + 1)
  {
    if |s| < |pattern| {
      assert Find(s[1..], pattern).None?;
    } else {
      StartsOtherwise(s, pattern);
    }
  }

  function Replace(line: string, p: nat): string
    requires p + 5 <= |line|
  {
    line[..p] + "- [x]" + line[p + 5..]
  }

  lemma ReplaceLater(line: string, p: nat)
    requires p + 6 <= |line|
    ensures Replace(line, p + 1) == [line[0]] + Replace(line[1..], p)
  {
    assert line[..p + 1] == [line[0]] + line[1..][..p];
    assert line[p + 6..] == line[1..][p + 5..];
  }

  lemma MarkSkipsWhitespace(line: string)
    requires line != "" && IsWhitespace(line[0])
    ensures Mark(line) == [line[0]] + Mark(line[1..])
  {
    FindSkips(line, "- [ ]");
    var found := Find(line[1..], "- [ ]");
    if found.Some? {
      ReplaceLater(line, found.value);
    } else {
      assert line == [line[0]] + line[1..];
    }
  }

  /** A box mark is one character, so the separator is found right after it. */
  lemma SplitMark(mark: char, text: string)
    requires mark != ']'
    ensures SplitOnce([mark, ']', ' '] + text, "] ") == Some(([mark], text))
  {
    var rest := [mark, ']', ' '] + text;
    FindSkips(rest, "] ");
    assert rest[1..] == "] " + text;
    assert rest[1..][..2] == "] ";
    assert rest[..1] == [mark] && rest[3..] == text;
  }

  /** How a line that starts with a box is read. */
  lemma BoxedLine(mark: char, text: string)
    requires mark != ']'
    ensures var line := "- [" + [mark, ']', ' '] + text;
            TrimStart(line) == line && StripPrefix(line, "- [") == Some([mark, ']', ' '] + text)
  {
    var line := "- [" + [mark, ']', ' '] + text;
    assert line[0] == '-';
    assert line[..3] == "- [" && line[3..] == [mark, ']', ' '] + text;
  }

  lemma MarkedLine(text: string)
    ensures ParseHeader("- [x] " + text) == ParseTitle(true, Trim(text))
  {
    BoxedLine('x', text);
    SplitMark('x', text);
    assert "- [x] " + text == "- [" + ['x', ']', ' '] + text;
  }

  /** The line behind an open header that starts the line. */
  lemma OpenLine(line: string) returns (text: string)
    requires line == TrimStart(line) && ParseHeader(line).Some? && !ParseHeader(line).value.completed
    ensures line == "- [ ] " + text && ParseHeader(line) == ParseTitle(false, Trim(text))
  {
    var rest := StripPrefix(line, "- [").value;
    text := SplitOnce(rest, "] ").value.1;
    assert rest == rest[..1] + rest[1..3] + rest[3..];
    assert rest == " ] " + text;
  }

  lemma MarkOpen(text: string)
    ensures Mark("- [ ] " + text) == "- [x] " + text
  {
    var line := "- [ ] " + text;
    assert line[..5] == "- [ ]" && line[5..] == " " + text;
    assert Find(line, "- [ ]") == Some(0);
    SameTail("- [x]", text);
  }

  lemma SameTail(box: string, text: string)
    ensures "" + box + (" " + text) == box + " " + text
  {
  }

  lemma MarkAtStart(line: string)
    requires line == TrimStart(line) && ParseHeader(line).Some? && !ParseHeader(line).value.completed
    ensures ParseHeader(Mark(line)) == Some(ParseHeader(line).value.(completed := true))
  {
    var text := OpenLine(line);
    MarkOpen(text);
    MarkedLine(text);
  }

  /** Marking an open header gives the same header, completed. */
  lemma {:induction false} MarkCompletes(line: string)
    requires ParseHeader(line).Some? && !ParseHeader(line).value.completed
    ensures ParseHeader(Mark(line)) == Some(ParseHeader(line).value.(completed := true))
  {
    if line != "" && IsWhitespace(line[0]) {
      MarkSkipsWhitespace(line);
      assert Mark(line)[1..] == Mark(line[1..]);
      MarkCompletes(line[1..]);
    } else {
      MarkAtStart(line);
    }
  }
}
