/** Completing a milestone in its file, and what that does to a later parse and to the plan. */
module SpecEdit {
  import opened Prelude
  import opened Ordering
  import opened SpecText
  import opened SpecMilestones

  function FirstWith(ms: seq<Milestone>, id: string): (r: Option<nat>)
    ensures r.Some? ==> r.value < |ms| && ms[r.value].id == id && forall j :: 0 <= j < r.value ==> ms[j].id != id
    ensures r.None? ==> forall j :: 0 <= j < |ms| ==> ms[j].id != id
  {
    if ms == [] then None
    else if ms[0].id == id then Some(0)
    else
      match FirstWith(ms[1..], id)
      case None => assert forall j :: 0 < j < |ms| ==> ms[j] == ms[1..][j - 1]; None
      case Some(i) => assert forall j :: 0 < j < |ms| ==> ms[j] == ms[1..][j - 1]; Some(i + 1)
  }

  function Complete(m: Milestone): Milestone { m.(completed := true) }

  // ---------------------------------------------------------------- milestones and lines

  /** A milestone read from its own header line. */
  predicate FromHeader(infos: seq<LineInfo>, m: Milestone)
  {
    m.lineIndex < |infos| && infos[m.lineIndex].header == Some(Header(m.completed, m.marker, m.title))
  }

  /** Milestones come in line order, each from its own header line. */
  ghost predicate InLineOrder(infos: seq<LineInfo>, ms: seq<Milestone>, from: nat)
  {
    && (forall i :: 0 <= i < |ms| ==> from <= ms[i].lineIndex && FromHeader(infos, ms[i]))
    && (forall i, j :: 0 <= i < j < |ms| ==> ms[i].lineIndex < ms[j].lineIndex)
  }

  lemma PrependInOrder(infos: seq<LineInfo>, at: seq<Milestone>, rest: seq<Milestone>, from: nat)
    requires InLineOrder(infos, rest, from + 1) && |at| <= 1
    requires forall i :: 0 <= i < |at| ==> at[i].lineIndex == from && FromHeader(infos, at[i])
    ensures InLineOrder(infos, at + rest, from)
  {
    if at == [] { assert at + rest == rest; }
  }

  lemma {:induction false} MilestoneLines(infos: seq<LineInfo>, from: nat)
    requires from <= |infos|
    ensures InLineOrder(infos, Milestones(infos, from), from)
    decreases |infos| - from
  {
    if from < |infos| {
      MilestoneLines(infos, from + 1);
      PrependInOrder(infos, MilestoneAt(infos, from), Milestones(infos, from + 1), from);
    }
  }

  /** `b` is `a` with the open header on one line completed. */
  ghost predicate HeaderCompleted(a: seq<LineInfo>, b: seq<LineInfo>, li: nat)
  {
    && |a| == |b| && li < |a| && a[li].header.Some? && b[li].header == Some(a[li].header.value.(completed := true))
    && forall i :: 0 <= i < |a| && i != li ==> a[i] == b[i]
  }

  lemma {:induction false} SameBlocks(a: seq<LineInfo>, b: seq<LineInfo>, li: nat, i: nat)
    requires HeaderCompleted(a, b, li) && i <= |a|
    ensures BlockEnd(a, i) == BlockEnd(b, i)
    ensures i <= li ==> BlockEnd(a, i) <= li
    decreases |a| - i
  {
    if i < |a| && i != li { SameBlocks(a, b, li, i + 1); }
  }

  lemma {:induction false} SameFields(a: seq<LineInfo>, b: seq<LineInfo>, lo: nat, hi: nat)
    requires lo <= hi <= |a| && hi <= |b| && forall i :: lo <= i < hi ==> a[i] == b[i]
    ensures LastId(a, lo, hi) == LastId(b, lo, hi) && LastDepends(a, lo, hi) == LastDepends(b, lo, hi)
    decreases hi - lo
  {
    if lo < hi { SameFields(a, b, lo, hi - 1); }
  }

  function FlipLine(ms: seq<Milestone>, li: nat): (r: seq<Milestone>)
    ensures |r| == |ms| && forall i :: 0 <= i < |ms| ==>
        r[i] == if ms[i].lineIndex == li then Complete(ms[i]) else ms[i]
  {
    seq(|ms|, i requires 0 <= i < |ms| => if ms[i].lineIndex == li then Complete(ms[i]) else ms[i])
  }

  lemma SameMilestoneAt(a: seq<LineInfo>, b: seq<LineInfo>, li: nat, i: nat)
    requires HeaderCompleted(a, b, li) && i < |a|
    ensures MilestoneAt(b, i) == FlipLine(MilestoneAt(a, i), li)
  {
    SameBlocks(a, b, li, i + 1);
    SameFields(a, b, i + 1, BlockEnd(a, i + 1));
  }

  /** Completing one header completes its milestone and leaves every other as it was. */
  lemma {:induction false} MilestonesFlip(a: seq<LineInfo>, b: seq<LineInfo>, li: nat, from: nat)
    requires HeaderCompleted(a, b, li) && from <= |a|
    ensures Milestones(b, from) == FlipLine(Milestones(a, from), li)
    decreases |a| - from
  {
    if from < |a| {
      SameMilestoneAt(a, b, li, from);
      MilestonesFlip(a, b, li, from + 1);
      FlipConcat(MilestoneAt(a, from), Milestones(a, from + 1), li);
    }
  }

  lemma FlipConcat(x: seq<Milestone>, y: seq<Milestone>, li: nat)
    ensures FlipLine(x + y, li) == FlipLine(x, li) + FlipLine(y, li)
  {
  }

  // ---------------------------------------------------------------- the lost blank line

  const BLANK: LineInfo := LineInfo(None, None, None)

  lemma BlankIsPlain()
    ensures Read("") == BLANK
  {
    assert TrimStart("") == "" && Trim("") == "";
  }

  lemma {:induction false} BlankBlock(infos: seq<LineInfo>, i: nat)
    requires i <= |infos|
    ensures var end := BlockEnd(infos, i);
            BlockEnd(infos + [BLANK], i) == if end == |infos| then end + 1 else end
    decreases |infos| - i
  {
    if i < |infos| {
      BlankBlock(infos, i + 1);
    } else {
      assert BlockEnd(infos + [BLANK], i + 1) == i + 1;
    }
  }

  lemma BlankFields(infos: seq<LineInfo>, lo: nat)
    requires lo <= |infos|
    ensures LastId(infos + [BLANK], lo, BlockEnd(infos + [BLANK], lo)) == LastId(infos, lo, BlockEnd(infos, lo))
    ensures LastDepends(infos + [BLANK], lo, BlockEnd(infos + [BLANK], lo)) ==
        LastDepends(infos, lo, BlockEnd(infos, lo))
  {
    BlankBlock(infos, lo);
    SameFields(infos, infos + [BLANK], lo, BlockEnd(infos, lo));
  }

  lemma BlankAt(infos: seq<LineInfo>, i: nat)
    requires i < |infos|
    ensures MilestoneAt(infos + [BLANK], i) == MilestoneAt(infos, i)
  {
    assert (infos + [BLANK])[i] == infos[i];
    BlankFields(infos, i + 1);
  }

  /** A trailing blank line changes no milestone. */
  lemma {:induction false} BlankTail(infos: seq<LineInfo>, from: nat)
    requires from <= |infos|
    ensures Milestones(infos + [BLANK], from) == Milestones(infos, from)
    decreases |infos| - from
  {
    if from < |infos| {
      BlankAt(infos, from);
      BlankTail(infos, from + 1);
    } else {
      assert (infos + [BLANK])[from] == BLANK;
      assert MilestoneAt(infos + [BLANK], from) == [] && Milestones(infos + [BLANK], from + 1) == [];
    }
  }

  lemma BlankLineDropped(lines: seq<string>)
    ensures Milestones(ReadAll(lines + [""]), 0) == Milestones(ReadAll(lines), 0)
  {
    BlankIsPlain();
    MapAppend(Read, lines, "");
    BlankTail(ReadAll(lines), 0);
  }

  /** Writing lines and parsing the file again finds the same milestones. */
  lemma WrittenMilestones(lines: seq<string>)
    requires Clean(lines) && lines != []
    ensures MilestonesOf(Written(lines)) == Milestones(ReadAll(lines), 0)
  {
    LinesOfWritten(lines);
    var last := |lines| - 1;
    if last > 0 && lines[last] == "" {
      BlankLineDropped(lines[..last]);
      assert lines == lines[..last] + [""];
    }
  }

  // ---------------------------------------------------------------- edit, then parse again

  /** The file after completing the first milestone with the given id. */
  function CompletedFile(content: string, id: string): string
  {
    var lines, ms := Lines(content), MilestonesOf(content);
    match FirstWith(ms, id)
    case None => content
    case Some(i) =>
      HasLine(lines, i);
      if ms[i].completed then content else Written(MarkLine(lines, ms[i].lineIndex))
  }

  lemma HasLine(lines: seq<string>, i: nat)
    requires i < |Milestones(ReadAll(lines), 0)|
    ensures var m := Milestones(ReadAll(lines), 0)[i];
            m.lineIndex < |lines| && FromHeader(ReadAll(lines), m)
  {
    MilestoneLines(ReadAll(lines), 0);
  }

  function MarkLine(lines: seq<string>, li: nat): seq<string>
    requires li < |lines|
  {
    lines[li := Mark(lines[li])]
  }

  lemma MarkIsClean(line: string)
    requires '\n' !in line
    ensures '\n' !in Mark(line)
  {
  }

  lemma MarkedLines(lines: seq<string>, m: Milestone)
    requires Clean(lines) && m.lineIndex < |lines| && FromHeader(ReadAll(lines), m) && !m.completed
    ensures Clean(MarkLine(lines, m.lineIndex))
    ensures HeaderCompleted(ReadAll(lines), ReadAll(MarkLine(lines, m.lineIndex)), m.lineIndex)
  {
    MarkIsClean(lines[m.lineIndex]);
    MapUpdate(Read, lines, m.lineIndex, Mark(lines[m.lineIndex]));
    MarkCompletes(lines[m.lineIndex]);
  }

  lemma FlipIsUpdate(infos: seq<LineInfo>, i: nat)
    requires i < |Milestones(infos, 0)|
    ensures var ms := Milestones(infos, 0); FlipLine(ms, ms[i].lineIndex) == ms[i := Complete(ms[i])]
  {
    MilestoneLines(infos, 0);
  }

  /** Completing a milestone and parsing the written file gives the same milestones with only the first
      matching one completed. */
  lemma EditThenReparse(content: string, id: string)
    ensures var ms := MilestonesOf(content);
            MilestonesOf(CompletedFile(content, id)) ==
            match FirstWith(ms, id) case None => ms case Some(i) => ms[i := Complete(ms[i])]
  {
    var lines, ms := Lines(content), MilestonesOf(content);
    var at := FirstWith(ms, id);
    if at.Some? {
      var i := at.value;
      HasLine(lines, i);
      if ms[i].completed {
        assert ms[i := Complete(ms[i])] == ms;
      } else {
        MarkedReparse(lines, i);
      }
    }
  }

  lemma MarkedReparse(lines: seq<string>, i: nat)
    requires Clean(lines) && i < |Milestones(ReadAll(lines), 0)| && !Milestones(ReadAll(lines), 0)[i].completed
    ensures var ms := Milestones(ReadAll(lines), 0);
            && ms[i].lineIndex < |lines|
            && MilestonesOf(Written(MarkLine(lines, ms[i].lineIndex))) == ms[i := Complete(ms[i])]
  {
    var m := Milestones(ReadAll(lines), 0)[i];
    HasLine(lines, i);
    MarkedLines(lines, m);
    MilestonesFlip(ReadAll(lines), ReadAll(MarkLine(lines, m.lineIndex)), m.lineIndex, 0);
    FlipIsUpdate(ReadAll(lines), i);
    WrittenMilestones(MarkLine(lines, m.lineIndex));
  }

  // ---------------------------------------------------------------- what the edit leaves alone

  predicate BoxAt(s: string, p: int) { 0 <= p <= |s| - 5 && s[p..p + 5] == "- [ ]" }

  /** The first open box of a line. */
  predicate FirstBox(s: string, p: int) { BoxAt(s, p) && forall q :: 0 <= q < p ==> !BoxAt(s, q) }

  /** The first open box of the line is ticked, and nothing else in it changes. */
  ghost predicate BoxTicked(before: string, after: string)
  {
    exists p :: FirstBox(before, p) && after == before[..p] + "- [x]" + before[p + 5..]
  }

  lemma BoxLater(s: string, q: int)
    requires s != "" && 0 < q
    ensures BoxAt(s, q) <==> BoxAt(s[1..], q - 1)
  {
    if q <= |s| - 5 { assert s[1..][q - 1..q + 4] == s[q..q + 5]; }
  }

  lemma {:induction false} FindIsFirst(s: string)
    requires Find(s, "- [ ]").Some?
    ensures FirstBox(s, Find(s, "- [ ]").value)
  {
    if s[..5] != "- [ ]" {
      FindIsFirst(s[1..]);
      forall q | 0 < q ensures BoxAt(s, q) <==> BoxAt(s[1..], q - 1) { BoxLater(s, q); }
    }
  }

  lemma MarkTicks(line: string)
    requires ParseHeader(line).Some? && !ParseHeader(line).value.completed
    ensures BoxTicked(line, Mark(line))
  {
    MarkCompletes(line);
    FindIsFirst(line);
  }

  lemma BlankHasNoHeader()
    ensures ParseHeader("").None?
  {
    BlankIsPlain();
  }

  /** Lines of the file that are kept: all but one blank line at the end of several. */
  function KeptLines(lines: seq<string>): nat
  {
    if |lines| > 1 && lines[|lines| - 1] == "" then |lines| - 1 else |lines|
  }

  /** `after` is `before` with the box on one line ticked; at most a last blank line is gone. */
  ghost predicate OnlyTicks(before: seq<string>, after: seq<string>, li: nat)
  {
    && |after| == KeptLines(before) && li < |after| && BoxTicked(before[li], after[li])
    && forall j :: 0 <= j < |after| && j != li ==> after[j] == before[j]
  }

  lemma MarkedOnlyTicks(lines: seq<string>, m: Milestone)
    requires Clean(lines) && m.lineIndex < |lines| && FromHeader(ReadAll(lines), m) && !m.completed
    ensures OnlyTicks(lines, Lines(Written(MarkLine(lines, m.lineIndex))), m.lineIndex)
  {
    var li := m.lineIndex;
    assert ReadAll(lines)[li] == Read(lines[li]);
    MarkedLines(lines, m);
    MarkTicks(lines[li]);
    BlankHasNoHeader();
    LinesOfWritten(MarkLine(lines, li));
    assert MarkLine(lines, li)[li] != "";
  }

  /** Completing a milestone ticks the box on the header line of the first open milestone with that id and
      leaves every other line of the file as it is; without such a milestone the file is unchanged. */
  lemma EditTouchesOneLine(content: string, id: string)
    ensures var ms, edited := MilestonesOf(content), CompletedFile(content, id);
            match FirstWith(ms, id)
            case None => edited == content
            case Some(i) =>
              if ms[i].completed then edited == content
              else OnlyTicks(Lines(content), Lines(edited), ms[i].lineIndex) && edited[|edited| - 1..] == "\n"
  {
    var lines, ms := Lines(content), MilestonesOf(content);
    var at := FirstWith(ms, id);
    if at.Some? && !ms[at.value].completed {
      HasLine(lines, at.value);
      MarkedOnlyTicks(lines, ms[at.value]);
    }
  }

  /** The edit as it runs: parse, find, mark the line in place, write. */
  method CompleteMilestone(content: string, id: string) returns (updated: string)
    ensures updated == CompletedFile(content, id)
  {
    var milestones, lines := ParseSpec(content);
    var current := 0;
    while current < |milestones| && milestones[current].id != id
      invariant current <= |milestones| && forall j :: 0 <= j < current ==> milestones[j].id != id
    {
      current := current + 1;
    }
    if current == |milestones| || milestones[current].completed { return content; }
    HasLine(lines, current);
    var li := milestones[current].lineIndex;
    lines := lines[li := Mark(lines[li])];
    updated := Written(lines);
  }

  // ---------------------------------------------------------------- the plan

  datatype Readiness = Ready | Pending | Done
  datatype PlanItem = PlanItem(milestone: Milestone, readiness: Readiness, blockedBy: seq<string>)

  function NormalizeRef(value: string): string { ToAsciiLowercase(Trim(value)) }

  function DependencyRefs(dependsOn: string): seq<string>
  {
    var text := Trim(dependsOn);
    if text == "" || ToAsciiLowercase(text) in {"none", "n/a", "na", "-"} then []
    else Filter((d: string) => d != "", TrimAll(Split(text, ',')))
  }

  function TrimAll(parts: seq<string>): seq<string> { seq(|parts|, i requires 0 <= i < |parts| => Trim(parts[i])) }

  function MilestoneRefs(m: Milestone): set<string>
  {
    {NormalizeRef(m.id), NormalizeRef(m.marker)}
    + (if StripPrefix(m.marker, "#").Some? then {NormalizeRef(StripPrefix(m.marker, "#").value)} else {})
  }

  function CompletedRefs(ms: seq<Milestone>): set<string>
  {
    if ms == [] then {} else CompletedRefs(ms[1..]) + (if ms[0].completed then MilestoneRefs(ms[0]) else {})
  }

  function PlanOne(m: Milestone, completed: set<string>): PlanItem
  {
    if m.completed then PlanItem(m, Done, [])
    else
      var blocked := Filter((d: string) => NormalizeRef(d) !in completed, DependencyRefs(m.dependsOn));
      PlanItem(m, if blocked == [] then Ready else Pending, blocked)
  }

  function MilestonePlan(ms: seq<Milestone>): (plan: seq<PlanItem>)
    ensures |plan| == |ms|
  {
    seq(|ms|, i requires 0 <= i < |ms| => PlanOne(ms[i], CompletedRefs(ms)))
  }

  lemma {:induction false} CompletedRefsMeaning(ms: seq<Milestone>)
    ensures forall r :: r in CompletedRefs(ms) <==>
        exists i :: 0 <= i < |ms| && ms[i].completed && r in MilestoneRefs(ms[i])
  {
    if ms != [] {
      CompletedRefsMeaning(ms[1..]);
      forall r
        ensures r in CompletedRefs(ms) <==> exists i :: 0 <= i < |ms| && ms[i].completed && r in MilestoneRefs(ms[i])
      {
        if i :| 0 <= i < |ms[1..]| && ms[1..][i].completed && r in MilestoneRefs(ms[1..][i]) {
          assert ms[i + 1].completed && r in MilestoneRefs(ms[i + 1]);
        }
        if i :| 0 < i < |ms| && ms[i].completed && r in MilestoneRefs(ms[i]) { assert ms[1..][i - 1] == ms[i]; }
      }
    }
  }

  /** Equal apart from surrounding white space and letter case. */
  predicate SameRef(a: string, b: string) { ToAsciiLowercase(Trim(a)) == ToAsciiLowercase(Trim(b)) }

  /** A dependency names a milestone by its id, its marker, or its marker without the hash. */
  predicate Names(d: string, m: Milestone)
  {
    SameRef(d, m.id) || SameRef(d, m.marker) || (m.marker != "" && m.marker[0] == '#' && SameRef(d, m.marker[1..]))
  }

  ghost predicate Satisfied(ms: seq<Milestone>, d: string)
  {
    exists j :: 0 <= j < |ms| && ms[j].completed && Names(d, ms[j])
  }

  lemma NamesIsRef(d: string, m: Milestone)
    ensures Names(d, m) <==> NormalizeRef(d) in MilestoneRefs(m)
  {
    if m.marker != "" { assert m.marker[..1] == [m.marker[0]] && "#" == ['#']; }
  }

  lemma SatisfiedIsCompleted(ms: seq<Milestone>, d: string)
    ensures Satisfied(ms, d) <==> NormalizeRef(d) in CompletedRefs(ms)
  {
    CompletedRefsMeaning(ms);
    forall j | 0 <= j < |ms| ensures Names(d, ms[j]) <==> NormalizeRef(d) in MilestoneRefs(ms[j]) {
      NamesIsRef(d, ms[j]);
    }
  }

  /** Exactly when an item of the plan is done, ready or pending, and what blocks it: the dependencies that
      name no completed milestone. */
  lemma PlanMeaning(ms: seq<Milestone>, i: nat)
    requires i < |ms|
    ensures var item, deps := MilestonePlan(ms)[i], DependencyRefs(ms[i].dependsOn);
            && item.milestone == ms[i]
            && (item.readiness == Done <==> ms[i].completed)
            && (item.readiness == Ready <==> !ms[i].completed && forall d :: d in deps ==> Satisfied(ms, d))
            && forall d :: d in item.blockedBy <==> !ms[i].completed && d in deps && !Satisfied(ms, d)
  {
    var deps, blocked := DependencyRefs(ms[i].dependsOn), MilestonePlan(ms)[i].blockedBy;
    forall d ensures Satisfied(ms, d) <==> NormalizeRef(d) in CompletedRefs(ms) { SatisfiedIsCompleted(ms, d); }
    if blocked != [] { assert blocked[0] in blocked; }
  }

  /** A list that says there are no dependencies. */
  predicate SaysNone(s: string) { Trim(s) == "" || ToAsciiLowercase(Trim(s)) in {"none", "n/a", "na", "-"} }

  /** The dependencies of a list are its non-blank parts between commas, trimmed. */
  lemma DependenciesMeaning(s: string, d: string)
    ensures d in DependencyRefs(s) <==>
            !SaysNone(s) && d != "" && exists part :: part in Split(Trim(s), ',') && Trim(part) == d
  {
    var parts := Split(Trim(s), ',');
    if d in TrimAll(parts) { var i :| 0 <= i < |parts| && TrimAll(parts)[i] == d; assert parts[i] in parts; }
    if part :| part in parts && Trim(part) == d {
      var i :| 0 <= i < |parts| && parts[i] == part;
      assert TrimAll(parts)[i] == d;
    }
  }

  lemma CompletingAddsRefs(ms: seq<Milestone>, i: nat)
    requires i < |ms|
    ensures CompletedRefs(ms) <= CompletedRefs(ms[i := Complete(ms[i])])
  {
    var after := ms[i := Complete(ms[i])];
    CompletedRefsMeaning(ms);
    CompletedRefsMeaning(after);
    forall r | r in CompletedRefs(ms) ensures r in CompletedRefs(after) {
      var j :| 0 <= j < |ms| && ms[j].completed && r in MilestoneRefs(ms[j]);
      assert after[j].completed && r in MilestoneRefs(after[j]);
    }
  }

  lemma {:induction false} FilterFurther(p: string -> bool, q: string -> bool, s: seq<string>)
    requires forall x :: q(x) ==> p(x)
    ensures Filter(q, Filter(p, s)) == Filter(q, s)
  {
    if s != [] {
      FilterFurther(p, q, s[1..]);
      FilterConcat(q, if p(s[0]) then [s[0]] else [], Filter(p, s[1..]));
    }
  }

  /** Where a plan item may go: blockers only disappear, a ready item never becomes pending, done stays done. */
  predicate Advances(before: PlanItem, after: PlanItem)
  {
    && (before.readiness == Done ==> after.readiness == Done)
    && (before.readiness == Ready ==> after.readiness != Pending)
    && (forall d :: d in after.blockedBy ==> d in before.blockedBy)
    && |after.blockedBy| <= |before.blockedBy|
  }

  lemma {:induction false} FilterShrinks(p: string -> bool, s: seq<string>)
    ensures |Filter(p, s)| <= |s|
  {
    if s != [] { FilterShrinks(p, s[1..]); }
  }

  lemma MoreCompletedAdvances(m: Milestone, few: set<string>, many: set<string>)
    requires few <= many
    ensures Advances(PlanOne(m, few), PlanOne(m, many)) && Advances(PlanOne(m, few), PlanOne(Complete(m), many))
  {
    var p, q := (d: string) => NormalizeRef(d) !in few, (d: string) => NormalizeRef(d) !in many;
    FilterFurther(p, q, DependencyRefs(m.dependsOn));
    FilterShrinks(q, Filter(p, DependencyRefs(m.dependsOn)));
  }

  /** Completing a milestone in the file only advances the plan read from it. */
  lemma PlanOnlyAdvances(content: string, id: string)
    ensures var before := MilestonePlan(MilestonesOf(content));
            var after := MilestonePlan(MilestonesOf(CompletedFile(content, id)));
            |after| == |before| && forall j :: 0 <= j < |before| ==> Advances(before[j], after[j])
  {
    var ms := MilestonesOf(content);
    EditThenReparse(content, id);
    var at := FirstWith(ms, id);
    var after := if at.None? then ms else ms[at.value := Complete(ms[at.value])];
    if at.Some? { CompletingAddsRefs(ms, at.value); }
    forall j | 0 <= j < |ms|
      ensures Advances(PlanOne(ms[j], CompletedRefs(ms)), PlanOne(after[j], CompletedRefs(after)))
    {
      MoreCompletedAdvances(ms[j], CompletedRefs(ms), CompletedRefs(after));
    }
  }
}
