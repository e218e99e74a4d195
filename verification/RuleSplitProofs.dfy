/**
 `--split` over all the files: the rules it moves come back, and its dump equals the source, exactly
 when every rule is tidy and every head it writes under ends its line.
 */
module RuleSplitProofs {
  import opened Wrappers
  import opened Text
  import opened RuleFiles
  import opened RuleFilesProofs
  import StableSort

  // ----- the merge

  lemma {:induction false} FirstWithIs(rules: seq<Rule>, n: nat)
    ensures FirstWith(rules, n) == None <==> forall i :: 0 <= i < |rules| ==> rules[i].number != n
  {
    if rules != [] { FirstWithIs(rules[1..], n); }
  }

  lemma {:induction false} ClashIff(rules: seq<Rule>)
    ensures Clash(rules) == None <==> DistinctNumbers(rules)
  {
    if rules != [] {
      var init, last := rules[..|rules| - 1], rules[|rules| - 1];
      ClashIff(init);
      FirstWithIs(init, last.number);
      assert rules == init + [last];
    }
  }

  /** The merge succeeds exactly on distinct numbers, and then gives all the rules in strictly increasing order. */
  lemma MergedIs(perFile: seq<seq<Rule>>)
    ensures Merged(perFile).Ok? <==> DistinctNumbers(Flat(perFile))
    ensures Merged(perFile).Ok? ==>
      var rules := Merged(perFile).value;
      multiset(rules) == multiset(Flat(perFile))
      && forall i, j :: 0 <= i < j < |rules| ==> rules[i].number < rules[j].number
  {
    ClashIff(Flat(perFile));
    if Merged(perFile).Ok? {
      var rules := Merged(perFile).value;
      StableSort.SortedIsSorted(Flat(perFile), ByNumber);
      StableSort.PermutedStrict(Flat(perFile), rules, ByNumber);
      forall i, j | 0 <= i < j < |rules| ensures rules[i].number < rules[j].number {
        assert !ByNumber(rules[j], rules[i]);
      }
    }
  }

  // ----- the numbering

  ghost predicate OneTo(rules: seq<Rule>, max: nat) { forall n: nat :: HasNumber(rules, n) <==> 1 <= n <= max }

  ghost function Highest(rules: seq<Rule>): (max: nat)
    ensures max == 0 || HasNumber(rules, max)
    ensures forall r :: r in rules ==> r.number <= max
  {
    if rules == [] then 0
    else
      var last, rest := rules[|rules| - 1].number, Highest(rules[..|rules| - 1]);
      assert rules == rules[..|rules| - 1] + [rules[|rules| - 1]];
      if last >= rest then assert rules[|rules| - 1] in rules; last else rest
  }

  /** The check of the numbering passes exactly on 1 to the highest number, but for a rule 0, which it does not see. */
  lemma NumberingExact(rules: seq<Rule>)
    ensures OneTo(rules, Highest(rules)) <==> Unbroken(rules) && !HasNumber(rules, 0)
  {
    var max := Highest(rules);
    if Unbroken(rules) && !HasNumber(rules, 0) {
      forall n: nat ensures HasNumber(rules, n) <==> 1 <= n <= max {
        if 1 <= n <= max { assert HasNumber(rules, max); }
      }
    }
    if OneTo(rules, max) {
      assert !HasNumber(rules, 0);
      assert forall r :: r in rules ==> r.number <= max;
    }
  }

  lemma RuleZeroUnseen(body: string)
    ensures var rules := [Rule(0, "core", body)]; Unbroken(rules) && !OneTo(rules, Highest(rules))
  {
    var rules := [Rule(0, "core", body)];
    assert rules[0] in rules && HasNumber(rules, 0);
    NumberingExact(rules);
  }

  // ----- the dump

  lemma {:induction false} LinesOfDump(rules: seq<Rule>)
    ensures |Lines(Dump(rules))| == BodyLines(rules) + 1
  {
    if rules != [] {
      LinesOfBroken(rules[0].body, Dump(rules[1..]));
      LinesOfDump(rules[1..]);
    }
  }

  lemma {:induction false} BodyLinesOfSum(a: seq<Rule>, b: seq<Rule>)
    ensures BodyLines(a + b) == BodyLines(a) + BodyLines(b)
  {
    if a == [] {
      assert a + b == b;
    } else {
      assert (a + b)[1..] == a[1..] + b;
      BodyLinesOfSum(a[1..], b);
    }
  }

  lemma {:induction false} BodyLinesInserted(rules: seq<Rule>, x: Rule)
    ensures BodyLines(StableSort.Inserted(rules, x, ByNumber)) == BodyLines(rules) + BodyLines([x])
  {
    if rules != [] {
      var init, last := rules[..|rules| - 1], rules[|rules| - 1];
      assert rules == init + [last];
      BodyLinesOfSum(init, [last]);
      BodyLinesInserted(init, x);
      BodyLinesOfSum(StableSort.Inserted(init, x, ByNumber), [last]);
      BodyLinesOfSum(rules, [x]);
    }
  }

  lemma {:induction false} BodyLinesSorted(rules: seq<Rule>)
    ensures BodyLines(StableSort.Sorted(rules, ByNumber)) == BodyLines(rules)
  {
    if rules != [] {
      var init, last := rules[..|rules| - 1], rules[|rules| - 1];
      assert rules == init + [last];
      BodyLinesSorted(init);
      BodyLinesInserted(StableSort.Sorted(init, ByNumber), last);
      BodyLinesOfSum(init, [last]);
    }
  }

  // ----- one area's file: it comes back, or it loses lines

  ghost predicate Fine(head: string, rules: seq<Rule>) {
    (rules == [] || Whole(head)) && forall r :: r in rules ==> Clean(r)
  }

  lemma {:induction false} FullWeight(lines: seq<string>)
    requires |Trimmed(UpToHeading(lines + [""]))| + Weight(Sections(lines + [""])) == |lines|
    ensures NoHeading(lines) && (lines != [] ==> lines[|lines| - 1] != "")
  {
    if lines != [] {
      var all := lines + [""];
      var rest := all[1..];
      assert rest == lines[1..] + [""];
      WeightBound(lines);
      WeightBound(lines[1..]);
      assert Sections(all) == Sections(rest);
      TrimmedLed(all[0], UpToHeading(rest));
      FullWeight(lines[1..]);
      if |lines| == 1 {
        assert rest == [""] && UpToHeading(rest) == [""] + UpToHeading([]);
        assert UpToHeading(all) == [lines[0], ""];
        assert [lines[0], ""][..1] == [lines[0]];
      }
    }
  }

  lemma {:induction false} FullFile(area: string, rules: seq<Rule>)
    requires ReadAll(area, Sections(FileLines(rules))).Ok?
    requires Weight(Sections(FileLines(rules))) == BodyLines(rules)
    ensures forall r :: r in rules ==> Clean(r)
  {
    if rules != [] {
      var r, rest := rules[0], rules[1..];
      assert rules == [r] + rest;
      hide Lines, NoHeading, FileLines, ReadRule;
      SectionsOfFile(rules);
      SectionsOfRule(r);
      var own, inner := Section(HeadingLine(r), UpToHeading(Under(r))), Sections(Under(r));
      var later := Sections(FileLines(rest));
      hide Sections, UpToHeading, RuleLines;
      assert ([own] + inner)[1..] == inner;
      WeightOfSum([own] + inner, later);
      WeightOfFile(rest);
      WeightBound(Lines(r.body));
      FullWeight(Lines(r.body));
      assert [own] + inner + later == [own] + later;
      assert ([own] + later)[1..] == later;
      assert ReadSection(area, own).Ok?;
      HeadingReads(r);
      ReadsWhole(area, r);
      FullFile(area, rest);
    }
  }

  lemma ReadsWhole(area: string, r: Rule)
    requires ReadRule(area, r.number, Under(r)).Ok?
    requires Lines(r.body)[|Lines(r.body)| - 1] != ""
    ensures Opens(r.number) <= r.body
  {
    TrimmedUnder(r);
    TrimmedIs(Lines(r.body));
    JoinOfLines(r.body);
  }

  lemma ParsedWeighs(area: string, text: string)
    ensures Parsed(area, text).Ok? ==> BodyLines(Parsed(area, text).value) == Weight(Sections(Lines(text)))
  {
    var lines := Lines(text);
    SectionsInLines(lines);
    forall s, l | s in Sections(lines) && l in s.lines ensures OneLine(l) {
      assert l in lines;
      var i :| 0 <= i < |lines| && lines[i] == l;
      LineOfLines(text, i);
    }
    ReadAllWeighs(area, Sections(lines));
  }

  lemma AreaOutcome(area: string, head: string, rules: seq<Rule>)
    requires NoHeading(Lines(head)) && OfOneArea(rules, area)
    ensures Parsed(area, Rendered(head, rules)) == Ok(rules) <==> Fine(head, rules)
    ensures var parsed := Parsed(area, Rendered(head, rules));
      parsed.Ok? ==> BodyLines(parsed.value) <= BodyLines(rules)
                     && (BodyLines(parsed.value) == BodyLines(rules) ==> Fine(head, rules))
  {
    ParseUndoesRender(area, head, rules);
    var text := Rendered(head, rules);
    ParsedWeighs(area, text);
    hide Lines, Sections, NoHeading, ReadAll, Clean, Rendered, Under;
    if rules == [] {
      SectionsOfHead(head);
    } else if Whole(head) {
      SectionsWhole(head, rules);
      WeightOfFile(rules);
      if Parsed(area, text).Ok? && Weight(Sections(Lines(text))) == BodyLines(rules) {
        FullFile(area, rules);
      }
    } else {
      SectionsCut(head, rules);
      WeightOfSum(Sections(Under(rules[0])), Sections(FileLines(rules[1..])));
      WeightOfUnder(rules[0]);
      WeightOfFile(rules[1..]);
    }
  }

  // ----- the heads

  /** Where the search for a heading stops. */
  ghost predicate HeadingAt(text: string, k: nat) {
    k <= |text| && HEADING <= text[k..] && (k == 0 || text[k - 1] in ['\n', '\r', '\U{2028}', '\U{2029}'])
  }

  lemma {:induction false} SearchIs(text: string, k: nat)
    requires k <= |text|
    ensures var r := SearchHeading(text, k);
      && (r.Some? ==> HeadingAt(text, r.value) && forall i: nat :: k <= i < r.value ==> !HeadingAt(text, i))
      && (r.None? ==> forall i: nat :: k <= i ==> !HeadingAt(text, i))
    decreases |text| - k
  {
    if !HeadingAt(text, k) && k < |text| { SearchIs(text, k + 1); }
  }

  /** Where in the text a line that is a heading starts. */
  lemma {:induction false} HeadingPosition(text: string, i: nat) returns (k: nat)
    requires i < |Lines(text)| && IsHeading(Lines(text)[i])
    ensures k <= |text| && HEADING <= text[k..] && (i == 0 ==> k == 0) && (i > 0 ==> k > 0 && text[k - 1] == '\n')
  {
    k := 0;
    if i == 0 {
      BeginsFirstLine(text, HEADING);
      assert text[0..] == text;
    } else {
      var inRest := if text[0] == '\n' then i - 1 else i;
      var k' := HeadingPosition(text[1..], inRest);
      k := k' + 1;
      assert text[1..][k'..] == text[k..];
    }
  }

  lemma {:induction false} WholeIff(head: string)
    ensures Whole(head) <==> head == "" || head[|head| - 1] == '\n'
  {
    if |head| > 1 {
      WholeIff(head[1..]);
    } else if |head| == 1 {
      assert Lines(head[1..]) == [""];
    }
  }

  lemma AreaIsOneLine(area: string)
    requires area in AREAS
    ensures OneLine(area)
  {
  }

  lemma DefaultHead(area: string)
    requires area in AREAS
    ensures NoHeading(Lines(HeadOf(None, area))) && Whole(HeadOf(None, area))
  {
    AreaIsOneLine(area);
    var title := "# Architecture Rules — " + area;
    var head := HeadOf(None, area);
    assert head == title + "\n" + "\n";
    WholeIff(head);
    LinesOfLine(title);
    LinesOfBroken(title, "\n");
    LinesOfBroken("", "");
    assert "" + "\n" + "" == "\n";
    assert title[1] == ' ' && HEADING[1] == '#';
    assert Lines(head) == [title, "", ""];
  }

  /** A head holds no heading, whatever the file held; it is whole unless the file, or its head, ends inside a line. */
  lemma HeadIs(text: Option<string>, area: string)
    requires area in AREAS
    ensures NoHeading(Lines(HeadOf(text, area)))
    ensures Whole(HeadOf(text, area)) <==>
            text == None || HeadOf(text, area) == "" || HeadOf(text, area)[|HeadOf(text, area)| - 1] == '\n'
    ensures text.Some? ==>
      && HeadOf(text, area) <= text.value
      && (forall i: nat :: i < |HeadOf(text, area)| ==> !HeadingAt(text.value, i))
      && (HeadOf(text, area) == text.value || HeadingAt(text.value, |HeadOf(text, area)|))
  {
    WholeIff(HeadOf(text, area));
    match text
    case None => DefaultHead(area);
    case Some(t) =>
      SearchIs(t, 0);
      var head := HeadOf(text, area);
      assert head <= t;
      forall i | 0 <= i < |Lines(head)| ensures !IsHeading(Lines(head)[i]) {
        if IsHeading(Lines(head)[i]) {
          var k := HeadingPosition(head, i);
          assert head == t[..|head|];
          assert HEADING <= t[k..] by { assert head[k..] <= t[k..]; }
          assert HeadingAt(t, k);
        }
      }
  }

  // ----- all the files

  ghost predicate Distinct(areas: seq<string>) { forall i, j :: 0 <= i < j < |areas| ==> areas[i] != areas[j] }

  ghost predicate AllFine(files: Files, rules: seq<Rule>, areas: seq<string>) {
    forall i :: 0 <= i < |areas| ==> Fine(HeadIn(files, areas[i]), OfArea(rules, areas[i]))
  }

  /** The rules area by area. */
  ghost function Parts(rules: seq<Rule>, areas: seq<string>): seq<seq<Rule>> {
    if areas == [] then [] else [OfArea(rules, areas[0])] + Parts(rules, areas[1..])
  }

  lemma {:induction false} WrittenIs(files: Files, rules: seq<Rule>, areas: seq<string>)
    requires Distinct(areas)
    ensures forall a :: a in areas ==> a in Written(files, rules, areas)
    ensures forall a :: a in areas ==> Written(files, rules, areas)[a] == Rendered(HeadIn(files, a), OfArea(rules, a))
    ensures forall a :: a !in areas ==> HeadIn(Written(files, rules, areas), a) == HeadIn(files, a)
  {
    if areas != [] {
      var init, last := areas[..|areas| - 1], areas[|areas| - 1];
      assert areas == init + [last];
      assert last !in init;
      WrittenIs(files, rules, init);
    }
  }

  lemma {:induction false} OfAreaIs(rules: seq<Rule>, area: string)
    ensures OfOneArea(OfArea(rules, area), area)
    ensures forall r :: r in OfArea(rules, area) <==> r in rules && r.area == area
  {
    if rules != [] { OfAreaIs(rules[1..], area); }
  }

  lemma HeadInIs(files: Files, area: string)
    requires area in AREAS
    ensures NoHeading(Lines(HeadIn(files, area)))
  {
    HeadIs(if area in files then Some(files[area]) else None, area);
  }

  lemma {:induction false} ParsedFilesIs(was: Files, now: Files, rules: seq<Rule>, areas: seq<string>)
    requires forall a :: a in areas ==> a in AREAS && a in now && now[a] == Rendered(HeadIn(was, a), OfArea(rules, a))
    ensures AllFine(was, rules, areas) ==> ParsedFiles(now, areas) == Ok(Parts(rules, areas))
    ensures ParsedFiles(now, areas).Ok? ==>
      var read := Flat(ParsedFiles(now, areas).value);
      var all := Flat(Parts(rules, areas));
      BodyLines(read) <= BodyLines(all) && (BodyLines(read) == BodyLines(all) ==> AllFine(was, rules, areas))
  {
    hide Parsed, Rendered, Fine, NoHeading, Lines, OfArea, AREAS, BodyLines, OfOneArea, HeadIn;
    if areas != [] {
      var a, rest := areas[0], areas[1..];
      assert areas == [a] + rest;
      assert a in areas;
      OfAreaIs(rules, a);
      HeadInIs(was, a);
      AreaOutcome(a, HeadIn(was, a), OfArea(rules, a));
      ParsedFilesIs(was, now, rules, rest);
      assert AllFine(was, rules, areas) <==> Fine(HeadIn(was, a), OfArea(rules, a)) && AllFine(was, rules, rest);
      FlatLed(OfArea(rules, a), Parts(rules, rest));
      var parsed, more := Parsed(a, now[a]), ParsedFiles(now, rest);
      if parsed.Ok? && more.Ok? {
        FlatLed(parsed.value, more.value);
      }
    }
  }

  lemma FlatLed(first: seq<Rule>, rest: seq<seq<Rule>>)
    ensures Flat([first] + rest) == first + Flat(rest)
    ensures BodyLines(Flat([first] + rest)) == BodyLines(first) + BodyLines(Flat(rest))
  {
    assert ([first] + rest)[1..] == rest;
    BodyLinesOfSum(first, Flat(rest));
  }

  lemma {:induction false} OfAreaCounts(rules: seq<Rule>, area: string, x: Rule)
    ensures multiset(OfArea(rules, area))[x] == if x.area == area then multiset(rules)[x] else 0
  {
    if rules != [] {
      assert rules == [rules[0]] + rules[1..];
      OfAreaCounts(rules[1..], area, x);
    }
  }

  lemma {:induction false} PartsCounts(rules: seq<Rule>, areas: seq<string>, x: Rule)
    requires Distinct(areas)
    ensures multiset(Flat(Parts(rules, areas)))[x] == if x.area in areas then multiset(rules)[x] else 0
  {
    if areas != [] {
      assert areas == [areas[0]] + areas[1..];
      FlatLed(OfArea(rules, areas[0]), Parts(rules, areas[1..]));
      OfAreaCounts(rules, areas[0], x);
      PartsCounts(rules, areas[1..], x);
    }
  }

  /** Rules in strict order, each of a known area: what a split works on. */
  ghost predicate Arranged(rules: seq<Rule>, areas: seq<string>) {
    && StableSort.Ordered(rules, ByNumber) && StableSort.Strict(rules, ByNumber)
    && forall r :: r in rules ==> r.area in areas
  }

  lemma MergeOfParts(rules: seq<Rule>, areas: seq<string>)
    requires Distinct(areas) && Arranged(rules, areas)
    ensures Merged(Parts(rules, areas)) == Ok(rules)
    ensures BodyLines(Flat(Parts(rules, areas))) == BodyLines(rules)
  {
    var flat := Flat(Parts(rules, areas));
    forall x: Rule ensures multiset(flat)[x] == multiset(rules)[x] {
      PartsCounts(rules, areas, x);
    }
    assert multiset(flat) == multiset(rules);
    StableSort.PermutedStrict(rules, flat, ByNumber);
    ClashIff(flat);
    StableSort.SortedIsSorted(flat, ByNumber);
    StableSort.OrderedUnique(rules, StableSort.Sorted(flat, ByNumber), ByNumber);
    BodyLinesSorted(flat);
  }

  /**
   Splitting, rendering, parsing and merging: the rules come back, and even only the text of the dump
   comes back, exactly when each file is fine.
   */
  lemma SplitComesBack(was: Files, rules: seq<Rule>, areas: seq<string>)
    requires Distinct(areas) && Arranged(rules, areas) && forall a :: a in areas ==> a in AREAS
    ensures var now := Written(was, rules, areas);
      && (forall a :: a in areas ==> a in now)
      && (Loaded(now, areas) == Ok(rules) <==> AllFine(was, rules, areas))
      && (Loaded(now, areas).Ok? && Dump(Loaded(now, areas).value) == Dump(rules) <==> AllFine(was, rules, areas))
  {
    hide AREAS, AllFine, Distinct, Arranged, Parts, Written, Dump, Parsed;
    var now := Written(was, rules, areas);
    WrittenIs(was, rules, areas);
    ParsedFilesIs(was, now, rules, areas);
    MergeOfParts(rules, areas);
    LinesOfDump(rules);
    if Loaded(now, areas).Ok? {
      var perFile := ParsedFiles(now, areas).value;
      LinesOfDump(Loaded(now, areas).value);
      BodyLinesSorted(Flat(perFile));
    }
  }

  // ----- from the old section

  ghost predicate DistinctEntries(entries: seq<Entry>) { StableSort.Strict(entries, EntryByNumber) }

  function Kept(lines: seq<string>): seq<string> {
    if lines == [] then []
    else Kept(lines[..|lines| - 1]) + if lines[|lines| - 1] in {"", "---"} then [] else [lines[|lines| - 1]]
  }

  function EntryLines(entries: seq<Entry>): seq<string> {
    if entries == [] then [] else EntryLines(entries[..|entries| - 1]) + entries[|entries| - 1].lines
  }

  /** An entry begins with its number and holds no line that is dropped. */
  ghost predicate Sectioned(e: Entry) {
    && e.lines != [] && Opening(e.lines[0]) == Some(e.number)
    && forall i :: 0 <= i < |e.lines| ==> !Dropped(e.lines[i]) && OneLine(e.lines[i])
  }

  lemma EntryOpens(entries: seq<Entry>, number: nat, line: string)
    requires DistinctEntries(entries) && (forall e :: e in entries ==> Sectioned(e))
    requires !HasEntry(entries, number) && Opening(line) == Some(number) && OneLine(line) && !Dropped(line)
    ensures var all := entries + [Entry(number, [line])];
      DistinctEntries(all) && (forall e :: e in all ==> Sectioned(e)) && EntryLines(all) == EntryLines(entries) + [line]
  {
    hide Dropped, Opening, OneLine;
    var e := Entry(number, [line]);
    var all := entries + [e];
    assert Sectioned(e);
    assert all[..|all| - 1] == entries;
    forall i | 0 <= i < |entries| ensures entries[i].number != e.number {
      assert entries[i] in entries;
    }
  }

  lemma EntryGoesOn(entries: seq<Entry>, line: string)
    requires DistinctEntries(entries) && (forall e :: e in entries ==> Sectioned(e)) && entries != []
    requires OneLine(line) && !Dropped(line)
    ensures var init, last := entries[..|entries| - 1], entries[|entries| - 1];
      var all := init + [Entry(last.number, last.lines + [line])];
      DistinctEntries(all) && (forall e :: e in all ==> Sectioned(e)) && EntryLines(all) == EntryLines(entries) + [line]
  {
    hide Dropped, Opening, OneLine;
    var init, last := entries[..|entries| - 1], entries[|entries| - 1];
    var all := init + [Entry(last.number, last.lines + [line])];
    assert Sectioned(last);
    assert Sectioned(all[|all| - 1]);
    assert all[..|all| - 1] == init;
    assert EntryLines(init) + (last.lines + [line]) == EntryLines(init) + last.lines + [line];
  }

  lemma TakeLineIs(entries: seq<Entry>, line: string)
    requires DistinctEntries(entries) && (forall e :: e in entries ==> Sectioned(e)) && OneLine(line)
    ensures var r := TakeLine(entries, line);
      r.Ok? ==> DistinctEntries(r.value) && (forall e :: e in r.value ==> Sectioned(e))
                && EntryLines(r.value) == EntryLines(entries) + if Dropped(line) then [] else [line]
  {
    hide Dropped, Opening, OneLine, HasEntry, DistinctEntries, Sectioned, EntryLines;
    if TakeLine(entries, line).Ok? && !Dropped(line) {
      match Opening(line)
      case Some(number) => EntryOpens(entries, number, line);
      case None => EntryGoesOn(entries, line);
    }
  }

  /** Every line of the section but the dropped ones is in one rule, in order; no number stands twice. */
  lemma {:induction false} GatheredIs(lines: seq<string>)
    requires forall l :: l in lines ==> OneLine(l)
    ensures var r := Gathered(lines);
      r.Ok? ==> DistinctEntries(r.value) && (forall e :: e in r.value ==> Sectioned(e))
                && EntryLines(r.value) == Kept(lines)
  {
    if lines != [] {
      var init := lines[..|lines| - 1];
      GatheredIs(init);
      if Gathered(init).Ok? {
        TakeLineIs(Gathered(init).value, lines[|lines| - 1]);
      }
    }
  }

  lemma SectionLinesIn(skill: string)
    ensures var r := SectionLines(skill);
      r.Ok? ==> r.value != [] && "1. **" <= r.value[0] && forall l :: l in r.value ==> OneLine(l)
  {
    var r := SectionLines(skill);
    if r.Ok? {
      forall l | l in r.value ensures OneLine(l) {
        assert l in Lines(skill);
        var i :| 0 <= i < |Lines(skill)| && Lines(skill)[i] == l;
        LineOfLines(skill, i);
      }
    }
  }

  lemma ExtractedIs(skill: string)
    ensures var r := Extracted(skill);
      r.Ok? ==> DistinctEntries(r.value) && (forall e :: e in r.value ==> Sectioned(e))
                && EntryLines(r.value) == Kept(SectionLines(skill).value)
  {
    SectionLinesIn(skill);
    if SectionLines(skill).Ok? { GatheredIs(SectionLines(skill).value); }
  }

  /** The section begins with a rule, so no line comes before the first one. */
  lemma NoLineBefore(skill: string)
    ensures Extracted(skill).Err? ==> !Extracted(skill).error.LineBefore?
  {
    SectionLinesIn(skill);
    if SectionLines(skill).Ok? {
      var lines := SectionLines(skill).value;
      FirstOpens(lines[0]);
      GatheredOpens(lines);
    }
  }

  lemma FirstOpens(line: string)
    requires "1. **" <= line
    ensures Opening(line) == Some(1) && !Dropped(line)
  {
    assert line[0] == '1' && line[1] == '.' && line[2] == ' ';
    assert DigitRun(line[1..]) == 0;
    assert line[..1] == "1";
    assert Value("1") == 10 * Value("1"[..0]) + 1;
    assert "1"[..0] == "";
  }

  lemma {:induction false} GatheredOpens(lines: seq<string>)
    requires lines != [] && Opening(lines[0]) != None && !Dropped(lines[0])
    ensures var r := Gathered(lines); if r.Ok? then r.value != [] else !r.error.LineBefore?
  {
    var init := lines[..|lines| - 1];
    if init != [] {
      GatheredOpens(init);
    } else {
      assert Gathered(init) == Ok([]);
    }
  }

  // ----- the rules of the entries

  /** Rule by rule the entry's number and text. */
  ghost predicate Match(entries: seq<Entry>, rules: seq<Rule>) {
    && |entries| == |rules|
    && forall i :: 0 <= i < |rules| ==> rules[i].number == entries[i].number && rules[i].body == Join(entries[i].lines)
  }

  lemma {:induction false} PlacedIs(entries: seq<Entry>, index: map<nat, string>)
    ensures Placed(entries, index).Ok? ==> Match(entries, Placed(entries, index).value)
    ensures Placed(entries, index).Ok? ==> forall r :: r in Placed(entries, index).value ==> r.area in AREAS
    ensures Placed(entries, index).Ok? ==>
            forall r :: r in Placed(entries, index).value && r.number in index ==> r.area == index[r.number]
  {
    hide AREAS;
    if entries != [] { PlacedIs(entries[1..], index); }
  }

  lemma {:induction false} MatchInserted(entries: seq<Entry>, rules: seq<Rule>, e: Entry, r: Rule)
    requires Match(entries, rules) && r.number == e.number && r.body == Join(e.lines)
    ensures Match(StableSort.Inserted(entries, e, EntryByNumber), StableSort.Inserted(rules, r, ByNumber))
  {
    hide Join;
    if rules != [] {
      MatchInserted(entries[..|entries| - 1], rules[..|rules| - 1], e, r);
    }
  }

  lemma {:induction false} MatchSorted(entries: seq<Entry>, rules: seq<Rule>)
    requires Match(entries, rules)
    ensures Match(StableSort.Sorted(entries, EntryByNumber), StableSort.Sorted(rules, ByNumber))
  {
    if rules != [] {
      var es, rs := entries[..|entries| - 1], rules[..|rules| - 1];
      MatchSorted(es, rs);
      MatchInserted(StableSort.Sorted(es, EntryByNumber), StableSort.Sorted(rs, ByNumber), entries[|es|], rules[|rs|]);
    }
  }

  lemma {:induction false} MatchDumps(entries: seq<Entry>, rules: seq<Rule>)
    requires Match(entries, rules)
    ensures EntryDump(entries) == Dump(rules)
  {
    if rules != [] { MatchDumps(entries[1..], rules[1..]); }
  }

  /** What a split works on: all the section's rules, in order, each in the area of its index line. */
  lemma SplitRulesIs(entries: seq<Entry>, index: map<nat, string>)
    requires DistinctEntries(entries)
    ensures var r := SplitRules(entries, index);
      r.Ok? ==> Arranged(r.value, AREAS) && Match(StableSort.Sorted(entries, EntryByNumber), r.value)
                && SourceText(entries) == Dump(r.value)
  {
    var r := SplitRules(entries, index);
    if r.Ok? {
      hide AREAS;
      PlacedIs(entries, index);
      var rules := Placed(entries, index).value;
      StableSort.SortedIsSorted(rules, ByNumber);
      assert StableSort.Strict(rules, ByNumber) by {
        forall i, j | 0 <= i < j < |rules| ensures ByNumber(rules[i], rules[j]) || ByNumber(rules[j], rules[i]) {
          assert EntryByNumber(entries[i], entries[j]) || EntryByNumber(entries[j], entries[i]);
        }
      }
      StableSort.PermutedStrict(rules, r.value, ByNumber);
      MatchSorted(entries, rules);
      MatchDumps(StableSort.Sorted(entries, EntryByNumber), r.value);
      forall x | x in r.value ensures x.area in AREAS {
        assert x in multiset(r.value);
        assert x in rules;
      }
    }
  }

  lemma {:induction false} WithoutIndexIs(entries: seq<Entry>, index: map<nat, string>)
    ensures forall n: nat :: n in WithoutIndex(entries, index) <==> n !in index && HasEntry(entries, n)
  {
    if entries != [] {
      WithoutIndexIs(entries[1..], index);
      assert entries == [entries[0]] + entries[1..];
    }
  }

  lemma {:induction false} PlacedIff(entries: seq<Entry>, index: map<nat, string>)
    requires forall e :: e in entries ==> e.number in index
    ensures Placed(entries, index).Ok? <==> forall e :: e in entries ==> index[e.number] in AREAS
  {
    hide AREAS;
    if entries != [] {
      assert entries[0] in entries && entries == [entries[0]] + entries[1..];
      PlacedIff(entries[1..], index);
    }
  }

  /** A split goes on to write files exactly when every rule has an index line, to a known area. */
  lemma SplitRulesIff(entries: seq<Entry>, index: map<nat, string>)
    ensures SplitRules(entries, index).Ok?
       <==> forall e :: e in entries ==> e.number in index && index[e.number] in AREAS
  {
    hide AREAS;
    WithoutIndexIs(entries, index);
    var missing := WithoutIndex(entries, index);
    if missing == [] {
      forall e | e in entries ensures e.number in index {
        assert HasEntry(entries, e.number);
        assert e.number !in missing;
      }
      PlacedIff(entries, index);
    } else {
      assert missing[0] in missing;
    }
  }

  // ----- which entries are tidy

  /** The number is written with a leading zero. */
  predicate LeadingZero(line: string) { |line| > 1 && line[0] == '0' && IsDigit(line[1]) }

  /** What must hold of an entry for its rule to come back; both can be read off the section. */
  ghost predicate Tidy(e: Entry) { NoHeading(e.lines) && e.lines != [] && !LeadingZero(e.lines[0]) }

  lemma TenTimes(v: nat, d: nat)
    requires d < 10
    ensures (10 * v + d) / 10 == v && (10 * v + d) % 10 == d
  {
  }

  lemma {:induction false} DecimalOfValue(s: string)
    requires AllDigits(s) && s != "" && (s[0] != '0' || |s| == 1)
    ensures Decimal(Value(s)) == s && (s[0] != '0' ==> Value(s) > 0)
  {
    var init, last := s[..|s| - 1], s[|s| - 1];
    assert s == init + [last];
    if init != "" {
      DecimalOfValue(init);
      TenTimes(Value(init), DigitValue(last));
    } else {
      assert Value(s) == DigitValue(last);
    }
  }

  lemma {:induction false} NoZeroFirst(n: nat)
    ensures n > 0 ==> Decimal(n)[0] != '0'
  {
    if n >= 10 { NoZeroFirst(n / 10); }
  }

  /** A line that opens rule n begins with the number as it is printed exactly without a leading zero. */
  lemma OpensIff(line: string, n: nat)
    requires Opening(line) == Some(n)
    ensures Opens(n) <= line <==> !LeadingZero(line)
  {
    var k := DigitRun(line);
    assert k > 1 ==> line[..k][1] == line[1] && IsDigit(line[..k][1]);
    if LeadingZero(line) {
      NoZeroFirst(n);
      if n == 0 { assert Opens(0)[1] == '.'; }
      assert Opens(n)[0] == Decimal(n)[0];
    } else {
      assert line[..k][0] == line[0];
      DecimalOfValue(line[..k]);
      assert line[..k + 2] == line[..k] + ". ";
    }
  }

  lemma CleanIffTidy(e: Entry, r: Rule)
    requires Sectioned(e) && r.number == e.number && r.body == Join(e.lines)
    ensures Clean(r) <==> Tidy(e)
  {
    LinesOfJoin(e.lines);
    OpensIff(e.lines[0], e.number);
    assert OneLine(Opens(e.number)) by { OneLineDigits(Decimal(e.number)); }
    BeginsFirstLine(r.body, Opens(e.number));
    assert !Dropped(e.lines[|e.lines| - 1]);
  }

  lemma AllCleanIff(entries: seq<Entry>, sorted: seq<Entry>, rules: seq<Rule>)
    requires multiset(entries) == multiset(sorted) && Match(sorted, rules)
    requires forall e :: e in entries ==> Sectioned(e)
    ensures (forall r :: r in rules ==> Clean(r)) <==> forall e :: e in entries ==> Tidy(e)
  {
    hide Clean, Tidy, Sectioned, Join;
    forall i | 0 <= i < |rules| ensures Clean(rules[i]) <==> Tidy(sorted[i]) {
      assert sorted[i] in multiset(entries);
      CleanIffTidy(sorted[i], rules[i]);
    }
    if forall r :: r in rules ==> Clean(r) {
      forall e | e in entries ensures Tidy(e) {
        assert e in multiset(sorted);
        var i :| 0 <= i < |sorted| && sorted[i] == e;
        assert rules[i] in rules;
      }
    }
    if forall e :: e in entries ==> Tidy(e) {
      forall r | r in rules ensures Clean(r) {
        var i :| 0 <= i < |rules| && rules[i] == r;
        assert sorted[i] in multiset(entries);
      }
    }
  }

  /** Each head with rules below it ends its line. */
  ghost predicate HeadsWhole(files: Files, rules: seq<Rule>) {
    forall a :: a in AREAS ==> OfArea(rules, a) == [] || Whole(HeadIn(files, a))
  }

  lemma AllFineIff(files: Files, rules: seq<Rule>)
    requires forall r :: r in rules ==> r.area in AREAS
    ensures AllFine(files, rules, AREAS) <==> HeadsWhole(files, rules) && forall r :: r in rules ==> Clean(r)
  {
    hide AREAS, OfArea, Clean, HeadIn, Whole;
    forall a: string ensures forall r :: r in OfArea(rules, a) <==> r in rules && r.area == a {
      OfAreaIs(rules, a);
    }
    if AllFine(files, rules, AREAS) {
      forall a | a in AREAS ensures OfArea(rules, a) == [] || Whole(HeadIn(files, a)) {
        var i :| 0 <= i < |AREAS| && AREAS[i] == a;
      }
      forall r | r in rules ensures Clean(r) {
        var i :| 0 <= i < |AREAS| && AREAS[i] == r.area;
        assert r in OfArea(rules, AREAS[i]);
      }
    }
  }

  /**
   The split of a section whose rules all have an index line: it ends with exit code 0, its dump the
   source's text, exactly when no rule holds a heading or a leading zero and every head it wrote rules
   under ends its line; and then the files hold the rules themselves, whatever they held before.
   */
  lemma SplitExact(skill: string, index: map<nat, string>, files: Files)
    requires Extracted(skill).Ok? && SplitRules(Extracted(skill).value, index).Ok?
    ensures var entries := Extracted(skill).value;
      var rules := SplitRules(entries, index).value;
      var now := Written(files, rules, AREAS);
      && (forall a :: a in AREAS ==> a in now)
      && (Compared(entries, now) == Exit(0) <==> HeadsWhole(files, rules) && forall e :: e in entries ==> Tidy(e))
      && (Compared(entries, now) == Exit(0) <==> Loaded(now, AREAS) == Ok(rules))
  {
    var entries := Extracted(skill).value;
    var rules := SplitRules(entries, index).value;
    AreasDistinct();
    hide AREAS, Extracted, SplitRules, Written, Loaded, Dump, SourceText;
    hide Distinct, AllFine, HeadsWhole, Tidy, Clean, Sectioned, Match;
    ExtractedIs(skill);
    SplitRulesIs(entries, index);
    StableSort.SortedIsSorted(entries, EntryByNumber);
    AllCleanIff(entries, StableSort.Sorted(entries, EntryByNumber), rules);
    AllFineIff(files, rules);
    SplitComesBack(files, rules, AREAS);
  }

  lemma AreasDistinct()
    ensures Distinct(AREAS)
  {
  }
}
