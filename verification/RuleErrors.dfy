/** Which texts the tool over the rule files refuses, and with which error: the first thing that is wrong. */
module RuleErrors {
  import opened Wrappers
  import opened Text
  import opened RuleFiles
  import opened RuleFilesProofs
  import opened RuleSplitProofs
  import StableSort

  // ----- headings and openings

  /** A number, and the digits it was read from. */
  ghost predicate Reads(digits: string, n: nat) { digits != "" && AllDigits(digits) && Value(digits) == n }

  /** `### Rule`, a number and nothing else. */
  lemma HeadingIs(line: string, n: nat)
    ensures HeadingNumber(line) == Some(n) <==> exists digits :: Reads(digits, n) && line == "### Rule " + digits
  {
    var digits := if "### Rule " <= line then line[9..] else "";
    if HeadingNumber(line) == Some(n) {
      assert Reads(digits, n) && line == "### Rule " + digits;
    }
    if d :| Reads(d, n) && line == "### Rule " + d {
      assert line[9..] == d;
    }
  }

  lemma {:induction false} RunOfDigits(digits: string, rest: string)
    requires AllDigits(digits) && (rest == "" || !IsDigit(rest[0]))
    ensures DigitRun(digits + rest) == |digits|
  {
    if digits != "" {
      assert (digits + rest)[1..] == digits[1..] + rest;
      RunOfDigits(digits[1..], rest);
    } else {
      assert digits + rest == rest;
    }
  }

  /** A number, a full stop and a space, and anything behind them. */
  lemma OpeningIs(line: string, n: nat)
    ensures Opening(line) == Some(n) <==> exists digits :: Reads(digits, n) && digits + ". " <= line
  {
    var k := DigitRun(line);
    if Opening(line) == Some(n) {
      assert Reads(line[..k], n);
      assert line[..k] + ". " <= line by {
        assert line[..k + 2] == line[..k] + ". ";
      }
    }
    if d :| Reads(d, n) && d + ". " <= line {
      var rest := line[|d|..];
      assert line == d + rest;
      assert rest[0] == (d + ". ")[|d|];
      RunOfDigits(d, rest);
      assert line[..|d|] == d;
      assert line[|d| + 1] == (d + ". ")[|d| + 1];
    }
  }

  // ----- one rule file

  /** The error of a section that is no rule: its heading, or a body that does not start with its number. */
  lemma SectionError(area: string, section: Section)
    ensures var number, body := HeadingNumber(section.heading), Join(Trimmed(section.lines));
      ReadSection(area, section)
      == if number.None? then Err(UnexpectedHeading(area, section.heading))
         else if Decimal(number.value) + ". " <= body then Ok(Rule(number.value, area, body))
         else Err(BodyStart(area, number.value))
  {
  }

  /** A file's rules are those of its sections in order, or the error is that of the first section that is no rule. */
  lemma {:induction false} ParseIs(area: string, sections: seq<Section>)
    ensures var r := ReadAll(area, sections);
      && (r.Ok? ==> |r.value| == |sections|
                    && forall i :: 0 <= i < |sections| ==> ReadSection(area, sections[i]) == Ok(r.value[i]))
      && (r.Err? ==> exists k | 0 <= k < |sections| ::
            && ReadSection(area, sections[k]) == Err(r.error)
            && forall i :: 0 <= i < k ==> ReadSection(area, sections[i]).Ok?)
  {
    if sections != [] {
      hide ReadSection;
      ParseIs(area, sections[1..]);
      var rest := ReadAll(area, sections[1..]);
      if ReadSection(area, sections[0]).Err? {
        assert ReadAll(area, sections) == Err(ReadSection(area, sections[0]).error);
      } else if rest.Err? {
        var k :| 0 <= k < |sections[1..]| && ReadSection(area, sections[1..][k]) == Err(rest.error)
                 && forall i :: 0 <= i < k ==> ReadSection(area, sections[1..][i]).Ok?;
        assert sections[k + 1] == sections[1..][k];
        assert forall i :: 1 <= i < k + 1 ==> sections[i] == sections[1..][i - 1];
      }
    }
  }

  // ----- the merge

  /** Two rules of one number clash at the later one. */
  ghost predicate ClashAt(rules: seq<Rule>, i: nat, j: nat) {
    i < j < |rules| && rules[i].number == rules[j].number && DistinctNumbers(rules[..j])
  }

  lemma {:induction false} FirstWithAt(rules: seq<Rule>, n: nat)
    ensures FirstWith(rules, n).Some? ==>
              exists i | 0 <= i < |rules| :: rules[i].number == n && FirstWith(rules, n) == Some(rules[i])
  {
    if rules != [] && rules[0].number != n {
      FirstWithAt(rules[1..], n);
      if FirstWith(rules[1..], n).Some? {
        var i :| 0 <= i < |rules[1..]| && rules[1..][i].number == n && FirstWith(rules[1..], n) == Some(rules[1..][i]);
        assert rules[i + 1] == rules[1..][i];
      }
    }
  }

  /** The clash is of the first rule that repeats a number, with the area of the one before it. */
  lemma {:induction false} ClashIs(rules: seq<Rule>)
    ensures Clash(rules).Some? ==>
      exists i, j | 0 <= i < j < |rules| ::
        ClashAt(rules, i, j) && Clash(rules) == Some(InBoth(rules[j].number, rules[i].area, rules[j].area))
  {
    if rules != [] {
      var init, last := rules[..|rules| - 1], rules[|rules| - 1];
      ClashIs(init);
      ClashIff(init);
      FirstWithAt(init, last.number);
      if Clash(init).Some? {
        var i, j :| 0 <= i < j < |init| && ClashAt(init, i, j)
                    && Clash(init) == Some(InBoth(init[j].number, init[i].area, init[j].area));
        assert init[..j] == rules[..j];
        assert ClashAt(rules, i, j);
      } else if FirstWith(init, last.number).Some? {
        var i :| 0 <= i < |init| && init[i].number == last.number && FirstWith(init, last.number) == Some(init[i]);
        assert ClashAt(rules, i, |init|);
      }
    }
  }

  // ----- the old section

  /** The first line that is x, from a line on. */
  ghost predicate FirstAt(lines: seq<string>, x: string, from: nat, k: nat) {
    from <= k < |lines| && lines[k] == x && forall i :: from <= i < k ==> lines[i] != x
  }

  lemma {:induction false} IndexIs(lines: seq<string>, x: string, from: nat)
    requires from <= |lines|
    ensures match IndexOf(lines, x, from)
            case None => forall i :: from <= i < |lines| ==> lines[i] != x
            case Some(k) => FirstAt(lines, x, from, k)
    decreases |lines| - from
  {
    if from < |lines| && lines[from] != x {
      IndexIs(lines, x, from + 1);
    }
  }

  /** The first line that opens rule 1. */
  ghost predicate FirstRuleAt(lines: seq<string>, k: nat) {
    k < |lines| && "1. **" <= lines[k] && forall i :: 0 <= i < k ==> !("1. **" <= lines[i])
  }

  lemma {:induction false} FirstRuleIs(lines: seq<string>)
    ensures match FindFirstRule(lines)
            case None => forall i :: 0 <= i < |lines| ==> !("1. **" <= lines[i])
            case Some(k) => FirstRuleAt(lines, k)
  {
    if lines != [] && !("1. **" <= lines[0]) {
      FirstRuleIs(lines[1..]);
      assert forall i :: 1 <= i < |lines| ==> lines[i] == lines[1..][i - 1];
    }
  }

  /** The lines between the first heading of the section and the first end behind it. */
  ghost predicate SectionAt(lines: seq<string>, start: nat, end: nat) {
    && FirstAt(lines, "## Architecture Rules to Enforce in Every Plan", 0, start)
    && FirstAt(lines, "## Forbidden Actions", start, end)
  }

  ghost predicate CutAt(skill: string, start: nat, end: nat) {
    var lines := Lines(skill);
    SectionAt(lines, start, end) && start < end && SectionLines(skill) == Cut(lines[start + 1..end])
  }

  lemma SectionFound(skill: string)
    ensures || (&& SectionLines(skill) == Err(NoSection)
                && forall start: nat, end: nat :: !SectionAt(Lines(skill), start, end))
            || (exists start: nat, end: nat :: CutAt(skill, start, end))
  {
    hide Lines;
    var lines := Lines(skill);
    IndexIs(lines, SECTION_HEADING, 0);
    match IndexOf(lines, SECTION_HEADING, 0) {
      case None =>
      case Some(start) =>
        IndexIs(lines, SECTION_END, start);
        match IndexOf(lines, SECTION_END, start) {
          case None =>
            forall s: nat, e: nat ensures !SectionAt(lines, s, e) {
              if FirstAt(lines, SECTION_HEADING, 0, s) { FirstIsOne(lines, SECTION_HEADING, 0, start, s); }
            }
          case Some(end) =>
            assert SectionAt(lines, start, end);
            assert SECTION_HEADING[3] == 'A' && SECTION_END[3] == 'F' && start != end;
            assert CutAt(skill, start, end);
        }
    }
  }

  lemma FirstIsOne(lines: seq<string>, x: string, from: nat, j: nat, k: nat)
    requires FirstAt(lines, x, from, j) && FirstAt(lines, x, from, k)
    ensures j == k
  {
  }

  /** What is between the headings: from its first rule on, but an index in it or no rule 1 is an error. */
  function Cut(section: seq<string>): Result<seq<string>, Error> {
    if "### Index" in section then Err(AlreadyIndex)
    else
      match FindFirstRule(section)
      case None => Err(NoFirstRule)
      case Some(first) => Ok(section[first..])
  }

  /** There is no section exactly without both headings in their order. */
  lemma NoSectionIff(skill: string)
    ensures SectionLines(skill) == Err(NoSection) <==>
            forall start: nat, end: nat :: !SectionAt(Lines(skill), start, end)
  {
    hide SectionAt, SectionLines, Lines;
    SectionFound(skill);
    if s: nat, e: nat :| CutAt(skill, s, e) {
      assert SectionAt(Lines(skill), s, e);
    }
  }

  /** The section: from its first rule to its end; an index in it, or no rule 1, is an error. */
  lemma SectionIs(skill: string, start: nat, end: nat)
    requires SectionAt(Lines(skill), start, end)
    ensures start < end
    ensures var section, r := Lines(skill)[start + 1..end], SectionLines(skill);
      && (r == Err(AlreadyIndex) <==> "### Index" in section)
      && (r == Err(NoFirstRule) <==> "### Index" !in section && forall k: nat :: !FirstRuleAt(section, k))
      && (r.Ok? <==> "### Index" !in section && exists k: nat :: FirstRuleAt(section, k))
      && (r.Ok? ==> exists k: nat :: FirstRuleAt(section, k) && r.value == section[k..])
  {
    var lines := Lines(skill);
    SectionFound(skill);
    var s: nat, e: nat :| CutAt(skill, s, e);
    FirstIsOne(lines, SECTION_HEADING, 0, s, start);
    FirstIsOne(lines, SECTION_END, start, e, end);
    FirstRuleIs(lines[start + 1..end]);
    hide SectionLines, SectionAt;
  }

  /** The line opens a rule, and is not left out. */
  ghost predicate OpensRule(line: string, n: nat) { line !in {"", "---"} && Opening(line) == Some(n) }

  lemma {:induction false} GatheredHas(lines: seq<string>, n: nat)
    requires Gathered(lines).Ok?
    ensures HasEntry(Gathered(lines).value, n) <==> exists i | 0 <= i < |lines| :: OpensRule(lines[i], n)
  {
    if lines != [] {
      var init, last := lines[..|lines| - 1], lines[|lines| - 1];
      GatheredHas(init, n);
      var before, after := Gathered(init).value, Gathered(lines).value;
      assert lines == init + [last];
      hide Opening, Gathered;
      assert (exists i | 0 <= i < |lines| :: OpensRule(lines[i], n)) <==>
             (exists i | 0 <= i < |init| :: OpensRule(init[i], n)) || OpensRule(last, n) by {
        OpensMore(init, last, n);
      }
      assert TakeLine(before, last) == Ok(after) by { GatheredStep(lines); }
      TakenHas(before, last, n);
    }
  }

  lemma GatheredStep(lines: seq<string>)
    requires lines != [] && Gathered(lines).Ok?
    ensures Gathered(lines[..|lines| - 1]).Ok?
    ensures TakeLine(Gathered(lines[..|lines| - 1]).value, lines[|lines| - 1]) == Gathered(lines)
  {
  }

  lemma OpensMore(init: seq<string>, last: string, n: nat)
    ensures var lines := init + [last];
      (exists i | 0 <= i < |lines| :: OpensRule(lines[i], n)) <==>
      (exists i | 0 <= i < |init| :: OpensRule(init[i], n)) || OpensRule(last, n)
  {
    hide OpensRule;
    var lines := init + [last];
    if i :| 0 <= i < |init| && OpensRule(init[i], n) {
      assert OpensRule(lines[i], n);
    }
    if OpensRule(last, n) {
      assert OpensRule(lines[|init|], n);
    }
  }

  lemma TakenHas(entries: seq<Entry>, line: string, n: nat)
    requires TakeLine(entries, line).Ok?
    ensures HasEntry(TakeLine(entries, line).value, n) <==> HasEntry(entries, n) || OpensRule(line, n)
  {
    hide Opening;
    var after := TakeLine(entries, line).value;
    if !Dropped(line) {
      match Opening(line)
      case Some(m) =>
        assert Entry(m, [line]) in after;
        assert forall e :: e in after <==> e in entries || e == Entry(m, [line]);
      case None =>
        var init, last := entries[..|entries| - 1], entries[|entries| - 1];
        assert entries == init + [last];
        var longer := Entry(last.number, last.lines + [line]);
        assert last in entries && longer in after;
        assert forall e :: e in entries <==> e in init || e == last;
        assert forall e :: e in after <==> e in init || e == longer;
    }
  }

  /** Gathering fails exactly at the first line that opens a rule a second time, or belongs to none. */
  lemma GatherFails(lines: seq<string>, line: string)
    requires Gathered(lines).Ok?
    ensures Gathered(lines + [line]).Err? <==>
      if Opening(line).Some? then
        var n := Opening(line).value;
        OpensRule(line, n) && exists i | 0 <= i < |lines| :: OpensRule(lines[i], n)
      else line !in {"", "---"} && forall i, n: nat | 0 <= i < |lines| :: !OpensRule(lines[i], n)
    ensures var r := Gathered(lines + [line]);
      r.Err? ==> r.error == if Opening(line).Some? then Twice(Opening(line).value) else LineBefore(line)
  {
    hide OpensRule, TakeLine, HasEntry;
    var all := lines + [line];
    assert all[..|all| - 1] == lines;
    var entries := Gathered(lines).value;
    assert Gathered(all) == TakeLine(entries, line);
    hide Gathered, Opening;
    TakeFails(entries, line);
    if Opening(line).Some? {
      GatheredHas(lines, Opening(line).value);
    } else {
      GatheredNone(lines);
    }
  }

  lemma TakeFails(entries: seq<Entry>, line: string)
    ensures TakeLine(entries, line).Err? <==>
      if Opening(line).Some? then OpensRule(line, Opening(line).value) && HasEntry(entries, Opening(line).value)
      else line !in {"", "---"} && entries == []
    ensures var r := TakeLine(entries, line);
      r.Err? ==> r.error == if Opening(line).Some? then Twice(Opening(line).value) else LineBefore(line)
  {
    hide Opening;
  }

  lemma GatheredNone(lines: seq<string>)
    requires Gathered(lines).Ok?
    ensures Gathered(lines).value == [] <==> forall i, n: nat | 0 <= i < |lines| :: !OpensRule(lines[i], n)
  {
    hide OpensRule, Gathered;
    var entries := Gathered(lines).value;
    forall n: nat ensures HasEntry(entries, n) <==> exists i | 0 <= i < |lines| :: OpensRule(lines[i], n) {
      GatheredHas(lines, n);
    }
    if entries != [] {
      assert HasEntry(entries, entries[0].number);
    } else {
      forall i, n: nat | 0 <= i < |lines| ensures !OpensRule(lines[i], n) {
        assert !HasEntry(entries, n);
      }
    }
  }

  // ----- the areas of the rules

  /** An area of the index that is none is reported with the first rule it was given to. */
  lemma {:induction false} AreaError(entries: seq<Entry>, index: map<nat, string>)
    requires forall e :: e in entries ==> e.number in index
    ensures Placed(entries, index).Err? ==>
      exists k | 0 <= k < |entries| ::
        && Placed(entries, index) == Err(UnknownArea(entries[k].number, index[entries[k].number]))
        && index[entries[k].number] !in AREAS
        && forall i :: 0 <= i < k ==> index[entries[i].number] in AREAS
  {
    hide AREAS;
    if entries != [] {
      var rest := entries[1..];
      assert entries[0] in entries && forall e :: e in rest ==> e in entries;
      AreaError(rest, index);
      if index[entries[0].number] in AREAS && Placed(rest, index).Err? {
        var k :| 0 <= k < |rest|
          && Placed(rest, index) == Err(UnknownArea(rest[k].number, index[rest[k].number]))
          && index[rest[k].number] !in AREAS
          && forall i :: 0 <= i < k ==> index[rest[i].number] in AREAS;
        assert entries[k + 1] == rest[k];
        assert forall i :: 1 <= i < k + 1 ==> entries[i] == rest[i - 1];
      }
    }
  }
}
