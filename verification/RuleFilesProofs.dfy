/**
 The round trip of one rule file: what a parse of the rendered text gives, for every head and every
 body.
 */
module RuleFilesProofs {
  import opened Wrappers
  import opened Text
  import opened RuleFiles

  // ----- lines of a rendered file

  ghost predicate NoHeading(lines: seq<string>) { forall i :: 0 <= i < |lines| ==> !IsHeading(lines[i]) }

  /** A head after which the first heading starts its own line: empty, or ended by a line break. */
  ghost predicate Whole(head: string) { Lines(head)[|Lines(head)| - 1] == "" }

  ghost predicate OfOneArea(rules: seq<Rule>, area: string) { forall r :: r in rules ==> r.area == area }

  /** The body starts with its number, holds no heading and ends in a line that is not blank. */
  ghost predicate Clean(rule: Rule) {
    var lines := Lines(rule.body);
    Opens(rule.number) <= rule.body && NoHeading(lines) && lines[|lines| - 1] != ""
  }

  ghost function HeadingLine(rule: Rule): string { RULE_HEADING + Decimal(rule.number) }

  /** The rule's lines below its heading. */
  ghost function Under(rule: Rule): seq<string> { Lines(rule.body) + [""] }

  ghost function RuleLines(rule: Rule): seq<string> { [HeadingLine(rule)] + Under(rule) }

  ghost function FileLines(rules: seq<Rule>): seq<string> {
    if rules == [] then [] else RuleLines(rules[0]) + FileLines(rules[1..])
  }

  lemma {:induction false} OneLineDigits(s: string)
    requires AllDigits(s)
    ensures OneLine(s)
  {
  }

  lemma LinesOfRule(rule: Rule)
    ensures Lines(RuleText(rule)) == RuleLines(rule)
  {
    var h := HeadingLine(rule);
    assert OneLine(RULE_HEADING);
    OneLineDigits(Decimal(rule.number));
    assert OneLine(h);
    LinesOfLine(h);
    LinesOfBroken(h, rule.body + "\n");
    LinesOfBroken(rule.body, "");
    assert rule.body + "\n" + "" == rule.body + "\n";
    assert RuleText(rule) == h + "\n" + (rule.body + "\n");
  }

  lemma {:induction false} LinesOfTexts(rules: seq<Rule>)
    requires rules != []
    ensures Lines(Join(RuleTexts(rules))) == FileLines(rules)
  {
    LinesOfRule(rules[0]);
    if |rules| == 1 {
      assert RuleTexts(rules) == [RuleText(rules[0])];
      assert FileLines(rules) == RuleLines(rules[0]) + [];
    } else {
      LinesOfTexts(rules[1..]);
      var first, rest := RuleText(rules[0]), RuleTexts(rules[1..]);
      assert RuleTexts(rules) == [first] + rest && rest != [];
      assert Join(RuleTexts(rules)) == first + "\n" + Join(rest);
      LinesOfBroken(first, Join(rest));
    }
  }

  // ----- sections of lines

  lemma {:induction false} SectionsOfSum(pre: seq<string>, post: seq<string>)
    requires post == [] || IsHeading(post[0])
    ensures UpToHeading(pre + post) == UpToHeading(pre)
    ensures Sections(pre + post) == Sections(pre) + Sections(post)
  {
    if pre == [] {
      assert pre + post == post;
    } else {
      assert (pre + post)[1..] == pre[1..] + post;
      SectionsOfSum(pre[1..], post);
      hide IsHeading;
      var own := if IsHeading(pre[0]) then [Section(pre[0], UpToHeading(pre[1..]))] else [];
      assert Sections(pre) == own + Sections(pre[1..]);
      assert Sections(pre + post) == own + (Sections(pre[1..]) + Sections(post));
    }
  }

  lemma {:induction false} SectionsAfter(pre: seq<string>, post: seq<string>)
    requires NoHeading(pre)
    ensures Sections(pre + post) == Sections(post)
    ensures UpToHeading(pre) == pre
  {
    if pre == [] {
      assert pre + post == post;
    } else {
      assert (pre + post)[1..] == pre[1..] + post;
      SectionsAfter(pre[1..], post);
    }
  }

  lemma {:induction false} SectionAt(lines: seq<string>, j: nat)
    requires j < |lines| && IsHeading(lines[j])
    ensures Section(lines[j], UpToHeading(lines[j + 1..])) in Sections(lines)
  {
    if j > 0 {
      SectionAt(lines[1..], j - 1);
      assert lines[1..][j..] == lines[j + 1..];
    }
  }

  lemma HeadingReads(rule: Rule)
    ensures IsHeading(HeadingLine(rule)) && HeadingNumber(HeadingLine(rule)) == Some(rule.number)
  {
    var h := HeadingLine(rule);
    assert h[|RULE_HEADING|..] == Decimal(rule.number);
    assert HEADING <= RULE_HEADING;
    ValueOfDecimal(rule.number);
  }

  /** The sections of a rule's lines: its own, and one for each heading its body holds. */
  lemma SectionsOfRule(rule: Rule)
    ensures Sections(RuleLines(rule)) == [Section(HeadingLine(rule), UpToHeading(Under(rule)))] + Sections(Under(rule))
    ensures NoHeading(Lines(rule.body)) <==> Sections(Under(rule)) == []
    ensures NoHeading(Lines(rule.body)) ==> UpToHeading(Under(rule)) == Under(rule)
  {
    HeadingReads(rule);
    var under := Under(rule);
    assert RuleLines(rule)[1..] == under;
    if NoHeading(Lines(rule.body)) {
      assert NoHeading(under);
      SectionsAfter(under, []);
      assert under + [] == under;
    } else {
      var j :| 0 <= j < |Lines(rule.body)| && IsHeading(Lines(rule.body)[j]);
      assert under[j] == Lines(rule.body)[j];
      SectionAt(under, j);
    }
  }

  lemma SectionsOfFile(rules: seq<Rule>)
    requires rules != []
    ensures Sections(FileLines(rules)) == Sections(RuleLines(rules[0])) + Sections(FileLines(rules[1..]))
    ensures IsHeading(FileLines(rules)[0])
  {
    HeadingReads(rules[0]);
    if |rules| > 1 { HeadingReads(rules[1]); }
    SectionsOfSum(RuleLines(rules[0]), FileLines(rules[1..]));
  }

  lemma {:induction false} ManySections(rules: seq<Rule>)
    ensures |Sections(FileLines(rules))| >= |rules|
  {
    if rules != [] {
      SectionsOfFile(rules);
      SectionsOfRule(rules[0]);
      ManySections(rules[1..]);
    }
  }

  // ----- reading the sections back

  lemma {:induction false} ReadCounts(area: string, sections: seq<Section>)
    ensures ReadAll(area, sections).Ok? ==> |ReadAll(area, sections).value| == |sections|
  {
    if sections != [] { ReadCounts(area, sections[1..]); }
  }

  lemma {:induction false} TrimmedIs(lines: seq<string>)
    ensures Trimmed(lines) <= lines
    ensures lines != [] && lines[|lines| - 1] != "" ==> Trimmed(lines) == lines
    ensures lines != [] && lines[|lines| - 1] == "" ==> |Trimmed(lines)| < |lines|
  {
    if lines != [] && lines[|lines| - 1] == "" {
      TrimmedIs(lines[..|lines| - 1]);
    }
  }

  lemma TrimmedUnder(rule: Rule)
    ensures Trimmed(Under(rule)) == Trimmed(Lines(rule.body))
  {
    var under := Under(rule);
    assert under[..|under| - 1] == Lines(rule.body);
  }

  /** The text under a rule's own heading is its body exactly when the body does not end in a blank line. */
  lemma ReadsBack(rule: Rule)
    ensures ReadRule(rule.area, rule.number, Under(rule)) == Ok(rule)
       <==> Opens(rule.number) <= rule.body && Lines(rule.body)[|Lines(rule.body)| - 1] != ""
  {
    var lines := Lines(rule.body);
    TrimmedUnder(rule);
    TrimmedIs(lines);
    JoinOfLines(rule.body);
    var kept := Trimmed(lines);
    if lines[|lines| - 1] == "" && kept != [] && Join(kept) == rule.body {
      forall l | l in kept ensures OneLine(l) {
        var i :| 0 <= i < |kept| && kept[i] == l;
        LineOfLines(rule.body, i);
      }
      LinesOfJoin(kept);
      assert false;
    }
  }

  /** The rules of a file's lines come back exactly when every one is clean. */
  lemma {:induction false} FileReadsBack(area: string, rules: seq<Rule>)
    requires OfOneArea(rules, area)
    ensures ReadAll(area, Sections(FileLines(rules))) == Ok(rules) <==> forall r :: r in rules ==> Clean(r)
  {
    if rules != [] {
      var r, rest := rules[0], rules[1..];
      assert rules == [r] + rest && r.area == area;
      hide Lines, NoHeading, Under, RuleLines, FileLines, UpToHeading, ReadRule;
      FileReadsBack(area, rest);
      SectionsOfFile(rules);
      SectionsOfRule(r);
      ManySections(rest);
      HeadingReads(r);
      ReadsBack(r);
      var all, later := Sections(FileLines(rules)), Sections(FileLines(rest));
      hide Sections;
      ReadCounts(area, all);
      if NoHeading(Lines(r.body)) {
        assert all == [Section(HeadingLine(r), Under(r))] + later;
        assert all[1..] == later;
      } else {
        assert |all| > |rules|;
      }
    }
  }

  lemma LinesOfRendered(head: string, rules: seq<Rule>)
    requires rules != []
    ensures Lines(Rendered(head, rules)) == Glued(Lines(head), FileLines(rules))
  {
    LinesOfTexts(rules);
    LinesOfSum(head, Join(RuleTexts(rules)));
  }

  lemma GluedWhole(h: seq<string>, file: seq<string>)
    requires h != [] && file != [] && h[|h| - 1] == ""
    ensures Glued(h, file) == h[..|h| - 1] + file
  {
    assert "" + file[0] == file[0];
  }

  lemma SectionsWhole(head: string, rules: seq<Rule>)
    requires NoHeading(Lines(head)) && rules != [] && Whole(head)
    ensures Sections(Lines(Rendered(head, rules))) == Sections(FileLines(rules))
  {
    hide Glued, Sections, Lines, Rendered, IsHeading;
    var h := Lines(head);
    LinesOfRendered(head, rules);
    GluedWhole(h, FileLines(rules));
    SectionsAfter(h[..|h| - 1], FileLines(rules));
  }

  lemma SectionsCut(head: string, rules: seq<Rule>)
    requires NoHeading(Lines(head)) && rules != [] && !Whole(head)
    ensures Sections(Lines(Rendered(head, rules))) == Sections(Under(rules[0])) + Sections(FileLines(rules[1..]))
  {
    hide Sections, Lines, Rendered, IsHeading, Under, HeadingLine;
    var h := Lines(head);
    LinesOfRendered(head, rules);
    var under, rest := Under(rules[0]), FileLines(rules[1..]);
    var pre := h[..|h| - 1] + [h[|h| - 1] + HeadingLine(rules[0])];
    NotAHeading(h[|h| - 1], rules[0]);
    assert FileLines(rules) == [HeadingLine(rules[0])] + (under + rest);
    assert Glued(h, FileLines(rules)) == pre + (under + rest);
    SectionsAfter(pre, under + rest);
    if |rules| > 1 { SectionsOfFile(rules[1..]); }
    SectionsOfSum(under, rest);
  }

  lemma SectionsOfHead(head: string)
    requires NoHeading(Lines(head))
    ensures Rendered(head, []) == head && Sections(Lines(head)) == []
  {
    SectionsAfter(Lines(head), []);
    assert Lines(head) + [] == Lines(head);
  }

  /** A heading that follows text on its line is no heading. */
  lemma NotAHeading(last: string, rule: Rule)
    requires last != "" && !IsHeading(last)
    ensures !IsHeading(last + HeadingLine(rule))
  {
    var line := last + HeadingLine(rule);
    if |last| < 4 {
      assert line[|last|] == '#' && line[|last| + 1] == '#' && line[|last| + 2] == '#' && line[|last| + 3] == ' ';
      assert HEADING[3] == ' ' && line[3] != ' ';
    } else {
      assert line[..4] == last[..4];
    }
  }

  /**
   The round trip of one file, for every head without a heading and every rules of its area: the parse
   gives the rules back exactly when the head is whole, or there is nothing after it, and every body
   starts with its number, holds no heading and does not end in a blank line.
   */
  lemma ParseUndoesRender(area: string, head: string, rules: seq<Rule>)
    requires NoHeading(Lines(head)) && OfOneArea(rules, area)
    ensures Parsed(area, Rendered(head, rules)) == Ok(rules)
       <==> (rules == [] || Whole(head)) && forall r :: r in rules ==> Clean(r)
  {
    hide Sections, Lines, Rendered, Clean, NoHeading, ReadAll;
    if rules == [] {
      SectionsOfHead(head);
      assert Parsed(area, head) == ReadAll(area, []);
      ReadNothing(area);
    } else if Whole(head) {
      SectionsWhole(head, rules);
      FileReadsBack(area, rules);
    } else {
      SectionsCut(head, rules);
      LostIsNotFound(area, head, rules);
    }
  }

  lemma ReadNothing(area: string)
    ensures ReadAll(area, []) == Ok([])
  {
  }

  // ----- a cut heading is never made up for: the sections are too short for the rules

  /** How many lines the bodies of the sections have. */
  ghost function Weight(sections: seq<Section>): nat {
    if sections == [] then 0 else |Trimmed(sections[0].lines)| + Weight(sections[1..])
  }

  ghost function BodyLines(rules: seq<Rule>): nat {
    if rules == [] then 0 else |Lines(rules[0].body)| + BodyLines(rules[1..])
  }

  lemma {:induction false} WeightOfSum(a: seq<Section>, b: seq<Section>)
    ensures Weight(a + b) == Weight(a) + Weight(b)
  {
    if a == [] {
      assert a + b == b;
    } else {
      assert (a + b)[1..] == a[1..] + b;
      WeightOfSum(a[1..], b);
    }
  }

  lemma {:induction false} TrimmedLed(line: string, lines: seq<string>)
    ensures |Trimmed([line] + lines)| <= 1 + |Trimmed(lines)|
  {
    if lines != [] && lines[|lines| - 1] == "" {
      var init := lines[..|lines| - 1];
      assert ([line] + lines)[..|lines|] == [line] + init;
      TrimmedLed(line, init);
    }
  }

  lemma {:induction false} WeightBound(lines: seq<string>)
    ensures |Trimmed(UpToHeading(lines + [""]))| + Weight(Sections(lines + [""])) <= |lines|
    ensures lines != [] ==> Weight(Sections(lines + [""])) < |lines|
    ensures lines != [] && IsHeading(lines[0]) ==>
            |Trimmed(UpToHeading(lines + [""]))| + Weight(Sections(lines + [""])) < |lines|
  {
    var all := lines + [""];
    if lines == [] {
      assert all[1..] == [] && UpToHeading(all) == [""] + [];
      assert [""][..0] == [];
    } else {
      var rest := all[1..];
      assert rest == lines[1..] + [""];
      WeightBound(lines[1..]);
      if IsHeading(all[0]) {
        assert Sections(all)[1..] == Sections(rest);
      } else {
        assert Sections(all) == Sections(rest);
        TrimmedLed(all[0], UpToHeading(rest));
      }
    }
  }

  lemma {:induction false} WeightOfFile(rules: seq<Rule>)
    ensures Weight(Sections(FileLines(rules))) <= BodyLines(rules)
  {
    if rules != [] {
      SectionsOfFile(rules);
      SectionsOfRule(rules[0]);
      var own, inner := Section(HeadingLine(rules[0]), UpToHeading(Under(rules[0]))), Sections(Under(rules[0]));
      assert ([own] + inner)[1..] == inner;
      WeightBound(Lines(rules[0].body));
      WeightOfSum([own] + inner, Sections(FileLines(rules[1..])));
      WeightOfFile(rules[1..]);
    }
  }

  ghost predicate InLines(sections: seq<Section>, lines: seq<string>) {
    forall s, l :: s in sections && l in s.lines ==> l in lines
  }

  lemma {:induction false} SectionsInLines(lines: seq<string>)
    ensures forall l :: l in UpToHeading(lines) ==> l in lines
    ensures InLines(Sections(lines), lines)
  {
    if lines != [] {
      SectionsInLines(lines[1..]);
      forall s, l | s in Sections(lines) && l in s.lines ensures l in lines {
        assert s in Sections(lines[1..]) || s == Section(lines[0], UpToHeading(lines[1..]));
        assert l in lines[1..];
      }
    }
  }

  lemma ReadWeighs(area: string, section: Section)
    requires forall l :: l in section.lines ==> OneLine(l)
    ensures var read := ReadSection(area, section);
      read.Ok? ==> |Lines(read.value.body)| == |Trimmed(section.lines)|
  {
    var kept := Trimmed(section.lines);
    TrimmedIs(section.lines);
    if kept != [] {
      assert forall l :: l in kept ==> l in section.lines;
      LinesOfJoin(kept);
    }
  }

  lemma {:induction false} ReadAllWeighs(area: string, sections: seq<Section>)
    requires forall s, l :: s in sections && l in s.lines ==> OneLine(l)
    ensures ReadAll(area, sections).Ok? ==> BodyLines(ReadAll(area, sections).value) == Weight(sections)
  {
    if sections != [] {
      assert sections[0] in sections;
      ReadWeighs(area, sections[0]);
      ReadAllWeighs(area, sections[1..]);
      var rest := ReadAll(area, sections[1..]);
      if ReadAll(area, sections).Ok? {
        var rule := ReadSection(area, sections[0]).value;
        assert ([rule] + rest.value)[1..] == rest.value;
      }
    }
  }

  lemma LostIsNotFound(area: string, head: string, rules: seq<Rule>)
    requires NoHeading(Lines(head)) && rules != [] && !Whole(head)
    ensures Parsed(area, Rendered(head, rules)) != Ok(rules)
  {
    hide Sections, Lines, Rendered, NoHeading, ReadAll, Under;
    var lines := Lines(Rendered(head, rules));
    var sections := Sections(lines);
    SectionsInLines(lines);
    forall s, l | s in sections && l in s.lines ensures OneLine(l) {
      assert l in lines;
      var i :| 0 <= i < |lines| && lines[i] == l;
      LineOfLines(Rendered(head, rules), i);
    }
    ReadAllWeighs(area, sections);
    SectionsCut(head, rules);
    WeightOfSum(Sections(Under(rules[0])), Sections(FileLines(rules[1..])));
    WeightOfUnder(rules[0]);
    WeightOfFile(rules[1..]);
  }

  lemma WeightOfUnder(rule: Rule)
    ensures Weight(Sections(Under(rule))) < |Lines(rule.body)|
  {
    WeightBound(Lines(rule.body));
  }
}
