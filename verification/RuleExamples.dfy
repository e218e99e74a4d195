/** Inputs at which the heads and `--split` fail, next to the theorems that say exactly when they do. */
module RuleExamples {
  import opened Wrappers
  import opened Text
  import opened RuleFiles
  import opened RuleFilesProofs
  import opened RuleSplitProofs
  import StableSort

  const RULE_ONE: string := "1. **A** b"

  /** A rule file whose heading stands behind a carriage return. */
  const CARRIAGE: string := "intro\r### Rule 1\n"

  /** An old text with one rule, and its index. */
  const OLD_TEXT: string := SECTION_HEADING + "\n" + RULE_ONE + "\n" + SECTION_END
  const INDEX: map<nat, string> := map[1 := "core"]

  lemma CarriageHead()
    ensures HeadOf(Some(CARRIAGE), "core") == "intro\r"
    ensures NoHeading(Lines(HeadOf(Some(CARRIAGE), "core"))) && !Whole(HeadOf(Some(CARRIAGE), "core"))
  {
    var t := CARRIAGE;
    assert HeadingAt(t, 6) by { assert t[6..] == HEADING + "Rule 1\n"; }
    forall k: nat | k < 6
      ensures !HeadingAt(t, k)
    {
      assert t[k..][0] == t[k] && t[k] != '#';
      assert HEADING[0] == '#';
    }
    SearchIs(t, 0);
    assert SearchHeading(t, 0) == Some(6);
    assert t[..6] == "intro\r";
    HeadIs(Some(t), "core");
  }

  lemma HeadingOneLine()
    ensures OneLine(SECTION_HEADING)
  {
    var a, b := "## Architecture Rules ", "to Enforce in Every Plan";
    FirstHalf();
    SecondHalf();
    assert a + b == SECTION_HEADING;
    assert '\n' !in a + b;
  }

  lemma FirstHalf()
    ensures '\n' !in "## Architecture Rules "
  {
  }

  lemma SecondHalf()
    ensures '\n' !in "to Enforce in Every Plan"
  {
  }

  lemma RuleOneLine()
    ensures OneLine(RULE_ONE)
  {
    assert '\n' !in RULE_ONE;
  }

  lemma EndOneLine()
    ensures OneLine(SECTION_END)
  {
    assert '\n' !in SECTION_END;
  }

  lemma ThreeLines(a: string, b: string, c: string)
    requires OneLine(a) && OneLine(b) && OneLine(c)
    ensures Lines(a + "\n" + b + "\n" + c) == [a, b, c]
  {
    LinesOfLine(a);
    LinesOfLine(b);
    LinesOfLine(c);
    hide Lines, OneLine;
    LinesOfBroken(a, b);
    LinesOfBroken(a + "\n" + b, c);
  }

  lemma TextLines()
    ensures Lines(OLD_TEXT) == [SECTION_HEADING, RULE_ONE, SECTION_END]
  {
    assert OLD_TEXT == SECTION_HEADING + "\n" + RULE_ONE + "\n" + SECTION_END;
    hide *;
    HeadingOneLine();
    RuleOneLine();
    EndOneLine();
    ThreeLines(SECTION_HEADING, RULE_ONE, SECTION_END);
  }

  lemma TextSection()
    ensures SectionLines(OLD_TEXT) == Ok([RULE_ONE])
  {
    TextLines();
    var lines := [SECTION_HEADING, RULE_ONE, SECTION_END];
    assert |SECTION_HEADING| != |SECTION_END| && RULE_ONE[0] == '1' && SECTION_END[0] == '#';
    assert IndexOf(lines, SECTION_END, 0) == Some(2) by {
      assert IndexOf(lines, SECTION_END, 2) == Some(2);
      assert IndexOf(lines, SECTION_END, 1) == Some(2);
    }
    assert lines[1..2] == [RULE_ONE] && "1. **" <= RULE_ONE;
    assert "### Index"[0] == '#';
    assert [RULE_ONE][0..] == [RULE_ONE];
  }

  lemma OneEntry()
    ensures Extracted(OLD_TEXT) == Ok([Entry(1, [RULE_ONE])])
  {
    TextSection();
    FirstOpens(RULE_ONE);
    hide SectionLines, Opening, Dropped;
    assert [RULE_ONE][..0] == [] && Gathered([]) == Ok([]);
    assert !HasEntry([], 1) && [] + [Entry(1, [RULE_ONE])] == [Entry(1, [RULE_ONE])];
    assert TakeLine([], RULE_ONE) == Ok([Entry(1, [RULE_ONE])]);
  }

  lemma OneRule()
    ensures SplitRules([Entry(1, [RULE_ONE])], INDEX) == Ok([Rule(1, "core", RULE_ONE)])
  {
    var entries, rule := [Entry(1, [RULE_ONE])], Rule(1, "core", RULE_ONE);
    assert AREAS[0] == "core";
    assert entries[1..] == [] && WithoutIndex([], INDEX) == [] && Placed([], INDEX) == Ok([]);
    assert Join([RULE_ONE]) == RULE_ONE && 1 in INDEX && INDEX[1] == "core" && "core" in AREAS;
    assert [rule] + [] == [rule];
    assert Placed(entries, INDEX) == Ok([rule]);
    assert [rule][..0] == [] && StableSort.Sorted([], ByNumber) == [];
    assert StableSort.Sorted([rule], ByNumber) == StableSort.Inserted([], rule, ByNumber);
  }

  /**
   The split of that text over that file does not end with exit code 0: the file it leaves has lost the
   rule, whose heading stands behind the carriage return.
   */
  lemma SplitLosesRule()
    ensures var files: Files := map["core" := CARRIAGE];
      var rules := [Rule(1, "core", RULE_ONE)];
      var now := Written(files, rules, AREAS);
      && Extracted(OLD_TEXT) == Ok([Entry(1, [RULE_ONE])])
      && SplitRules([Entry(1, [RULE_ONE])], INDEX) == Ok(rules)
      && (forall a :: a in AREAS ==> a in now)
      && Compared([Entry(1, [RULE_ONE])], now) != Exit(0)
  {
    var files: Files := map["core" := CARRIAGE];
    var rules := [Rule(1, "core", RULE_ONE)];
    OneEntry();
    OneRule();
    CarriageHead();
    assert AREAS[0] == "core";
    assert OfArea(rules, "core") != [];
    assert HeadIn(files, "core") == HeadOf(Some(CARRIAGE), "core");
    assert !HeadsWhole(files, rules);
    hide *;
    SplitExact(OLD_TEXT, INDEX, files);
  }
}
