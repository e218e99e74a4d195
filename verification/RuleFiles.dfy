/**
 The architecture rules' files (`tooling/rules-for.ts`): the parse of one file, the merge of all, the
 dump, the rendering of one file, and `--split`, which moves the rules of the old one-section text
 into the files of their areas. Texts are texts, line by line as the code reads them; the parsed
 index of the skill file is an input.
 */
module RuleFiles {
  import opened Wrappers
  import opened Text
  import StableSort

  datatype Rule = Rule(number: nat, area: string, body: string)

  const AREAS: seq<string> := ["core", "trading", "signal-h1", "bot-ui", "payments", "auth"]

  datatype Error =
    | BodyStart(area: string, number: nat)
    | UnexpectedHeading(area: string, line: string)
    | InBoth(number: nat, earlier: string, later: string)
    | NoSection
    | AlreadyIndex
    | NoFirstRule
    | Twice(number: nat)
    | LineBefore(line: string)
    | NoIndexLine(numbers: seq<nat>)
    | UnknownArea(number: nat, area: string)

  // ----- one rule file

  const HEADING: string := "### "
  const RULE_HEADING: string := "### Rule "

  predicate IsHeading(line: string) { HEADING <= line }

  /** `/^### Rule (\d+)$/` and the number it holds. */
  function HeadingNumber(line: string): Option<nat> {
    if RULE_HEADING <= line && |line| > |RULE_HEADING| && AllDigits(line[|RULE_HEADING|..])
    then Some(Value(line[|RULE_HEADING|..]))
    else None
  }

  function Opens(number: nat): string { Decimal(number) + ". " }

  function Trimmed(lines: seq<string>): seq<string> {
    if lines != [] && lines[|lines| - 1] == "" then Trimmed(lines[..|lines| - 1]) else lines
  }

  /** The rule under one heading. */
  function ReadRule(area: string, number: nat, lines: seq<string>): Result<Rule, Error> {
    var body := Join(Trimmed(lines));
    if Opens(number) <= body then Ok(Rule(number, area, body)) else Err(BodyStart(area, number))
  }

  /** A heading and the lines up to the next one. */
  datatype Section = Section(heading: string, lines: seq<string>)

  function UpToHeading(lines: seq<string>): seq<string> {
    if lines == [] || IsHeading(lines[0]) then [] else [lines[0]] + UpToHeading(lines[1..])
  }

  function Sections(lines: seq<string>): seq<Section> {
    if lines == [] then []
    else (if IsHeading(lines[0]) then [Section(lines[0], UpToHeading(lines[1..]))] else []) + Sections(lines[1..])
  }

  function ReadSection(area: string, section: Section): Result<Rule, Error> {
    match HeadingNumber(section.heading)
    case None => Err(UnexpectedHeading(area, section.heading))
    case Some(number) => ReadRule(area, number, section.lines)
  }

  /** The rules of the sections, or the error of the first that is no rule. */
  function ReadAll(area: string, sections: seq<Section>): Result<seq<Rule>, Error> {
    if sections == [] then Ok([])
    else match ReadSection(area, sections[0])
      case Err(e) => Err(e)
      case Ok(rule) => Before(rule, ReadAll(area, sections[1..]))
  }

  function Before(rule: Rule, rest: Result<seq<Rule>, Error>): Result<seq<Rule>, Error> {
    match rest
    case Err(e) => Err(e)
    case Ok(rules) => Ok([rule] + rules)
  }

  function Parsed(area: string, text: string): Result<seq<Rule>, Error> { ReadAll(area, Sections(Lines(text))) }

  // ----- all rule files

  predicate ByNumber(a: Rule, b: Rule) { a.number < b.number }

  function FirstWith(rules: seq<Rule>, number: nat): Option<Rule> {
    if rules == [] then None else if rules[0].number == number then Some(rules[0]) else FirstWith(rules[1..], number)
  }

  predicate DistinctNumbers(rules: seq<Rule>) {
    forall i, j :: 0 <= i < j < |rules| ==> rules[i].number != rules[j].number
  }

  function Flat(perFile: seq<seq<Rule>>): seq<Rule> {
    if perFile == [] then [] else perFile[0] + Flat(perFile[1..])
  }

  /** The first rule whose number an earlier one has. */
  function Clash(rules: seq<Rule>): Option<Error> {
    if rules == [] then None
    else
      var init, last := rules[..|rules| - 1], rules[|rules| - 1];
      match Clash(init)
      case Some(e) => Some(e)
      case None =>
        match FirstWith(init, last.number)
        case Some(earlier) => Some(InBoth(last.number, earlier.area, last.area))
        case None => None
  }

  function Merged(perFile: seq<seq<Rule>>): Result<seq<Rule>, Error> {
    match Clash(Flat(perFile))
    case Some(e) => Err(e)
    case None => Ok(StableSort.Sorted(Flat(perFile), ByNumber))
  }

  function Dump(rules: seq<Rule>): string {
    if rules == [] then "" else rules[0].body + "\n" + Dump(rules[1..])
  }

  // ----- writing

  function RuleText(rule: Rule): string { RULE_HEADING + Decimal(rule.number) + "\n" + rule.body + "\n" }

  function RuleTexts(rules: seq<Rule>): seq<string> {
    if rules == [] then [] else [RuleText(rules[0])] + RuleTexts(rules[1..])
  }

  function Rendered(head: string, rules: seq<Rule>): string { head + Join(RuleTexts(rules)) }

  /** The line terminators after which `^` matches under the `m` flag. */
  predicate Terminates(c: char) { c == '\n' || c == '\r' || c == '\U{2028}' || c == '\U{2029}' }

  /** `text.search(/^### /m)` from position k on, none when there is no match. */
  function SearchHeading(text: string, k: nat): (r: Option<nat>)
    requires k <= |text|
    ensures r.Some? ==> k <= r.value <= |text|
    decreases |text| - k
  {
    if HEADING <= text[k..] && (k == 0 || Terminates(text[k - 1])) then Some(k)
    else if k == |text| then None
    else SearchHeading(text, k + 1)
  }

  function HeadOf(text: Option<string>, area: string): string {
    match text
    case None => "# Architecture Rules — " + area + "\n\n"
    case Some(t) =>
      match SearchHeading(t, 0)
      case None => t
      case Some(at) => t[..at]
  }

  // ----- the old one-section text

  const SECTION_HEADING: string := "## Architecture Rules to Enforce in Every Plan"
  const SECTION_END: string := "## Forbidden Actions"

  datatype Entry = Entry(number: nat, lines: seq<string>)

  /** `/^(\d+)\. /` and the number it holds. */
  function Opening(line: string): Option<nat> {
    var k := DigitRun(line);
    if k > 0 && k + 2 <= |line| && line[k] == '.' && line[k + 1] == ' ' then Some(Value(line[..k])) else None
  }

  function IndexOf(lines: seq<string>, x: string, from: nat): (r: Option<nat>)
    requires from <= |lines|
    ensures r.Some? ==> from <= r.value < |lines| && lines[r.value] == x
    decreases |lines| - from
  {
    if from == |lines| then None else if lines[from] == x then Some(from) else IndexOf(lines, x, from + 1)
  }

  function FindFirstRule(lines: seq<string>): (r: Option<nat>)
    ensures r.Some? ==> r.value < |lines| && "1. **" <= lines[r.value]
  {
    if lines == [] then None
    else if "1. **" <= lines[0] then Some(0)
    else
      var rest := FindFirstRule(lines[1..]);
      match rest
      case None => None
      case Some(i) => Some(i + 1)
  }

  predicate Dropped(line: string) { line == "" || line == "---" }

  predicate HasEntry(entries: seq<Entry>, number: nat) { exists e :: e in entries && e.number == number }

  /** One line of the section: it opens a rule or goes on with the last one. */
  function TakeLine(entries: seq<Entry>, line: string): Result<seq<Entry>, Error> {
    if Dropped(line) then Ok(entries)
    else match Opening(line)
      case Some(number) =>
        if HasEntry(entries, number) then Err(Twice(number)) else Ok(entries + [Entry(number, [line])])
      case None =>
        if entries == [] then Err(LineBefore(line))
        else
          var last := entries[|entries| - 1];
          Ok(entries[..|entries| - 1] + [Entry(last.number, last.lines + [line])])
  }

  function Gathered(lines: seq<string>): Result<seq<Entry>, Error> {
    if lines == [] then Ok([])
    else match Gathered(lines[..|lines| - 1])
      case Err(e) => Err(e)
      case Ok(entries) => TakeLine(entries, lines[|lines| - 1])
  }

  /** The lines between the section's heading and its end, from its first rule on. */
  function SectionLines(skill: string): Result<seq<string>, Error> {
    var lines := Lines(skill);
    match IndexOf(lines, SECTION_HEADING, 0)
    case None => Err(NoSection)
    case Some(start) =>
      match IndexOf(lines, SECTION_END, start)
      case None => Err(NoSection)
      case Some(end) =>
        var section := lines[start + 1..end];
        if "### Index" in section then Err(AlreadyIndex)
        else match FindFirstRule(section)
          case None => Err(NoFirstRule)
          case Some(first) => Ok(section[first..])
  }

  function Extracted(skill: string): Result<seq<Entry>, Error> {
    match SectionLines(skill)
    case Err(e) => Err(e)
    case Ok(lines) => Gathered(lines)
  }

  // ----- splitting

  function WithoutIndex(entries: seq<Entry>, index: map<nat, string>): seq<nat> {
    if entries == [] then []
    else (if entries[0].number in index then [] else [entries[0].number]) + WithoutIndex(entries[1..], index)
  }

  function Placed(entries: seq<Entry>, index: map<nat, string>): Result<seq<Rule>, Error> {
    if entries == [] then Ok([])
    else
      var e := entries[0];
      var area := if e.number in index then index[e.number] else "";
      if area !in AREAS then Err(UnknownArea(e.number, area))
      else Before(Rule(e.number, area, Join(e.lines)), Placed(entries[1..], index))
  }

  function SplitRules(entries: seq<Entry>, index: map<nat, string>): Result<seq<Rule>, Error> {
    if WithoutIndex(entries, index) != [] then Err(NoIndexLine(WithoutIndex(entries, index)))
    else match Placed(entries, index)
      case Err(e) => Err(e)
      case Ok(rules) => Ok(StableSort.Sorted(rules, ByNumber))
  }

  function OfArea(rules: seq<Rule>, area: string): seq<Rule> {
    if rules == [] then []
    else (if rules[0].area == area then [rules[0]] else []) + OfArea(rules[1..], area)
  }

  /** The files of the areas, as far as there is one. */
  type Files = map<string, string>

  function HeadIn(files: Files, area: string): string {
    HeadOf(if area in files then Some(files[area]) else None, area)
  }

  /** The files after those of these areas were written. */
  function Written(files: Files, rules: seq<Rule>, areas: seq<string>): Files {
    if areas == [] then files
    else
      var before, area := Written(files, rules, areas[..|areas| - 1]), areas[|areas| - 1];
      before[area := Rendered(HeadIn(before, area), OfArea(rules, area))]
  }

  /** The rules of the files of these areas, area by area. */
  function ParsedFiles(files: Files, areas: seq<string>): Result<seq<seq<Rule>>, Error>
    requires forall a :: a in areas ==> a in files
  {
    if areas == [] then Ok([])
    else match Parsed(areas[0], files[areas[0]])
      case Err(e) => Err(e)
      case Ok(rules) => AfterFiles([rules], ParsedFiles(files, areas[1..]))
  }

  function AfterFiles(perFile: seq<seq<Rule>>, rest: Result<seq<seq<Rule>>, Error>): Result<seq<seq<Rule>>, Error> {
    match rest
    case Err(e) => Err(e)
    case Ok(more) => Ok(perFile + more)
  }

  function Loaded(files: Files, areas: seq<string>): Result<seq<Rule>, Error>
    requires forall a :: a in areas ==> a in files
  {
    match ParsedFiles(files, areas)
    case Err(e) => Err(e)
    case Ok(perFile) => Merged(perFile)
  }

  predicate EntryByNumber(a: Entry, b: Entry) { a.number < b.number }

  function EntryDump(entries: seq<Entry>): string {
    if entries == [] then "" else Join(entries[0].lines) + "\n" + EntryDump(entries[1..])
  }

  /** The text of the old section, by number: what `--split` compares the dump with. */
  function SourceText(entries: seq<Entry>): string { EntryDump(StableSort.Sorted(entries, EntryByNumber)) }

  datatype Outcome = Exit(code: nat) | Failed(error: Error)

  /** How a split of the rules ends once their files are written. */
  function Compared(entries: seq<Entry>, files: Files): Outcome
    requires forall a :: a in AREAS ==> a in files
  {
    match Loaded(files, AREAS)
    case Err(e) => Failed(e)
    case Ok(rules) => Exit(if SourceText(entries) == Dump(rules) then 0 else 1)
  }

  // ----- the code

  function After(rules: seq<Rule>, rest: Result<seq<Rule>, Error>): Result<seq<Rule>, Error> {
    match rest
    case Err(e) => Err(e)
    case Ok(more) => Ok(rules + more)
  }

  lemma AfterFacts(rules: seq<Rule>, rule: Rule, rest: Result<seq<Rule>, Error>)
    ensures After([], rest) == rest && After(rules, Ok([])) == Ok(rules)
    ensures After(rules, Before(rule, rest)) == After(rules + [rule], rest)
  {
    if rest.Ok? {
      assert [] + rest.value == rest.value;
      assert rules + ([rule] + rest.value) == rules + [rule] + rest.value;
    }
    assert rules + [] == rules;
  }

  datatype Open = Open(number: nat, lines: seq<string>)

  /** What the parse gives with these rules read, this one open and these lines to come. */
  ghost function Resumed(area: string, rules: seq<Rule>, current: Option<Open>, rest: seq<string>): Result<seq<Rule>,
                         Error> {
    match current
    case None => After(rules, ReadAll(area, Sections(rest)))
    case Some(open) =>
      match ReadRule(area, open.number, open.lines + UpToHeading(rest))
      case Err(e) => Err(e)
      case Ok(rule) => After(rules + [rule], ReadAll(area, Sections(rest)))
  }

  method Close(area: string, rules: seq<Rule>, current: Option<Open>) returns (r: Result<seq<Rule>, Error>)
    ensures r == Resumed(area, rules, current, [])
  {
    assert rules + [] == rules;
    if current == None {
      return Ok(rules);
    }
    var lines := current.value.lines;
    while |lines| > 0 && lines[|lines| - 1] == ""
      invariant Trimmed(lines) == Trimmed(current.value.lines)
    {
      lines := lines[..|lines| - 1];
    }
    assert current.value.lines + [] == current.value.lines;
    var body := Join(lines);
    if !(Opens(current.value.number) <= body) {
      return Err(BodyStart(area, current.value.number));
    }
    r := Ok(rules + [Rule(current.value.number, area, body)]);
    assert r.value + [] == r.value;
  }

  method ParseRuleFile(area: string, text: string) returns (r: Result<seq<Rule>, Error>)
    ensures r == Parsed(area, text)
  {
    var rules: seq<Rule> := [];
    var current: Option<Open> := None;
    var lines := Lines(text);
    assert lines[0..] == lines;
    assert After(rules, Parsed(area, text)) == Parsed(area, text) by {
      AfterFacts([], Rule(0, "", ""), Parsed(area, text));
    }
    for i := 0 to |lines|
      invariant Resumed(area, rules, current, lines[i..]) == Parsed(area, text)
    {
      var line := lines[i];
      assert lines[i..] == [line] + lines[i + 1..];
      ResumedStep(area, rules, current, line, lines[i + 1..]);
      if IsHeading(line) {
        var closed := Close(area, rules, current);
        if closed.Err? {
          return closed;
        }
        rules := closed.value;
        match HeadingNumber(line) {
          case None => return Err(UnexpectedHeading(area, line));
          case Some(number) => current := Some(Open(number, []));
        }
      } else if current != None {
        current := Some(Open(current.value.number, current.value.lines + [line]));
      }
    }
    r := Close(area, rules, current);
  }

  lemma ResumedStep(area: string, rules: seq<Rule>, current: Option<Open>, line: string, rest: seq<string>)
    ensures !IsHeading(line) ==>
      var open := if current == None then None else Some(Open(current.value.number, current.value.lines + [line]));
      Resumed(area, rules, current, [line] + rest) == Resumed(area, rules, open, rest)
    ensures IsHeading(line) ==>
      var closed := Resumed(area, rules, current, []);
      Resumed(area, rules, current, [line] + rest)
      == if closed.Err? then closed
         else if HeadingNumber(line) == None then Err(UnexpectedHeading(area, line))
         else Resumed(area, closed.value, Some(Open(HeadingNumber(line).value, [])), rest)
  {
    assert ([line] + rest)[1..] == rest;
    if IsHeading(line) {
      var section := Section(line, UpToHeading(rest));
      assert Sections([line] + rest) == [section] + Sections(rest);
      assert ([section] + Sections(rest))[1..] == Sections(rest);
      assert [] + UpToHeading(rest) == UpToHeading(rest);
      assert current != None ==> current.value.lines + [] == current.value.lines;
      var closed := Resumed(area, rules, current, []);
      if closed.Ok? {
        var read := ReadSection(area, section);
        var done := if current == None then rules
                    else rules + [ReadRule(area, current.value.number, current.value.lines).value];
        AfterFacts(done, if read.Ok? then read.value else Rule(0, "", ""), ReadAll(area, Sections(rest)));
        assert closed == Ok(done);
      }
    } else {
      assert Sections([line] + rest) == Sections(rest);
      if current != None {
        assert current.value.lines + ([line] + UpToHeading(rest)) == current.value.lines + [line] + UpToHeading(rest);
      }
    }
  }

  method MergeRules(perFile: seq<seq<Rule>>) returns (r: Result<seq<Rule>, Error>)
    ensures r == Merged(perFile)
  {
    var flat := Flat(perFile);
    var seen: map<nat, string> := map[];
    var all: seq<Rule> := [];
    for i := 0 to |flat|
      invariant all == flat[..i] && Clash(all) == None
      invariant forall n: nat :: n in seen <==> FirstWith(all, n) != None
      invariant forall n: nat :: n in seen ==> seen[n] == FirstWith(all, n).value.area
    {
      var rule := flat[i];
      assert flat[..i + 1][..i] == flat[..i];
      assert flat[..i + 1] == all + [rule];
      forall n: nat { FirstWithSnoc(all, rule, n); }
      hide FirstWith;
      if rule.number in seen {
        ClashStays(flat, i + 1);
        return Err(InBoth(rule.number, seen[rule.number], rule.area));
      }
      seen := seen[rule.number := rule.area];
      all := all + [rule];
    }
    assert flat[..|flat|] == flat;
    r := Ok(StableSort.Sorted(all, ByNumber));
  }

  lemma {:induction false} FirstWithSnoc(rules: seq<Rule>, last: Rule, n: nat)
    ensures FirstWith(rules + [last], n)
         == if FirstWith(rules, n) != None then FirstWith(rules, n) else if last.number == n then Some(last) else None
  {
    if rules != [] {
      FirstWithSnoc(rules[1..], last, n);
      assert (rules + [last])[1..] == rules[1..] + [last];
    }
  }

  lemma {:induction false} ClashStays(rules: seq<Rule>, k: nat)
    requires k <= |rules| && Clash(rules[..k]) != None
    ensures Clash(rules) == Clash(rules[..k])
  {
    if k < |rules| {
      var init := rules[..|rules| - 1];
      assert init[..k] == rules[..k];
      ClashStays(init, k);
    } else {
      assert rules[..k] == rules;
    }
  }

  ghost predicate HasNumber(rules: seq<Rule>, n: nat) { exists r :: r in rules && r.number == n }

  /** Every number from 1 to the highest is there. */
  ghost predicate Unbroken(rules: seq<Rule>) {
    forall r, n: nat :: r in rules && 1 <= n <= r.number ==> HasNumber(rules, n)
  }

  /** The numbers missing below the highest one, in order. */
  method CheckNumbering(rules: seq<Rule>) returns (missing: seq<nat>)
    ensures forall n: nat :: n in missing <==> !HasNumber(rules, n) && n >= 1 && exists r :: r in rules && n <= r.number
    ensures forall i, j :: 0 <= i < j < |missing| ==> missing[i] < missing[j]
    ensures missing == [] <==> Unbroken(rules)
  {
    var numbers: set<nat> := {};
    var max: nat := 0;
    for i := 0 to |rules|
      invariant forall n: nat :: n in numbers <==> HasNumber(rules[..i], n)
      invariant forall r :: r in rules[..i] ==> r.number <= max
      invariant max == 0 || max in numbers
    {
      assert rules[..i + 1] == rules[..i] + [rules[i]];
      numbers := numbers + {rules[i].number};
      if rules[i].number > max { max := rules[i].number; }
    }
    assert rules[..|rules|] == rules;
    missing := [];
    for n: nat := 1 to max + 1
      invariant forall m: nat :: m in missing <==> m !in numbers && 1 <= m < n
      invariant forall i, j :: 0 <= i < j < |missing| ==> missing[i] < missing[j]
    {
      assert forall i :: 0 <= i < |missing| ==> missing[i] in missing;
      if n !in numbers { missing := missing + [n]; }
    }
    if missing == [] {
      forall r, n: nat | r in rules && 1 <= n <= r.number ensures HasNumber(rules, n) {
        assert n !in missing;
      }
    } else {
      assert missing[0] in missing;
      var top :| top in rules && top.number == max;
      assert !HasNumber(rules, missing[0]);
    }
  }

  method ExtractSectionRules(skill: string) returns (r: Result<seq<Entry>, Error>)
    ensures r == Extracted(skill)
  {
    var found := SectionLines(skill);
    if found.Err? {
      return Err(found.error);
    }
    var lines := found.value;
    var entries: seq<Entry> := [];
    for i := 0 to |lines|
      invariant Gathered(lines[..i]) == Ok(entries)
    {
      var line := lines[i];
      assert lines[..i + 1][..i] == lines[..i];
      if Dropped(line) {
        continue;
      }
      var opening := Opening(line);
      if opening != None {
        if HasEntry(entries, opening.value) {
          GatheredStays(lines, i + 1);
          return Err(Twice(opening.value));
        }
        entries := entries + [Entry(opening.value, [])];
        assert [] + [line] == [line];
      }
      if entries == [] {
        GatheredStays(lines, i + 1);
        return Err(LineBefore(line));
      }
      var current := entries[|entries| - 1];
      assert opening != None ==> current == Entry(opening.value, []);
      entries := entries[..|entries| - 1] + [Entry(current.number, current.lines + [line])];
    }
    assert lines[..|lines|] == lines;
    r := Ok(entries);
  }

  lemma {:induction false} GatheredStays(lines: seq<string>, k: nat)
    requires k <= |lines| && Gathered(lines[..k]).Err?
    ensures Gathered(lines) == Gathered(lines[..k])
  {
    if k < |lines| {
      var init := lines[..|lines| - 1];
      assert init[..k] == lines[..k];
      GatheredStays(init, k);
    } else {
      assert lines[..k] == lines;
    }
  }

  /**
   What a split of these entries leaves: the old files if a rule has no place, else the new ones and how they
   compare.
   */
  predicate SplitInto(entries: seq<Entry>, index: map<nat, string>, files: Files, after: Files, outcome: Outcome) {
    var rules := SplitRules(entries, index);
    if rules.Err? then after == files && outcome == Failed(rules.error)
    else
      && after == Written(files, rules.value, AREAS)
      && (forall a :: a in AREAS ==> a in after)
      && outcome == Compared(entries, after)
  }

  /** The files of the areas are rewritten only once every rule has its place. */
  method Split(skill: string, index: map<nat, string>, files: Files) returns (after: Files, outcome: Outcome)
    ensures Extracted(skill).Err? ==> after == files && outcome == Failed(Extracted(skill).error)
    ensures Extracted(skill).Ok? ==> SplitInto(Extracted(skill).value, index, files, after, outcome)
  {
    hide Extracted, SplitRules, Rendered, HeadIn, OfArea, Loaded;
    after := files;
    var extracted := ExtractSectionRules(skill);
    if extracted.Err? {
      return after, Failed(extracted.error);
    }
    var split := SplitRules(extracted.value, index);
    if split.Err? {
      return after, Failed(split.error);
    }
    after := WriteFiles(files, split.value, AREAS);
    var loaded := LoadRules(after, AREAS);
    outcome := if loaded.Err? then Failed(loaded.error)
               else Exit(if SourceText(extracted.value) == Dump(loaded.value) then 0 else 1);
  }

  method WriteFiles(files: Files, rules: seq<Rule>, areas: seq<string>) returns (after: Files)
    ensures after == Written(files, rules, areas)
    ensures forall a :: a in areas ==> a in after
  {
    after := files;
    for n := 0 to |areas|
      invariant after == Written(files, rules, areas[..n])
      invariant forall i :: 0 <= i < n ==> areas[i] in after
    {
      assert areas[..n + 1][..n] == areas[..n];
      after := after[areas[n] := Rendered(HeadIn(after, areas[n]), OfArea(rules, areas[n]))];
    }
    assert areas[..|areas|] == areas;
  }

  method LoadRules(files: Files, areas: seq<string>) returns (r: Result<seq<Rule>, Error>)
    requires forall a :: a in areas ==> a in files
    ensures r == Loaded(files, areas)
  {
    var perFile: seq<seq<Rule>> := [];
    assert areas[0..] == areas;
    assert AfterFiles(perFile, ParsedFiles(files, areas)) == ParsedFiles(files, areas) by {
      AfterFilesFacts([], [], ParsedFiles(files, areas));
    }
    for n := 0 to |areas|
      invariant ParsedFiles(files, areas) == AfterFiles(perFile, ParsedFiles(files, areas[n..]))
    {
      hide Parsed, AfterFiles;
      var parsed := ParseRuleFile(areas[n], files[areas[n]]);
      assert areas[n..][1..] == areas[n + 1..];
      if parsed.Err? {
        AfterFilesFacts(perFile, [], ParsedFiles(files, areas[n..]));
        return Err(parsed.error);
      }
      AfterFilesFacts(perFile, parsed.value, ParsedFiles(files, areas[n + 1..]));
      perFile := perFile + [parsed.value];
    }
    AfterFilesFacts(perFile, [], Ok([]));
    r := MergeRules(perFile);
  }

  lemma AfterFilesFacts(perFile: seq<seq<Rule>>, rules: seq<Rule>, rest: Result<seq<seq<Rule>>, Error>)
    ensures AfterFiles([], rest) == rest && AfterFiles(perFile, Ok([])) == Ok(perFile)
    ensures AfterFiles(perFile, AfterFiles([rules], rest)) == AfterFiles(perFile + [rules], rest)
    ensures rest.Err? ==> AfterFiles(perFile, rest) == rest
  {
    if rest.Ok? {
      assert [] + rest.value == rest.value;
      assert perFile + ([rules] + rest.value) == perFile + [rules] + rest.value;
    }
    assert perFile + [] == perFile;
  }
}
