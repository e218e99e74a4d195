/** Lines of a text and decimal numbers, as the language's `split`, `join` and number templates give them. */
module Text {

  /** `text.split('\n')`. */
  function Lines(text: string): (lines: seq<string>)
    ensures |lines| > 0
  {
    if text == "" then [""]
    else
      var rest := Lines(text[1..]);
      if text[0] == '\n' then [""] + rest else Led(text[0], rest)
  }

  /** The lines with one character more at the front of the first. */
  function Led(c: char, lines: seq<string>): seq<string>
    requires lines != []
  {
    [[c] + lines[0]] + lines[1..]
  }

  /** `lines.join('\n')`. */
  function Join(lines: seq<string>): string {
    if lines == [] then "" else if |lines| == 1 then lines[0] else lines[0] + "\n" + Join(lines[1..])
  }

  ghost predicate OneLine(s: string) { '\n' !in s }

  lemma {:induction false} JoinOfLines(text: string)
    ensures Join(Lines(text)) == text
  {
    if text != "" {
      JoinOfLines(text[1..]);
    }
  }

  lemma {:induction false} LineOfLines(text: string, i: nat)
    requires i < |Lines(text)|
    ensures OneLine(Lines(text)[i])
  {
    if text != "" {
      if text[0] != '\n' || i > 0 {
        LineOfLines(text[1..], if text[0] == '\n' then i - 1 else i);
      }
    }
  }

  lemma {:induction false} LinesOfLine(line: string)
    requires OneLine(line)
    ensures Lines(line) == [line]
  {
    if line != "" {
      LinesOfLine(line[1..]);
      assert line == [line[0]] + line[1..];
    }
  }

  /** The last line of the first text goes on as the first line of the second. */
  function Glued(a: seq<string>, b: seq<string>): seq<string>
    requires a != [] && b != []
  {
    a[..|a| - 1] + [a[|a| - 1] + b[0]] + b[1..]
  }

  lemma GluedLed(c: char, a: seq<string>, b: seq<string>)
    requires a != [] && b != []
    ensures Glued(Led(c, a), b) == Led(c, Glued(a, b))
  {
    if |a| == 1 {
      assert [c] + (a[0] + b[0]) == ([c] + a[0]) + b[0];
      assert Glued(a, b) == [a[0] + b[0]] + b[1..];
      assert Glued(Led(c, a), b) == [[c] + a[0] + b[0]] + b[1..];
    } else {
      assert Glued(a, b)[0] == a[0];
    }
  }

  lemma GluedBroken(a: seq<string>, b: seq<string>)
    requires a != [] && b != []
    ensures Glued([""] + a, b) == [""] + Glued(a, b)
    ensures Glued(a, [""] + b) == a + b
    ensures Glued([""], b) == b
  {
    assert ([""] + a)[..|a|] == [""] + a[..|a| - 1];
    assert a[|a| - 1] + "" == a[|a| - 1];
    assert ([""] + b)[1..] == b;
    assert "" + b[0] == b[0];
  }

  lemma {:induction false} LinesOfSum(a: string, b: string)
    ensures Lines(a + b) == Glued(Lines(a), Lines(b))
  {
    hide Glued, Led;
    if a == "" {
      assert a + b == b;
      GluedBroken(Lines(a), Lines(b));
    } else {
      assert (a + b)[1..] == a[1..] + b;
      LinesOfSum(a[1..], b);
      GluedLed(a[0], Lines(a[1..]), Lines(b));
      GluedBroken(Lines(a[1..]), Lines(b));
    }
  }

  lemma LinesOfBroken(a: string, b: string)
    ensures Lines(a + "\n" + b) == Lines(a) + Lines(b)
  {
    assert a + "\n" + b == a + ("\n" + b);
    LinesOfSum(a, "\n" + b);
    assert ("\n" + b)[1..] == b;
    GluedBroken(Lines(a), Lines(b));
  }

  lemma {:induction false} LinesOfJoin(lines: seq<string>)
    requires lines != [] && forall l :: l in lines ==> OneLine(l)
    ensures Lines(Join(lines)) == lines
  {
    if |lines| == 1 {
      LinesOfLine(lines[0]);
    } else {
      LinesOfJoin(lines[1..]);
      LinesOfLine(lines[0]);
      LinesOfBroken(lines[0], Join(lines[1..]));
      assert lines == [lines[0]] + lines[1..];
      hide Lines, OneLine;
    }
  }

  /** A beginning that holds no line break is a beginning of the first line. */
  lemma {:induction false} BeginsFirstLine(text: string, start: string)
    requires OneLine(start)
    ensures start <= text <==> start <= Lines(text)[0]
  {
    if text != "" && text[0] != '\n' && start != "" {
      BeginsFirstLine(text[1..], start[1..]);
      assert start == [start[0]] + start[1..] && text == [text[0]] + text[1..];
      var first := Lines(text[1..])[0];
      assert Lines(text)[0] == [text[0]] + first;
      assert ([text[0]] + first)[1..] == first;
    }
  }

  // ----- decimal numbers

  predicate IsDigit(c: char) { '0' <= c <= '9' }

  predicate AllDigits(s: string) { forall i :: 0 <= i < |s| ==> IsDigit(s[i]) }

  function Digit(d: nat): (c: char)
    requires d < 10
    ensures IsDigit(c) && DigitValue(c) == d
  {
    '0' + d as char
  }

  function DigitValue(c: char): nat
    requires IsDigit(c)
  {
    (c - '0') as nat
  }

  function Decimal(n: nat): (s: string)
    ensures s != "" && AllDigits(s)
  {
    if n < 10 then [Digit(n)] else Decimal(n / 10) + [Digit(n % 10)]
  }

  function Value(s: string): nat
    requires AllDigits(s)
  {
    if s == "" then 0 else 10 * Value(s[..|s| - 1]) + DigitValue(s[|s| - 1])
  }

  lemma {:induction false} ValueOfDecimal(n: nat)
    ensures Value(Decimal(n)) == n
  {
    if n >= 10 {
      ValueOfDecimal(n / 10);
      var s := Decimal(n);
      assert s[..|s| - 1] == Decimal(n / 10);
    } else {
      var s := Decimal(n);
      assert s[..0] == "";
    }
  }

  /** How many digits the text begins with. */
  function DigitRun(s: string): (k: nat)
    ensures k <= |s| && AllDigits(s[..k])
    ensures k < |s| ==> !IsDigit(s[k])
  {
    if s != "" && IsDigit(s[0]) then 1 + DigitRun(s[1..]) else 0
  }
}
