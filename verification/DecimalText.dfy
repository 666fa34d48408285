/** Printing integers in lines of sixteen, and reading them back, as scripts/gen_sobol_tables.py does. */
module DecimalText {
  import opened Text

  const VALUES_PER_LINE := 16

  function DigitOf(d: nat): (c: char)
    requires d < 10
    ensures IsDigit(c)
  {
    ('0' as int + d) as char
  }

  function Digits(n: nat): (digits: string)
    ensures digits != "" && forall i :: 0 <= i < |digits| ==> IsDigit(digits[i])
  {
    if n < 10 then [DigitOf(n)] else Digits(n / 10) + [DigitOf(n % 10)]
  }

  /** Python's str of an integer. */
  function Str(v: int): (text: string)
    ensures text != ""
  {
    if v < 0 then "-" + Digits(-v) else Digits(v)
  }

  function NatValue(digits: string): nat
    requires forall i :: 0 <= i < |digits| ==> IsDigit(digits[i])
  {
    if digits == "" then 0
    else
      var last := digits[|digits| - 1];
      assert IsDigit(last);
      NatValue(digits[..|digits| - 1]) * 10 + (last as int - '0' as int)
  }

  function DigitRun(s: string): (n: nat)
    ensures n <= |s| && forall i :: 0 <= i < n ==> IsDigit(s[i])
  {
    if s != "" && IsDigit(s[0]) then 1 + DigitRun(s[1..]) else 0
  }

  /** The integers of `text`: every leftmost longest match of an optional minus sign and a run of digits. */
  function FindInts(text: string): seq<int> {
    if text == "" then []
    else if IsDigit(text[0]) then
      var n := DigitRun(text);
      [NatValue(text[..n])] + FindInts(text[n..])
    else if text[0] == '-' && DigitRun(text[1..]) > 0 then
      var tail := text[1..];
      var n := DigitRun(tail);
      [-(NatValue(tail[..n]) as int)] + FindInts(tail[n..])
    else FindInts(text[1..])
  }

  function Item(v: int, suffix: string): string {
    Str(v) + suffix + ","
  }

  function Items(values: seq<int>, suffix: string): (items: seq<string>)
    ensures |items| == |values|
  {
    seq(|values|, i requires 0 <= i < |values| => Item(values[i], suffix))
  }

  function Line(values: seq<int>, suffix: string): string {
    "    " + Join(" ", Items(values, suffix))
  }

  function FirstLine(values: seq<int>): (n: nat)
    ensures n <= |values| && (values != [] ==> n > 0)
  {
    if |values| < VALUES_PER_LINE then |values| else VALUES_PER_LINE
  }

  function Lines(values: seq<int>, suffix: string): seq<string> {
    if values == [] then []
    else
      var n := FirstLine(values);
      [Line(values[..n], suffix)] + Lines(values[n..], suffix)
  }

  function Formatted(values: seq<int>, suffix: string): string {
    Join("\n", Lines(values, suffix))
  }

  lemma LinesFrom(values: seq<int>, suffix: string, start: nat, end: nat)
    requires start < |values| && end == if start + VALUES_PER_LINE <= |values| then start + VALUES_PER_LINE else |values|
    ensures Lines(values[start..], suffix) == [Line(values[start..end], suffix)] + Lines(values[end..], suffix)
  {
    hide Line;
    var rest := values[start..];
    assert rest[..end - start] == values[start..end] && rest[end - start..] == values[end..];
  }

  method FormatValues(values: seq<int>, suffix: string) returns (text: string)
    ensures text == Formatted(values, suffix)
  {
    hide Line, Lines, Join;
    var lines: seq<string> := [];
    var start := 0;
    assert values[0..] == values;
    while start < |values|
      invariant 0 <= start
      invariant Lines(values, suffix) == lines + Lines(values[if start < |values| then start else |values|..], suffix)
    {
      var end := if start + VALUES_PER_LINE <= |values| then start + VALUES_PER_LINE else |values|;
      LinesFrom(values, suffix, start, end);
      lines := lines + [Line(values[start..end], suffix)];
      start := start + VALUES_PER_LINE;
    }
    NoLines(suffix);
    assert values[|values|..] == [] && lines + [] == lines;
    text := Join("\n", lines);
  }

  lemma NoLines(suffix: string)
    ensures Lines([], suffix) == []
  {
  }

  lemma ItemsSteps(values: seq<int>, suffix: string)
    requires values != []
    ensures Items(values, suffix) == [Item(values[0], suffix)] + Items(values[1..], suffix)
  {
    hide Item;
  }

  lemma RowSteps(values: seq<int>, suffix: string)
    requires values != []
    ensures Join(" ", Items(values, suffix))
         == if |values| == 1 then Item(values[0], suffix)
            else Item(values[0], suffix) + " " + Join(" ", Items(values[1..], suffix))
  {
    hide Item, Items, Join;
    ItemsSteps(values, suffix);
    JoinCons(" ", Item(values[0], suffix), Items(values[1..], suffix));
  }

  lemma FormattedSteps(values: seq<int>, suffix: string)
    requires values != []
    ensures var n := FirstLine(values);
            Formatted(values, suffix)
            == if n == |values| then Line(values, suffix)
               else Line(values[..n], suffix) + "\n" + Formatted(values[n..], suffix)
  {
    var n := FirstLine(values);
    JoinCons("\n", Line(values[..n], suffix), Lines(values[n..], suffix));
    if n == |values| {
      assert values[..n] == values && values[n..] == [];
    }
  }

  // ----- the size of the text

  /** The byte estimate of a row of values: the digits and two more bytes for each value. */
  function Estimate(values: seq<int>): nat {
    if values == [] then 0 else |Str(values[0])| + 2 + Estimate(values[1..])
  }

  function LineCount(n: nat): nat {
    (n + VALUES_PER_LINE - 1) / VALUES_PER_LINE
  }

  lemma {:induction false} EstimateAppend(a: seq<int>, b: seq<int>)
    ensures Estimate(a + b) == Estimate(a) + Estimate(b)
  {
    if a == [] {
      assert a + b == b;
    } else {
      assert (a + b)[1..] == a[1..] + b;
      EstimateAppend(a[1..], b);
    }
  }

  /** Every value costs at least three bytes. */
  lemma {:induction false} EstimatePerValue(values: seq<int>)
    ensures Estimate(values) >= 3 * |values|
  {
    if values != [] {
      EstimatePerValue(values[1..]);
    }
  }

  lemma ItemSize(v: int, suffix: string)
    ensures |Item(v, suffix)| == |Str(v)| + |suffix| + 1
  {
    hide Str;
  }

  lemma EstimateSteps(values: seq<int>)
    requires values != []
    ensures Estimate(values) == |Str(values[0])| + 2 + Estimate(values[1..])
  {
    hide Str;
  }

  lemma OneMore(n: nat, width: nat)
    requires n > 0
    ensures n * width == width + (n - 1) * width
  {
  }

  lemma {:induction false} RowSize(values: seq<int>, suffix: string)
    requires values != []
    ensures |Join(" ", Items(values, suffix))| == Estimate(values) + |values| * |suffix| - 1
  {
    hide Join, Items, Item, Estimate, Str;
    RowSteps(values, suffix);
    ItemSize(values[0], suffix);
    EstimateSteps(values);
    OneMore(|values|, |suffix|);
    if |values| > 1 {
      RowSize(values[1..], suffix);
    } else {
      NothingToPrint(values[1..]);
    }
  }

  lemma NothingToPrint(values: seq<int>)
    requires values == []
    ensures Estimate(values) == 0
  {
  }

  lemma LineSize(values: seq<int>, suffix: string)
    requires values != []
    ensures |Line(values, suffix)| == Estimate(values) + |values| * |suffix| + 3
  {
    hide Join, Items, Estimate;
    RowSize(values, suffix);
  }

  lemma FormattedSizeSteps(values: seq<int>, suffix: string)
    requires values != []
    ensures var n := FirstLine(values);
            |Formatted(values, suffix)|
            == |Line(values[..n], suffix)| + if n == |values| then 0 else 1 + |Formatted(values[n..], suffix)|
  {
    hide Formatted, Line;
    FormattedSteps(values, suffix);
    assert values[..|values|] == values;
  }

  /** The exact size of the printed values: the estimate, the suffixes, and four bytes a line less one. */
  lemma {:induction false} FormattedSize(values: seq<int>, suffix: string)
    requires values != []
    ensures |Formatted(values, suffix)|
         == Estimate(values) + |values| * |suffix| + 4 * LineCount(|values|) - 1
    decreases |values|
  {
    hide Formatted, Line, Estimate, LineCount;
    var n := FirstLine(values);
    var line, rest := values[..n], values[n..];
    FormattedSizeSteps(values, suffix);
    LineSize(line, suffix);
    LineCountSteps(|values|, n);
    if n < |values| {
      FormattedSize(rest, suffix);
      EstimateAppend(line, rest);
      assert values == line + rest;
      SplitProduct(n, |rest|, |suffix|);
    } else {
      assert line == values;
    }
  }

  lemma SplitProduct(a: nat, b: nat, width: nat)
    ensures (a + b) * width == a * width + b * width
  {
  }

  lemma LineCountSteps(n: nat, first: nat)
    requires n > 0 && first == if n < VALUES_PER_LINE then n else VALUES_PER_LINE
    ensures LineCount(n) == if n == first then 1 else 1 + LineCount(n - first)
  {
  }

  // ----- printing and reading back

  lemma {:induction false} NatValueOfDigits(n: nat)
    ensures NatValue(Digits(n)) == n
  {
    if n >= 10 {
      NatValueOfDigits(n / 10);
      assert Digits(n)[..|Digits(n)| - 1] == Digits(n / 10);
    } else {
      assert Digits(n)[..0] == "";
    }
  }

  lemma {:induction false} DigitRunStops(digits: string, rest: string)
    requires forall i :: 0 <= i < |digits| ==> IsDigit(digits[i])
    requires rest == "" || !IsDigit(rest[0])
    ensures DigitRun(digits + rest) == |digits|
  {
    if digits == "" {
      assert digits + rest == rest;
    } else {
      assert (digits + rest)[1..] == digits[1..] + rest;
      DigitRunStops(digits[1..], rest);
    }
  }

  lemma FindDigits(digits: string, rest: string)
    requires digits != "" && forall i :: 0 <= i < |digits| ==> IsDigit(digits[i])
    requires rest == "" || !IsDigit(rest[0])
    ensures FindInts(digits + rest) == [NatValue(digits)] + FindInts(rest)
  {
    hide NatValue, DigitRun;
    DigitRunStops(digits, rest);
    var body := digits + rest;
    assert body[..|digits|] == digits && body[|digits|..] == rest;
  }

  lemma FindNegated(digits: string, rest: string)
    requires digits != "" && forall i :: 0 <= i < |digits| ==> IsDigit(digits[i])
    requires rest == "" || !IsDigit(rest[0])
    ensures FindInts("-" + digits + rest) == [-(NatValue(digits) as int)] + FindInts(rest)
  {
    hide NatValue, DigitRun, FindInts, IsDigit;
    DigitRunStops(digits, rest);
    var body, text := digits + rest, "-" + digits + rest;
    assert text[1..] == body && body[..|digits|] == digits && body[|digits|..] == rest;
    FindAfterMinus(text);
  }

  lemma FindAfterMinus(text: string)
    requires text != "" && text[0] == '-' && DigitRun(text[1..]) > 0
    ensures var tail := text[1..];
            var n := DigitRun(tail);
            FindInts(text) == [-(NatValue(tail[..n]) as int)] + FindInts(tail[n..])
  {
  }

  /** A printed integer that no digit follows is read back as one integer. */
  lemma FindPrinted(v: int, rest: string)
    requires rest == "" || !IsDigit(rest[0])
    ensures FindInts(Str(v) + rest) == [v] + FindInts(rest)
  {
    hide FindInts, NatValue, Digits;
    NatValueOfDigits(if v < 0 then -v else v);
    if v < 0 {
      FindNegated(Digits(-v), rest);
    } else {
      FindDigits(Digits(v), rest);
    }
  }

  lemma FindSkips(c: char, rest: string)
    requires !IsDigit(c) && c != '-'
    ensures FindInts([c] + rest) == FindInts(rest)
  {
  }

  lemma FindItem(v: int, rest: string)
    ensures FindInts(Item(v, "") + rest) == [v] + FindInts(rest)
  {
    hide FindInts;
    assert Item(v, "") + rest == Str(v) + ([','] + rest);
    FindPrinted(v, [','] + rest);
    FindSkips(',', rest);
  }

  lemma {:induction false} FindRow(values: seq<int>, rest: string)
    requires values != []
    ensures FindInts(Join(" ", Items(values, "")) + rest) == values + FindInts(rest)
  {
    hide Join, Items, FindInts, Item;
    RowSteps(values, "");
    if |values| == 1 {
      FindItem(values[0], rest);
    } else {
      var first, others := Item(values[0], ""), Join(" ", Items(values[1..], ""));
      FindRow(values[1..], rest);
      Regroup(first, ' ', others, rest);
      FindItem(values[0], [' '] + (others + rest));
      FindSkips(' ', others + rest);
      assert values == [values[0]] + values[1..];
      assert [values[0]] + (values[1..] + FindInts(rest)) == values + FindInts(rest);
    }
  }

  lemma Regroup(a: string, c: char, b: string, rest: string)
    ensures a + [c] + b + rest == a + ([c] + (b + rest))
  {
  }

  lemma FindLine(values: seq<int>, rest: string)
    requires values != []
    ensures FindInts(Line(values, "") + rest) == values + FindInts(rest)
  {
    hide Join, Items, FindInts;
    var body := Join(" ", Items(values, "")) + rest;
    FindRow(values, rest);
    assert Line(values, "") + rest == [' '] + ([' '] + ([' '] + ([' '] + body)));
    FindSkips(' ', body);
    FindSkips(' ', [' '] + body);
    FindSkips(' ', [' '] + ([' '] + body));
    FindSkips(' ', [' '] + ([' '] + ([' '] + body)));
  }

  lemma FindBrokenLine(values: seq<int>, rest: string)
    requires values != []
    ensures FindInts(Line(values, "") + "\n" + rest) == values + FindInts(rest)
  {
    hide FindInts, Line;
    FindLine(values, ['\n'] + rest);
    FindSkips('\n', rest);
    assert Line(values, "") + "\n" + rest == Line(values, "") + (['\n'] + rest);
  }

  /** Reading back what was printed gives the same integers in the same order. */
  lemma {:induction false} PrintThenFind(values: seq<int>)
    ensures FindInts(Formatted(values, "")) == values
    decreases |values|
  {
    if values != [] {
      hide FindInts, Line, Formatted;
      var n := FirstLine(values);
      FormattedSteps(values, "");
      if n == |values| {
        FindLine(values, "");
        assert Line(values, "") + "" == Line(values, "");
      } else {
        PrintThenFind(values[n..]);
        FindBrokenLine(values[..n], Formatted(values[n..], ""));
        assert values[..n] + values[n..] == values;
      }
    }
  }
}
