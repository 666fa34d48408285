/** What scripts/gen_sobol_tables.py prints, word by word and line by line. */
module PrintedText {
  import opened Text
  import opened DecimalText

  /** A suffix of a number: no white space, and no comma. */
  predicate Plain(s: string) {
    forall i :: 0 <= i < |s| ==> !IsSpace(s[i]) && s[i] != ','
  }

  /** The number and its suffix, for each value. */
  function Words(values: seq<int>, suffix: string): seq<string> {
    seq(|values|, i requires 0 <= i < |values| => Str(values[i]) + suffix)
  }

  /** The text between commas, stripped. */
  function Trimmed(text: string): seq<string> {
    var pieces := Split(text, ',');
    seq(|pieces|, i requires 0 <= i < |pieces| => Strip(pieces[i]))
  }

  lemma DigitsArePlain(v: int)
    ensures Plain(Str(v))
  {
    hide Digits;
    assert forall c: char :: IsDigit(c) ==> !IsSpace(c) && c != ',';
  }

  lemma {:induction false} StripLeftBlank(blank: string, word: string)
    requires Blank(blank) && word != "" && !IsSpace(word[0])
    ensures StripLeft(blank + word) == word
  {
    if blank == "" {
      assert blank + word == word;
    } else {
      assert (blank + word)[1..] == blank[1..] + word;
      StripLeftBlank(blank[1..], word);
    }
  }

  lemma StripWord(blank: string, word: string)
    requires Blank(blank) && word != "" && Plain(word)
    ensures Strip(blank + word) == word
  {
    StripLeftBlank(blank, word);
  }

  lemma TrimmedFirst(blank: string, word: string, rest: string)
    requires Blank(blank) && ',' !in blank && word != "" && Plain(word)
    ensures Trimmed(blank + word + "," + rest) == [word] + Trimmed(rest)
  {
    hide Split, Strip, IsSpace;
    StripWord(blank, word);
    assert ',' !in blank + word;
    SplitFirst(blank + word, rest, ',');
  }

  lemma OneWord(v: int, suffix: string)
    requires Plain(suffix)
    ensures Plain(Str(v) + suffix) && Str(v) + suffix != ""
  {
    DigitsArePlain(v);
    hide Str, IsSpace;
  }

  lemma WordsSteps(values: seq<int>, suffix: string, n: nat)
    requires n <= |values|
    ensures Words(values, suffix) == Words(values[..n], suffix) + Words(values[n..], suffix)
  {
    hide Str;
  }

  lemma FirstWord(values: seq<int>, suffix: string)
    requires values != []
    ensures Words(values, suffix) == [Str(values[0]) + suffix] + Words(values[1..], suffix)
    ensures |values| == 1 ==> Words(values, suffix) == [Str(values[0]) + suffix]
  {
    hide Str;
  }

  lemma Associates<T>(a: seq<T>, b: seq<T>, c: seq<T>)
    ensures a + (b + c) == (a + b) + c
  {
  }

  lemma Regroup(blank: string, word: string, tail: string, rest: string)
    ensures blank + (word + "," + " " + tail) + rest == blank + word + "," + (" " + tail + rest)
  {
  }

  lemma RegroupLast(blank: string, word: string, rest: string)
    ensures blank + (word + ",") + rest == blank + word + "," + rest
  {
  }

  lemma RowIs(values: seq<int>, suffix: string)
    requires values != []
    ensures var row, word := Join(" ", Items(values, suffix)), Str(values[0]) + suffix;
            row == if |values| == 1 then word + "," else word + "," + " " + Join(" ", Items(values[1..], suffix))
  {
    hide Join, Items, Str;
    RowSteps(values, suffix);
  }

  lemma TrimmedStep(blank: string, row: string, word: string, tail: string, rest: string)
    requires Blank(blank) && ',' !in blank && word != "" && Plain(word) && row == word + "," + " " + tail
    ensures Trimmed(blank + row + rest) == [word] + Trimmed(" " + tail + rest)
  {
    hide Blank, Plain, Trimmed;
    Regroup(blank, word, tail, rest);
    TrimmedFirst(blank, word, " " + tail + rest);
  }

  lemma TrimmedLast(blank: string, row: string, word: string, rest: string)
    requires Blank(blank) && ',' !in blank && word != "" && Plain(word) && row == word + ","
    ensures Trimmed(blank + row + rest) == [word] + Trimmed(rest)
  {
    hide Blank, Plain, Trimmed;
    RegroupLast(blank, word, rest);
    TrimmedFirst(blank, word, rest);
  }

  /** A row of values after some white space, and then the rest. */
  lemma {:induction false} TrimmedRow(blank: string, values: seq<int>, suffix: string, rest: string)
    requires Blank(blank) && ',' !in blank && values != [] && Plain(suffix)
    ensures Trimmed(blank + Join(" ", Items(values, suffix)) + rest) == Words(values, suffix) + Trimmed(rest)
    decreases |values|
  {
    RowIs(values, suffix);
    OneWord(values[0], suffix);
    FirstWord(values, suffix);
    BlanksAreBlank();
    hide Join, Items, Trimmed, Str, Plain, Words, Blank;
    var word, row := Str(values[0]) + suffix, Join(" ", Items(values, suffix));
    if |values| == 1 {
      TrimmedLast(blank, row, word, rest);
    } else {
      var after := values[1..];
      TrimmedStep(blank, row, word, Join(" ", Items(after, suffix)), rest);
      TrimmedRow(" ", after, suffix, rest);
      Associates([word], Words(after, suffix), Trimmed(rest));
    }
  }

  lemma TrimmedNothing()
    ensures Trimmed("") == [""]
  {
  }

  lemma TrimmedLine(blank: string, values: seq<int>, suffix: string, rest: string)
    requires Blank(blank) && ',' !in blank && values != [] && Plain(suffix)
    ensures Trimmed(blank + Line(values, suffix) + rest) == Words(values, suffix) + Trimmed(rest)
  {
    hide Join, Items, Trimmed, Words, Plain, Strip, Split;
    assert blank + Line(values, suffix) + rest == (blank + "    ") + Join(" ", Items(values, suffix)) + rest;
    assert Blank(blank + "    ") && ',' !in blank + "    ";
    TrimmedRow(blank + "    ", values, suffix, rest);
  }

  /** Between the commas of the printed text there are the numbers in order, each with its suffix, and nothing after the
      last comma. */
  lemma {:induction false} PrintedWords(blank: string, values: seq<int>, suffix: string)
    requires Blank(blank) && ',' !in blank && values != [] && Plain(suffix)
    ensures Trimmed(blank + Formatted(values, suffix)) == Words(values, suffix) + [""]
    decreases |values|
  {
    FormattedSteps(values, suffix);
    BlanksAreBlank();
    hide Line, Formatted, Trimmed, Plain, Blank, Words;
    var n := FirstLine(values);
    if n == |values| {
      assert blank + Formatted(values, suffix) == blank + Line(values, suffix) + "";
      TrimmedLine(blank, values, suffix, "");
      TrimmedNothing();
    } else {
      var line, more := Line(values[..n], suffix), Formatted(values[n..], suffix);
      assert blank + (line + "\n" + more) == blank + line + ("\n" + more);
      TrimmedLine(blank, values[..n], suffix, "\n" + more);
      PrintedWords("\n", values[n..], suffix);
      WordsSteps(values, suffix, n);
    }
  }

  lemma BlanksAreBlank()
    ensures Blank(" ") && Blank("\n") && Blank("    ")
  {
  }

  // ----- lines

  lemma {:induction false} RowHasNoBreak(values: seq<int>, suffix: string)
    requires values != [] && Plain(suffix)
    ensures '\n' !in Join(" ", Items(values, suffix))
  {
    RowSteps(values, suffix);
    OneWord(values[0], suffix);
    PlainHasNoBreak(Str(values[0]) + suffix);
    hide Join, Items, Str, Plain;
    if |values| > 1 {
      RowHasNoBreak(values[1..], suffix);
    }
  }

  lemma PlainHasNoBreak(s: string)
    requires Plain(s)
    ensures '\n' !in s
  {
  }

  /** The values of line `k`. */
  function LineOf(values: seq<int>, k: nat): seq<int>
    requires 16 * k < |values|
  {
    values[16 * k..if 16 * k + 16 < |values| then 16 * k + 16 else |values|]
  }

  lemma LinesSteps(values: seq<int>, suffix: string)
    requires values != []
    ensures var n := FirstLine(values); Lines(values, suffix) == [Line(values[..n], suffix)] + Lines(values[n..], suffix)
  {
  }

  lemma LineOfRest(values: seq<int>, k: nat)
    requires 16 * k < |values|
    ensures k == 0 ==> LineOf(values, 0) == values[..FirstLine(values)]
    ensures k > 0 ==> |values| > 16 && LineOf(values, k) == LineOf(values[16..], k - 1)
  {
    if k > 0 {
      var end := if 16 * k + 16 < |values| then 16 * k + 16 else |values|;
      assert values[16..][16 * (k - 1)..end - 16] == values[16 * k..end];
    }
  }

  lemma {:induction false} LinesAre(values: seq<int>, suffix: string, k: nat)
    requires 16 * k < |values|
    ensures |Lines(values, suffix)| == (|values| + 15) / 16
    ensures k < |Lines(values, suffix)| && Lines(values, suffix)[k] == Line(LineOf(values, k), suffix)
    decreases |values|
  {
    LinesSteps(values, suffix);
    LineOfRest(values, k);
    NoLines(suffix);
    hide Line, Lines, LineOf;
    var n := FirstLine(values);
    if n < |values| {
      LinesAre(values[n..], suffix, if k > 0 then k - 1 else 0);
    } else {
      assert values[n..] == [];
    }
  }

  /** The printed text has a line for every sixteen values: four blanks, and the values with their suffixes and a comma
      after each. */
  lemma PrintedLines(values: seq<int>, suffix: string, k: nat)
    requires 16 * k < |values| && Plain(suffix)
    ensures var lines := Split(Formatted(values, suffix), '\n');
            && |lines| == (|values| + 15) / 16 && k < |lines|
            && "    " <= lines[k] && |lines[k]| > 4 && !IsSpace(lines[k][4])
            && Trimmed(lines[k]) == Words(LineOf(values, k), suffix) + [""]
  {
    LinesAre(values, suffix, k);
    LinesHaveNoBreak(values, suffix);
    hide Lines, Line, Trimmed, Words;
    SplitJoin(Lines(values, suffix), '\n');
    LineIs(LineOf(values, k), suffix);
  }

  lemma LinesHaveNoBreak(values: seq<int>, suffix: string)
    requires values != [] && Plain(suffix)
    ensures Lines(values, suffix) != [] && NoneContains(Lines(values, suffix), '\n')
    decreases |values|
  {
    hide Join, Items, Plain;
    var n := FirstLine(values);
    RowHasNoBreak(values[..n], suffix);
    if n < |values| {
      LinesHaveNoBreak(values[n..], suffix);
    }
  }

  lemma LineIs(values: seq<int>, suffix: string)
    requires values != [] && Plain(suffix)
    ensures var line := Line(values, suffix);
            && "    " <= line && |line| > 4 && !IsSpace(line[4])
            && Trimmed(line) == Words(values, suffix) + [""]
  {
    RowSteps(values, suffix);
    OneWord(values[0], suffix);
    var word := Str(values[0]) + suffix;
    assert !IsSpace(word[0]);
    TrimmedLine("", values, suffix, "");
    TrimmedNothing();
    assert "" + Line(values, suffix) + "" == Line(values, suffix);
    hide Join, Items, Str, Trimmed, Words, IsSpace;
    assert Line(values, suffix)[4] == word[0];
  }

  // ----- numbers

  lemma {:induction false} NoLeadingZero(n: nat)
    ensures |Digits(n)| == 1 <==> n < 10
    ensures n >= 10 ==> Digits(n)[0] != '0'
  {
    if n >= 10 {
      NoLeadingZero(n / 10);
      assert Digits(n)[0] == Digits(n / 10)[0];
      assert n < 100 ==> Digits(n / 10) == [DigitOf(n / 10)];
    }
  }

  /** A number is printed as its digits, without a leading zero, after a sign if it is negative. */
  lemma NumberIsPlain(v: int)
    ensures v >= 0 ==> NatValue(Str(v)) == v && (|Str(v)| > 1 ==> Str(v)[0] != '0')
    ensures v < 0 ==> Str(v)[0] == '-' && Str(v)[1..] == Str(-v)
  {
    var n := if v < 0 then -v else v;
    NoLeadingZero(n);
    NatValueOfDigits(n);
    hide Digits, NatValue;
  }
}
