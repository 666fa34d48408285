/** The depth-counting splitter of C parameter lists in scripts/gen_dotnet_bindings.py. */
module ParameterSplitter {
  import opened Text

  /** The parenthesis depth after one more character. */
  function Deeper(depth: int, c: char): int {
    if c == '(' then depth + 1 else if c == ')' then depth - 1 else depth
  }

  /** The parenthesis depth after the whole text. */
  function Depth(s: string, depth: int): int {
    if s == "" then depth else Depth(s[1..], Deeper(depth, s[0]))
  }

  /** Every comma of `s` is inside parentheses, when `s` is read from the given depth. */
  predicate HidesCommas(s: string, depth: int) {
    s == "" || ((s[0] == ',' ==> depth != 0) && HidesCommas(s[1..], Deeper(depth, s[0])))
  }

  /** A list of C parameters as text: no parameter has a comma of its own, and each one that another
      follows closes the parentheses it opens. */
  ghost predicate ParameterList(items: seq<string>) {
    && items != []
    && (forall i :: 0 <= i < |items| ==> HidesCommas(items[i], 0))
    && (forall i :: 0 <= i < |items| - 1 ==> Depth(items[i], 0) == 0)
  }

  /** The text between the commas at depth zero, not yet stripped. */
  function Pieces(s: string, depth: int): (pieces: seq<string>)
    ensures pieces != []
  {
    if s == "" then [""]
    else
      var d := Deeper(depth, s[0]);
      if s[0] == ',' && d == 0 then [""] + Pieces(s[1..], 0)
      else
        var rest := Pieces(s[1..], d);
        [[s[0]] + rest[0]] + rest[1..]
  }

  function StripAll(items: seq<string>): (stripped: seq<string>)
    ensures |stripped| == |items|
    ensures forall i :: 0 <= i < |items| ==> stripped[i] == Strip(items[i])
  {
    seq(|items|, i requires 0 <= i < |items| => Strip(items[i]))
  }

  /** A blank parameter counts, unless it is the last one. */
  function DropBlankEnd(items: seq<string>): seq<string>
    requires items != []
  {
    var last := |items| - 1;
    if items[last] == "" then items[..last] else items
  }

  function Parameters(params: string): seq<string> {
    var body := Strip(params);
    if body == "" || body == "void" then [] else DropBlankEnd(StripAll(Pieces(body, 0)))
  }

  /** The pieces found so far, the text since the last cut, and the pieces of the text still to be read. */
  ghost function Glue(found: seq<string>, buf: string, rest: seq<string>): seq<string>
    requires rest != []
  {
    found + [buf + rest[0]] + rest[1..]
  }

  lemma GlueCuts(found: seq<string>, buf: string, rest: seq<string>)
    requires rest != []
    ensures Glue(found, buf, [""] + rest) == Glue(found + [buf], "", rest)
  {
    assert buf + "" == buf && "" + rest[0] == rest[0];
  }

  lemma GlueGrows(found: seq<string>, buf: string, c: char, rest: seq<string>)
    requires rest != []
    ensures Glue(found, buf, [[c] + rest[0]] + rest[1..]) == Glue(found, buf + [c], rest)
  {
    assert buf + ([c] + rest[0]) == (buf + [c]) + rest[0];
  }

  lemma StripAllGrows(found: seq<string>, last: string)
    ensures StripAll(found + [last]) == StripAll(found) + [Strip(last)]
  {
  }

  lemma PiecesSteps(body: string, i: nat, depth: int)
    requires i < |body|
    ensures var after := Deeper(depth, body[i]);
            var rest := Pieces(body[i + 1..], after);
            Pieces(body[i..], depth) == (if body[i] == ',' && after == 0 then [""] + rest else [[body[i]] + rest[0]] + rest[1..])
  {
    assert body[i..][1..] == body[i + 1..];
  }

  lemma GlueStarts(body: string)
    ensures Pieces(body, 0) == Glue([], "", Pieces(body[0..], 0))
  {
    assert body[0..] == body;
    assert "" + Pieces(body, 0)[0] == Pieces(body, 0)[0];
  }

  lemma GlueEnds(found: seq<string>, buf: string, depth: int)
    ensures Glue(found, buf, Pieces("", depth)) == found + [buf]
  {
    assert buf + "" == buf;
  }

  method SplitParams(params: string) returns (parts: seq<string>)
    ensures parts == Parameters(params)
  {
    hide Pieces, Glue, Deeper, Strip, StripAll;
    var body := Strip(params);
    if body == "" || body == "void" {
      return [];
    }
    parts := [];
    var buf, depth := "", 0;
    ghost var found: seq<string> := [];
    GlueStarts(body);
    for i := 0 to |body|
      invariant parts == StripAll(found)
      invariant Pieces(body, 0) == Glue(found, buf, Pieces(body[i..], depth))
    {
      var c := body[i];
      PiecesSteps(body, i, depth);
      depth := Deeper(depth, c);
      ghost var rest := Pieces(body[i + 1..], depth);
      if c == ',' && depth == 0 {
        GlueCuts(found, buf, rest);
        StripAllGrows(found, buf);
        parts := parts + [Strip(buf)];
        found := found + [buf];
        buf := "";
      } else {
        GlueGrows(found, buf, c, rest);
        buf := buf + [c];
      }
    }
    assert body[|body|..] == "";
    GlueEnds(found, buf, depth);
    StripAllGrows(found, buf);
    if Strip(buf) != "" {
      parts := parts + [Strip(buf)];
    }
  }

  // ----- the pieces are the one parameter list that joins to the text

  lemma {:induction false} PiecesOfOne(item: string, depth: int)
    requires HidesCommas(item, depth)
    ensures Pieces(item, depth) == [item]
  {
    if item != "" {
      PiecesOfOne(item[1..], Deeper(depth, item[0]));
      assert [item[0]] + item[1..] == item;
    }
  }

  lemma {:induction false} PiecesOfPrefix(item: string, rest: string, depth: int)
    requires HidesCommas(item, depth) && Depth(item, depth) == 0
    ensures Pieces(item + "," + rest, depth) == [item] + Pieces(rest, 0)
  {
    var s := item + "," + rest;
    if item == "" {
      assert s[1..] == rest;
    } else {
      assert s[1..] == item[1..] + "," + rest;
      PiecesOfPrefix(item[1..], rest, Deeper(depth, item[0]));
      var tail := Pieces(s[1..], Deeper(depth, item[0]));
      assert tail[0] == item[1..] && tail[1..] == Pieces(rest, 0);
      assert [item[0]] + item[1..] == item;
    }
  }

  /** Splitting undoes the comma join of every parameter list. */
  lemma {:induction false} PiecesOfJoin(items: seq<string>)
    requires ParameterList(items)
    ensures Pieces(Join(",", items), 0) == items
  {
    if |items| == 1 {
      PiecesOfOne(items[0], 0);
    } else {
      assert ParameterList(items[1..]);
      PiecesOfJoin(items[1..]);
      PiecesOfPrefix(items[0], Join(",", items[1..]), 0);
    }
  }

  /** Every comma that is split at leaves a closed piece before it and a parameter list after it. */
  ghost predicate ClosedFrom(pieces: seq<string>, depth: int)
    requires pieces != []
  {
    && HidesCommas(pieces[0], depth)
    && (|pieces| > 1 ==> Depth(pieces[0], depth) == 0 && ParameterList(pieces[1..]))
  }

  lemma {:induction false} PiecesClosed(s: string, depth: int)
    ensures ClosedFrom(Pieces(s, depth), depth)
  {
    if s != "" {
      var d := Deeper(depth, s[0]);
      var rest := Pieces(s[1..], d);
      PiecesClosed(s[1..], d);
      if s[0] == ',' && d == 0 {
        assert Pieces(s, depth)[1..] == rest;
      } else {
        var pieces := Pieces(s, depth);
        assert pieces[0][1..] == rest[0] && pieces[1..] == rest[1..];
      }
    }
  }

  lemma {:induction false} PiecesJoin(s: string, depth: int)
    ensures Join(",", Pieces(s, depth)) == s
  {
    if s != "" {
      var d := Deeper(depth, s[0]);
      var rest := Pieces(s[1..], d);
      PiecesJoin(s[1..], d);
      var pieces := Pieces(s, depth);
      if s[0] == ',' && d == 0 {
        assert pieces[1..] == rest;
        assert "" + "," + s[1..] == s;
      } else {
        assert pieces[1..] == rest[1..];
        assert [s[0]] + s[1..] == s;
        assert |rest| > 1 ==> [s[0]] + rest[0] + "," + Join(",", rest[1..]) == [s[0]] + (rest[0] + "," + Join(",", rest[1..]));
      }
    }
  }

  /** Splitting loses nothing: the pieces of any text are a parameter list that joins back to the text. */
  lemma JoinOfPieces(s: string)
    ensures Join(",", Pieces(s, 0)) == s && ParameterList(Pieces(s, 0))
  {
    PiecesJoin(s, 0);
    PiecesClosed(s, 0);
  }

  // ----- stripping the pieces

  lemma {:induction false} PaddingIsNeutral(s: string, depth: int)
    ensures Depth(StripLeft(s), depth) == Depth(s, depth)
    ensures HidesCommas(StripLeft(s), depth) == HidesCommas(s, depth)
  {
    if s != "" && IsSpace(s[0]) {
      PaddingIsNeutral(s[1..], depth);
    }
  }

  lemma {:induction false} TrailingPaddingHidesCommas(s: string, depth: int)
    requires HidesCommas(s, depth)
    ensures HidesCommas(StripRight(s), depth)
    decreases |s|
  {
    if s != "" && IsSpace(s[|s| - 1]) {
      assert s == s[..|s| - 1] + [s[|s| - 1]];
      HidesCommasPrefix(s[..|s| - 1], s[|s| - 1], depth);
      TrailingPaddingHidesCommas(s[..|s| - 1], depth);
    }
  }

  lemma {:induction false} HidesCommasPrefix(s: string, c: char, depth: int)
    requires HidesCommas(s + [c], depth)
    ensures HidesCommas(s, depth)
  {
    if s != "" {
      assert (s + [c])[1..] == s[1..] + [c];
      HidesCommasPrefix(s[1..], c, Deeper(depth, s[0]));
    }
  }

  /** Stripping the joined text strips the left end of the first parameter and the right end of the last. */
  function StripEnds(items: seq<string>): (stripped: seq<string>)
    requires items != []
  {
    var left := items[0 := StripLeft(items[0])];
    left[|items| - 1 := StripRight(left[|items| - 1])]
  }

  lemma {:induction false} StripRightJoin(items: seq<string>)
    requires items != []
    ensures StripRight(Join(",", items)) == Join(",", items[|items| - 1 := StripRight(items[|items| - 1])])
  {
    var last := |items| - 1;
    var stripped := items[last := StripRight(items[last])];
    if last > 0 {
      StripRightJoin(items[1..]);
      assert stripped[1..] == items[1..][last - 1 := StripRight(items[last])];
      StripRightAppend(items[0], ',', Join(",", items[1..]));
    }
  }

  lemma StripJoin(items: seq<string>)
    requires items != []
    ensures Strip(Join(",", items)) == Join(",", StripEnds(items))
  {
    var left := items[0 := StripLeft(items[0])];
    if |items| > 1 {
      StripLeftAppend(items[0], ',', Join(",", items[1..]));
      assert left[1..] == items[1..];
    }
    StripRightJoin(left);
  }

  lemma StripEndsIsList(items: seq<string>)
    requires ParameterList(items)
    ensures ParameterList(StripEnds(items))
    ensures StripAll(StripEnds(items)) == StripAll(items)
  {
    hide StripLeft, StripRight, HidesCommas, Depth;
    var left := items[0 := StripLeft(items[0])];
    PaddingIsNeutral(items[0], 0);
    assert ParameterList(left);
    var last := |items| - 1;
    TrailingPaddingHidesCommas(left[last], 0);
    StripLeftIdempotent(items[0]);
    StripsCommute(left[last]);
    StripRightIdempotent(StripLeft(left[last]));
    assert Strip(left[0]) == Strip(items[0]);
    assert Strip(StripRight(left[last])) == Strip(left[last]);
  }

  /** A list that joins to a word without commas or parentheses is that word alone. */
  lemma JoinIsWord(items: seq<string>, word: string)
    requires ParameterList(items) && HidesCommas(word, 0)
    ensures Join(",", items) == word <==> items == [word]
  {
    PiecesOfJoin(items);
    PiecesOfOne(word, 0);
  }

  lemma SplitOfBody(params: string, items: seq<string>)
    requires ParameterList(items) && Strip(params) == Join(",", items)
    ensures Parameters(params) == if items == [""] || items == ["void"] then [] else DropBlankEnd(StripAll(items))
  {
    JoinIsWord(items, "");
    JoinIsWord(items, "void");
    PiecesOfJoin(items);
  }

  /** The result on a comma join, whatever white space surrounds the parameters. */
  lemma SplitOfJoin(items: seq<string>)
    requires ParameterList(items)
    ensures Parameters(Join(",", items)) == if StripAll(items) == ["void"] then [] else DropBlankEnd(StripAll(items))
  {
    var ends := StripEnds(items);
    StripJoin(items);
    StripEndsIsList(items);
    SplitOfBody(Join(",", items), ends);
    if |items| == 1 {
      assert ends == [Strip(items[0])];
      assert StripAll(items) == [Strip(items[0])];
    } else {
      assert |ends| == |StripAll(items)| != 1;
    }
  }

  /** When the comma join is undone: exactly for the lists that do not end in a blank parameter and are not
      the lone `void`. */
  lemma SplitInvertsJoin(items: seq<string>)
    requires ParameterList(items)
    ensures Parameters(Join(",", items)) == StripAll(items)
       <==> Strip(items[|items| - 1]) != "" && !(|items| == 1 && Strip(items[0]) == "void")
  {
    hide Parameters, Join;
    SplitOfJoin(items);
    var stripped := StripAll(items);
    if |items| == 1 {
      assert stripped == [Strip(items[0])];
    }
  }

  // ----- what a parameter list is, by counting parentheses

  function Count(s: string, c: char): nat {
    if s == "" then 0 else Count(s[..|s| - 1], c) + if s[|s| - 1] == c then 1 else 0
  }

  /** Every comma has more parentheses opened than closed before it, or fewer. */
  predicate CommasInside(s: string) {
    forall i :: 0 <= i < |s| && s[i] == ',' ==> Count(s[..i], '(') != Count(s[..i], ')')
  }

  /** As many parentheses are closed as opened. */
  predicate Balanced(s: string) {
    Count(s, '(') == Count(s, ')')
  }

  /** Parameters whose commas are all inside parentheses, and each of which, but for the last, is balanced. */
  ghost predicate IsList(items: seq<string>) {
    && items != []
    && (forall i :: 0 <= i < |items| ==> CommasInside(items[i]))
    && (forall i :: 0 <= i < |items| - 1 ==> Balanced(items[i]))
  }

  lemma {:induction false} DepthAppend(s: string, c: char, depth: int)
    ensures Depth(s + [c], depth) == Deeper(Depth(s, depth), c)
  {
    if s == "" {
      assert (s + [c])[1..] == "";
    } else {
      assert (s + [c])[1..] == s[1..] + [c];
      DepthAppend(s[1..], c, Deeper(depth, s[0]));
    }
  }

  lemma {:induction false} DepthCounts(s: string)
    ensures Depth(s, 0) == Count(s, '(') as int - Count(s, ')') as int
  {
    if s != "" {
      var last := |s| - 1;
      DepthCounts(s[..last]);
      DepthAppend(s[..last], s[last], 0);
      assert s == s[..last] + [s[last]];
    }
  }

  lemma {:induction false} HidesAppend(s: string, c: char, depth: int)
    ensures HidesCommas(s + [c], depth) <==> HidesCommas(s, depth) && (c == ',' ==> Depth(s, depth) != 0)
  {
    if s == "" {
      assert (s + [c])[1..] == "";
    } else {
      assert (s + [c])[1..] == s[1..] + [c];
      HidesAppend(s[1..], c, Deeper(depth, s[0]));
    }
  }

  lemma {:induction false} CommasInsideMeans(s: string)
    ensures HidesCommas(s, 0) <==> CommasInside(s)
  {
    if s != "" {
      var last := |s| - 1;
      var before := s[..last];
      CommasInsideMeans(before);
      HidesAppend(before, s[last], 0);
      DepthCounts(before);
      assert s == before + [s[last]];
      hide HidesCommas, Depth, Count;
      assert forall i :: 0 <= i < last ==> before[i] == s[i] && before[..i] == s[..i];
      assert CommasInside(s) <==> CommasInside(before) && (s[last] == ',' ==> Count(before, '(') != Count(before, ')'));
    }
  }

  lemma ListMeans(items: seq<string>)
    ensures ParameterList(items) <==> IsList(items)
  {
    hide HidesCommas, Depth, Count, CommasInside;
    forall i | 0 <= i < |items|
      ensures HidesCommas(items[i], 0) <==> CommasInside(items[i])
      ensures Depth(items[i], 0) == 0 <==> Balanced(items[i])
    {
      CommasInsideMeans(items[i]);
      DepthCounts(items[i]);
    }
  }

  /** The comma join of a list of parameters gives back the parameters, stripped, exactly when the last one is not blank
      and they are not the one word void. */
  lemma ListsComeBack(items: seq<string>)
    requires IsList(items)
    ensures Parameters(Join(",", items)) == StripAll(items)
       <==> Strip(items[|items| - 1]) != "" && !(|items| == 1 && Strip(items[0]) == "void")
    ensures Parameters(Join(",", items)) == if StripAll(items) == ["void"] then [] else DropBlankEnd(StripAll(items))
  {
    hide Parameters, Join, Strip, StripAll, DropBlankEnd;
    ListMeans(items);
    SplitInvertsJoin(items);
    SplitOfJoin(items);
  }
}
