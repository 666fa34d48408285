/** The Python string operations that the scripts rely on: joining, splitting and stripping. */
module Text {
  /** The characters that `str.strip` and `str.split` treat as white space. */
  predicate IsSpace(c: char) {
    var n := c as int;
    9 <= n <= 13 || 28 <= n <= 32 || n == 0x85 || n == 0xA0 || n == 0x1680 || 0x2000 <= n <= 0x200A ||
    n == 0x2028 || n == 0x2029 || n == 0x202F || n == 0x205F || n == 0x3000
  }

  /** The ASCII digits. */
  predicate IsDigit(c: char) {
    '0' <= c <= '9'
  }

  function Join(separator: string, items: seq<string>): string {
    if |items| == 0 then ""
    else if |items| == 1 then items[0]
    else items[0] + separator + Join(separator, items[1..])
  }

  function StripLeft(s: string): string {
    if |s| > 0 && IsSpace(s[0]) then StripLeft(s[1..]) else s
  }

  function StripRight(s: string): string {
    if |s| > 0 && IsSpace(s[|s| - 1]) then StripRight(s[..|s| - 1]) else s
  }

  function Strip(s: string): string {
    StripRight(StripLeft(s))
  }

  /** The name without the slashes at its end. */
  function StripSlashes(name: string): string {
    if name != "" && name[|name| - 1] == '/' then StripSlashes(name[..|name| - 1]) else name
  }

  /** The hexadecimal text of a SHA-256 digest. */
  predicate IsDigest(text: string) {
    |text| == 64 && forall i :: 0 <= i < 64 ==> '0' <= text[i] <= '9' || 'a' <= text[i] <= 'f'
  }

  lemma JoinCons(separator: string, first: string, rest: seq<string>)
    ensures Join(separator, [first] + rest) == if rest == [] then first else first + separator + Join(separator, rest)
  {
  }

  /** Stripping the left end looks no further than the first character that is not white space. */
  lemma {:induction false} StripLeftAppend(a: string, c: char, b: string)
    requires !IsSpace(c)
    ensures StripLeft(a + [c] + b) == StripLeft(a) + [c] + b
  {
    if |a| == 0 {
    } else {
      assert (a + [c] + b)[1..] == a[1..] + [c] + b;
      StripLeftAppend(a[1..], c, b);
    }
  }

  lemma {:induction false} StripRightAppend(a: string, c: char, b: string)
    requires !IsSpace(c)
    ensures StripRight(a + [c] + b) == a + [c] + StripRight(b)
  {
    var s := a + [c] + b;
    if |b| == 0 {
      assert s[|s| - 1] == c;
    } else {
      assert s[..|s| - 1] == a + [c] + b[..|b| - 1];
      StripRightAppend(a, c, b[..|b| - 1]);
    }
  }

  lemma {:induction false} StripLeftIdempotent(s: string)
    ensures StripLeft(StripLeft(s)) == StripLeft(s)
  {
    if |s| > 0 && IsSpace(s[0]) {
      StripLeftIdempotent(s[1..]);
    }
  }

  lemma {:induction false} StripRightIdempotent(s: string)
    ensures StripRight(StripRight(s)) == StripRight(s)
  {
    if |s| > 0 && IsSpace(s[|s| - 1]) {
      StripRightIdempotent(s[..|s| - 1]);
    }
  }

  lemma {:induction false} StripLeftDropLast(s: string)
    requires |s| > 0 && IsSpace(s[|s| - 1])
    ensures StripRight(StripLeft(s[..|s| - 1])) == StripRight(StripLeft(s))
  {
    var t := s[..|s| - 1];
    if |s| > 1 && IsSpace(s[0]) {
      assert t[1..] == s[1..][..|s| - 2];
      StripLeftDropLast(s[1..]);
    } else if |s| > 1 {
      assert StripLeft(s) == s && StripLeft(t) == t;
    }
  }

  /** The two ends can be stripped in either order. */
  lemma {:induction false} StripsCommute(s: string)
    ensures StripLeft(StripRight(s)) == StripRight(StripLeft(s))
  {
    if |s| > 0 {
      var t, last := s[..|s| - 1], s[|s| - 1];
      if IsSpace(last) {
        StripsCommute(t);
        StripLeftDropLast(s);
      } else {
        StripLeftAppend(t, last, "");
        assert s == t + [last] + "";
      }
    }
  }

  // ----- splitting at a separator

  /** Python's str.split with a separator of one character. */
  function Split(s: string, separator: char): (pieces: seq<string>)
    ensures pieces != []
  {
    if s == "" then [""]
    else
      var rest := Split(s[1..], separator);
      if s[0] == separator then [""] + rest else [[s[0]] + rest[0]] + rest[1..]
  }

  predicate NoneContains(pieces: seq<string>, separator: char) {
    forall i :: 0 <= i < |pieces| ==> separator !in pieces[i]
  }

  lemma {:induction false} SplitOne(piece: string, separator: char)
    requires separator !in piece
    ensures Split(piece, separator) == [piece]
  {
    if piece != "" {
      SplitOne(piece[1..], separator);
      assert [piece[0]] + piece[1..] == piece;
    }
  }

  lemma {:induction false} SplitFirst(piece: string, rest: string, separator: char)
    requires separator !in piece
    ensures Split(piece + [separator] + rest, separator) == [piece] + Split(rest, separator)
  {
    var s := piece + [separator] + rest;
    if piece == "" {
      assert s[1..] == rest;
    } else {
      assert s[1..] == piece[1..] + [separator] + rest;
      SplitFirst(piece[1..], rest, separator);
      var tail := Split(s[1..], separator);
      assert tail[0] == piece[1..] && tail[1..] == Split(rest, separator);
      assert [piece[0]] + piece[1..] == piece;
    }
  }

  /** Splitting undoes joining when no piece has the separator. */
  lemma {:induction false} SplitJoin(pieces: seq<string>, separator: char)
    requires pieces != [] && NoneContains(pieces, separator)
    ensures Split(Join([separator], pieces), separator) == pieces
  {
    if |pieces| == 1 {
      SplitOne(pieces[0], separator);
    } else {
      SplitJoin(pieces[1..], separator);
      SplitFirst(pieces[0], Join([separator], pieces[1..]), separator);
    }
  }

  /** Joining undoes splitting, and no piece has the separator. */
  lemma {:induction false} JoinSplit(s: string, separator: char)
    ensures Join([separator], Split(s, separator)) == s
    ensures NoneContains(Split(s, separator), separator)
  {
    if s != "" {
      var rest := Split(s[1..], separator);
      JoinSplit(s[1..], separator);
      if s[0] == separator {
        JoinCons([separator], "", rest);
        assert "" + [separator] + s[1..] == s;
      } else {
        JoinGrows([separator], s[0], rest);
        assert [s[0]] + s[1..] == s;
      }
    }
  }

  lemma JoinGrows(separator: string, c: char, pieces: seq<string>)
    requires pieces != []
    ensures Join(separator, [[c] + pieces[0]] + pieces[1..]) == [c] + Join(separator, pieces)
  {
  }

  /** Splitting at a separator that is there parts the pieces. */
  lemma {:induction false} SplitAppend(a: string, separator: char, b: string)
    ensures Split(a + [separator] + b, separator) == Split(a, separator) + Split(b, separator)
  {
    var s := a + [separator] + b;
    if a == "" {
      assert s[1..] == b;
    } else {
      assert s[1..] == a[1..] + [separator] + b;
      SplitAppend(a[1..], separator, b);
    }
  }

  /** Pieces in two parts are the pieces of two texts. */
  lemma SplitParts(s: string, separator: char, a: seq<string>, b: seq<string>)
    requires Split(s, separator) == a + b && a != [] && b != []
    ensures s == Join([separator], a) + [separator] + Join([separator], b)
    ensures Split(Join([separator], a), separator) == a && Split(Join([separator], b), separator) == b
  {
    JoinSplit(s, separator);
    assert forall i :: 0 <= i < |a| ==> a[i] == (a + b)[i];
    assert forall i :: 0 <= i < |b| ==> b[i] == (a + b)[|a| + i];
    hide Split, Join;
    SplitJoin(a, separator);
    SplitJoin(b, separator);
    SplitAppend(Join([separator], a), separator, Join([separator], b));
    JoinSplit(Join([separator], a) + [separator] + Join([separator], b), separator);
  }

  // ----- what stripping leaves

  predicate Blank(s: string) {
    forall i :: 0 <= i < |s| ==> IsSpace(s[i])
  }

  lemma {:induction false} StripLeftIs(s: string) returns (left: string)
    ensures Blank(left) && s == left + StripLeft(s)
    ensures StripLeft(s) != "" ==> !IsSpace(StripLeft(s)[0])
  {
    if s != "" && IsSpace(s[0]) {
      var rest := StripLeftIs(s[1..]);
      left := [s[0]] + rest;
      assert s == [s[0]] + s[1..];
    } else {
      left := "";
    }
  }

  lemma {:induction false} StripRightIs(s: string) returns (right: string)
    ensures Blank(right) && s == StripRight(s) + right
    ensures StripRight(s) != "" ==> !IsSpace(StripRight(s)[|StripRight(s)| - 1])
  {
    if s != "" && IsSpace(s[|s| - 1]) {
      var rest := StripRightIs(s[..|s| - 1]);
      right := rest + [s[|s| - 1]];
      assert s == s[..|s| - 1] + [s[|s| - 1]];
    } else {
      right := "";
    }
  }

  /** Stripping takes away white space at both ends and leaves none there. */
  lemma StripMeans(s: string) returns (left: string, right: string)
    ensures Blank(left) && Blank(right) && s == left + Strip(s) + right
    ensures var stripped := Strip(s); stripped != "" ==> !IsSpace(stripped[0]) && !IsSpace(stripped[|stripped| - 1])
  {
    hide StripLeft, StripRight, IsSpace;
    left := StripLeftIs(s);
    right := StripRightIs(StripLeft(s));
    assert StripLeft(s) == Strip(s) + right;
    assert left + (Strip(s) + right) == left + Strip(s) + right;
  }

  /** Nothing but slashes goes from the end of a name, and none is left there. */
  lemma {:induction false} StripSlashesMeans(name: string) returns (slashes: string)
    ensures name == StripSlashes(name) + slashes && forall i :: 0 <= i < |slashes| ==> slashes[i] == '/'
    ensures StripSlashes(name) != "" ==> StripSlashes(name)[|StripSlashes(name)| - 1] != '/'
  {
    if name != "" && name[|name| - 1] == '/' {
      var rest := StripSlashesMeans(name[..|name| - 1]);
      slashes := rest + "/";
      assert name == name[..|name| - 1] + "/";
    } else {
      slashes := "";
    }
  }
}
