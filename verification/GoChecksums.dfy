/** What a checksum file may say (scripts/publish_go_release.py:68-71). */
module GoChecksums {
  import opened Text

  /** Text without white space. */
  predicate IsToken(s: string) {
    s != "" && forall i :: 0 <= i < |s| ==> !IsSpace(s[i])
  }

  /** The length of the first word of a text. */
  function WordLength(s: string): (n: nat)
    ensures n <= |s|
  {
    if s == "" || IsSpace(s[0]) then 0 else 1 + WordLength(s[1..])
  }

  /** Python's str.split without a separator. */
  function Fields(s: string): seq<string>
    decreases |s|
  {
    if s == "" then []
    else if IsSpace(s[0]) then Fields(s[1..])
    else
      var n := WordLength(s);
      [s[..n]] + Fields(s[n..])
  }

  /** What a checksum file must say, white space aside. */
  predicate ChecksumSays(text: string, digest: string, name: string) {
    Fields(text) == [digest, name]
  }

  /** The checksum file that the script writes. */
  function ChecksumLine(digest: string, name: string): string {
    digest + "  " + name + "\n"
  }

  /** The text is over, or goes on with white space. */
  predicate Ends(s: string) {
    s == "" || IsSpace(s[0])
  }

  lemma {:induction false} WordIs(s: string)
    ensures var n := WordLength(s); (forall i :: 0 <= i < n ==> !IsSpace(s[i])) && Ends(s[n..])
  {
    if s != "" && !IsSpace(s[0]) {
      WordIs(s[1..]);
      var n := WordLength(s[1..]);
      assert s[1..][n..] == s[n + 1..];
      assert forall i :: 0 < i <= n ==> s[i] == s[1..][i - 1];
    }
  }

  lemma {:induction false} WordEnds(word: string, rest: string)
    requires (forall i :: 0 <= i < |word| ==> !IsSpace(word[i])) && Ends(rest)
    ensures WordLength(word + rest) == |word|
  {
    if word == "" {
      assert word + rest == rest;
    } else {
      assert (word + rest)[1..] == word[1..] + rest;
      WordEnds(word[1..], rest);
    }
  }

  lemma {:induction false} FieldsAfterBlank(blank: string, s: string)
    requires Blank(blank)
    ensures Fields(blank + s) == Fields(s)
  {
    if blank == "" {
      assert blank + s == s;
    } else {
      assert (blank + s)[1..] == blank[1..] + s;
      FieldsAfterBlank(blank[1..], s);
    }
  }

  lemma FieldsAfterWord(word: string, rest: string)
    requires IsToken(word) && Ends(rest)
    ensures Fields(word + rest) == [word] + Fields(rest)
  {
    WordEnds(word, rest);
    hide WordLength;
    assert (word + rest)[0] == word[0];
    assert (word + rest)[..|word|] == word && (word + rest)[|word|..] == rest;
  }

  lemma {:induction false} NoFieldsInBlank(s: string)
    ensures Fields(s) == [] <==> Blank(s)
    decreases |s|
  {
    if s != "" && IsSpace(s[0]) {
      NoFieldsInBlank(s[1..]);
      assert forall i :: 0 < i < |s| ==> s[i] == s[1..][i - 1];
    }
  }

  lemma FieldsOfText(s: string)
    ensures s != "" && IsSpace(s[0]) ==> Fields(s) == Fields(s[1..])
    ensures s != "" && !IsSpace(s[0]) ==>
              var n := WordLength(s);
              IsToken(s[..n]) && Ends(s[n..]) && Fields(s) == [s[..n]] + Fields(s[n..]) && s == "" + s[..n] + s[n..]
  {
    WordIs(s);
  }

  /** The first word of a text, with the white space before it and what comes after it. */
  lemma {:induction false} FirstField(s: string) returns (blank: string, word: string, rest: string)
    requires Fields(s) != []
    ensures s == blank + word + rest && Blank(blank) && IsToken(word) && Ends(rest)
    ensures Fields(s) == [word] + Fields(rest)
    decreases |s|
  {
    FieldsOfText(s);
    NoFieldsInBlank("");
    hide Fields, WordLength, IsToken, Ends, IsSpace;
    if IsSpace(s[0]) {
      blank, word, rest := FirstField(s[1..]);
      assert s == [s[0]] + (blank + word + rest) == ([s[0]] + blank) + word + rest;
      blank := [s[0]] + blank;
    } else {
      var n := WordLength(s);
      blank, word, rest := "", s[..n], s[n..];
    }
  }

  /** The digest and the name, with white space between them and perhaps around them. */
  predicate Spaced(text: string, before: string, digest: string, between: string, name: string, after: string) {
    Blank(before) && Blank(between) && between != "" && Blank(after) && text == before + digest + (between + name + after)
  }

  ghost predicate IsChecksumText(text: string, digest: string, name: string) {
    IsToken(digest) && IsToken(name) && exists before, between, after :: Spaced(text, before, digest, between, name, after)
  }

  /** Exactly such texts are accepted, so that none is accepted for two digests or for two names. */
  lemma ChecksumMeans(text: string, digest: string, name: string)
    ensures ChecksumSays(text, digest, name) <==> IsChecksumText(text, digest, name)
  {
    hide Fields, IsToken, Blank, Ends;
    if IsToken(digest) && IsToken(name) {
      if before, between, after :| Spaced(text, before, digest, between, name, after) {
        SpacedSays(text, before, digest, between, name, after);
      }
    }
    if Fields(text) == [digest, name] {
      var before, d, rest := FirstField(text);
      assert [d] + Fields(rest) == [digest, name] && d == ([d] + Fields(rest))[0];
      assert Fields(rest) == ([d] + Fields(rest))[1..] == [name];
      var between, n, after := FirstField(rest);
      assert Fields(after) == ([n] + Fields(after))[1..] == [];
      assert n == ([n] + Fields(after))[0];
      NoFieldsInBlank(after);
      Between(rest, between, n, after);
      assert Spaced(text, before, digest, between, name, after);
    }
  }

  lemma Between(rest: string, between: string, name: string, after: string)
    requires rest == between + name + after && Ends(rest) && IsToken(name)
    ensures between != ""
  {
    assert between == "" ==> rest == name + after;
    assert (name + after)[0] == name[0];
  }

  lemma SpacedSays(text: string, before: string, digest: string, between: string, name: string, after: string)
    requires IsToken(digest) && IsToken(name) && Spaced(text, before, digest, between, name, after)
    ensures Fields(text) == [digest, name]
  {
    assert text == before + (digest + (between + (name + after)));
    FieldsAfterBlank(before, digest + (between + (name + after)));
    assert Ends(between + (name + after)) && Ends(after);
    hide Fields, IsToken, Blank, Ends;
    FieldsAfterWord(digest, between + (name + after));
    FieldsAfterBlank(between, name + after);
    FieldsAfterWord(name, after);
    NoFieldsInBlank(after);
  }

  /** A checksum file that the script writes says what it must. */
  lemma WrittenChecksumSays(digest: string, name: string)
    requires IsToken(digest) && IsToken(name)
    ensures ChecksumSays(ChecksumLine(digest, name), digest, name)
  {
    assert ChecksumLine(digest, name) == "" + digest + ("  " + name + "\n");
    assert Spaced(ChecksumLine(digest, name), "", digest, "  ", name, "\n");
    SpacedSays(ChecksumLine(digest, name), "", digest, "  ", name, "\n");
  }
}
