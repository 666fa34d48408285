/** What the checks on native archives accept, in terms of the lines of the manifests. */
module GoArchiveLaws {
  import opened Results
  import opened Archives
  import opened GoArchive

  predicate MarkAt(line: string, mark: string, i: nat)
    requires i <= |line|
  {
    mark <= line[i..]
  }

  /** The mark stands at none of the first `k` places. */
  ghost predicate NoMark(line: string, mark: string, k: nat) {
    forall i :: 0 <= i < k && i <= |line| ==> !MarkAt(line, mark, i)
  }

  lemma ShiftMark(line: string, mark: string, k: nat)
    requires line != "" && mark != ""
    ensures NoMark(line, mark, k + 1) <==> !(mark <= line) && NoMark(line[1..], mark, k)
  {
    var rest := line[1..];
    forall i: nat | i <= |rest|
      ensures MarkAt(rest, mark, i) == MarkAt(line, mark, i + 1)
    {
      assert rest[i..] == line[i + 1..];
    }
    assert line[0..] == line;
    assert MarkAt(line, mark, 0) <==> mark <= line;
    if NoMark(line[1..], mark, k) && !MarkAt(line, mark, 0) {
      forall i: nat | i < k + 1 && i <= |line|
        ensures !MarkAt(line, mark, i)
      {
        assert i > 0 ==> !MarkAt(rest, mark, i - 1);
      }
    }
  }

  /** A line is parted at the first mark, and only if there is one. */
  lemma {:induction false} PartitionIsFirst(line: string, mark: string)
    requires mark != ""
    ensures Partition(line, mark).None? <==> NoMark(line, mark, |line|)
    ensures Partition(line, mark).Some? ==>
              var (before, after) := Partition(line, mark).value;
              line == before + mark + after && NoMark(line, mark, |before|)
    decreases |line|
  {
    hide Partition, NoMark, MarkAt;
    if mark <= line {
      PartitionHere(line, mark);
    } else if line == "" {
      PartitionNowhere(mark);
    } else {
      PartitionSteps(line, mark);
      PartitionIsFirst(line[1..], mark);
      ShiftMark(line, mark, |line| - 1);
      var rest := Partition(line[1..], mark);
      if rest.Some? {
        ShiftMark(line, mark, |rest.value.0|);
        assert line == [line[0]] + line[1..];
        assert line == [line[0]] + rest.value.0 + mark + rest.value.1;
      }
    }
  }

  lemma PartitionHere(line: string, mark: string)
    requires mark != "" && mark <= line
    ensures Partition(line, mark) == Some(("", line[|mark|..])) && line == "" + mark + line[|mark|..]
    ensures !NoMark(line, mark, |line|) && NoMark(line, mark, 0)
  {
    assert line[0..] == line && MarkAt(line, mark, 0);
  }

  lemma PartitionNowhere(mark: string)
    requires mark != ""
    ensures Partition("", mark).None? && NoMark("", mark, 0)
  {
  }

  lemma PartitionSteps(line: string, mark: string)
    requires mark != "" && line != "" && !(mark <= line)
    ensures var rest := Partition(line[1..], mark);
            Partition(line, mark) == if rest.None? then None else Some(([line[0]] + rest.value.0, rest.value.1))
  {
  }

  /** A key without the mark is found again. */
  lemma {:induction false} PartitionOfJoin(before: string, c: char, after: string)
    requires c !in before
    ensures Partition(before + [c] + after, [c]) == Some((before, after))
  {
    var line := before + [c] + after;
    if before != "" {
      PartitionOfJoin(before[1..], c, after);
      assert line[1..] == before[1..] + [c] + after;
      assert line[0] == before[0] && before[0] in before;
      PartitionSteps(line, [c]);
      assert before == [before[0]] + before[1..];
    } else {
      assert line[..1] == [c] && line[1..] == after;
    }
  }

  /** Lines can be read exactly when each has the mark and no two have the same key. */
  lemma {:induction false} MappingReads(lines: seq<string>, mark: string, keyFirst: bool)
    requires mark != ""
    ensures Mapping(lines, mark, keyFirst).Some?
       <==> (forall i :: 0 <= i < |lines| ==> Entry(lines[i], mark, keyFirst).Some?) && DistinctKeys(lines, mark, keyFirst)
  {
    hide Entry;
    if lines != [] {
      var last := |lines| - 1;
      var before := lines[..last];
      MappingReads(before, mark, keyFirst);
      assert forall i :: 0 <= i < last ==> before[i] == lines[i];
      if Mapping(before, mark, keyFirst).Some? && Entry(lines[last], mark, keyFirst).Some? {
        MappingSays(before, mark, keyFirst, Entry(lines[last], mark, keyFirst).value.0, "");
      }
    }
  }

  predicate DistinctKeys(lines: seq<string>, mark: string, keyFirst: bool)
    requires mark != ""
  {
    forall i, j :: 0 <= i < j < |lines| && Entry(lines[i], mark, keyFirst).Some? && Entry(lines[j], mark, keyFirst).Some? ==>
      Entry(lines[i], mark, keyFirst).value.0 != Entry(lines[j], mark, keyFirst).value.0
  }

  lemma KeyLine(lines: seq<string>, key: string, value: string)
    requires '=' !in key && Mapping(lines, "=", true).Some?
    ensures (key in Mapping(lines, "=", true).value && Mapping(lines, "=", true).value[key] == value)
       <==> key + "=" + value in lines
  {
    MappingSays(lines, "=", true, key, value);
    PartitionOfJoin(key, '=', value);
    assert key + ['='] + value == key + "=" + value;
    forall i | 0 <= i < |lines|
      ensures Entry(lines[i], "=", true) == Some((key, value)) <==> lines[i] == key + "=" + value
    {
      PartitionIsFirst(lines[i], "=");
    }
  }

  // ----- the VERSION entry

  /** Member `i` is the only one of the name. */
  ghost predicate OnlyMember(members: seq<Member>, name: string, i: nat) {
    && i < |members| && members[i].name == name
    && forall j :: 0 <= j < |members| && members[j].name == name ==> j == i
  }

  lemma {:induction false} NamedNone(members: seq<Member>, name: string)
    ensures Named(members, name) == [] <==> forall j :: 0 <= j < |members| ==> members[j].name != name
  {
    if members != [] {
      NamedNone(members[1..], name);
      assert forall j :: 0 < j < |members| ==> members[j] == members[1..][j - 1];
    }
  }

  lemma {:induction false} NamedOne(members: seq<Member>, name: string, i: nat)
    requires OnlyMember(members, name, i)
    ensures Named(members, name) == [members[i]]
  {
    var rest := members[1..];
    assert forall j :: 0 < j < |members| ==> members[j] == rest[j - 1];
    if i == 0 {
      NamedNone(rest, name);
    } else {
      assert members[0].name != name;
      NamedOne(rest, name, i - 1);
    }
  }

  lemma {:induction false} NamedIsOnly(members: seq<Member>, name: string) returns (i: nat)
    requires |Named(members, name)| == 1
    ensures OnlyMember(members, name, i)
  {
    var rest := members[1..];
    assert forall j :: 0 < j < |members| ==> members[j] == rest[j - 1];
    if members[0].name == name {
      NamedNone(rest, name);
      i := 0;
    } else {
      var k := NamedIsOnly(rest, name);
      i := k + 1;
    }
  }

  /** The line gives the key a value. */
  predicate HasKey(line: string, key: string) {
    '=' !in key && key + "=" <= line
  }

  /** Every line gives some key a value, and no key gets two. */
  ghost predicate Keyed(lines: seq<string>) {
    && (forall j :: 0 <= j < |lines| ==> '=' in lines[j])
    && (forall j, k, key :: 0 <= j < k < |lines| && HasKey(lines[j], key) ==> !HasKey(lines[k], key))
  }

  /** Text without a character ends no later than the first place of the character. */
  lemma NoLonger(line: string, a: string, c: char, b: string)
    requires a + [c] <= line && b <= line && c !in b
    ensures |b| <= |a|
  {
    assert line[|a|] == (a + [c])[|a|] == c;
    assert forall i :: 0 <= i < |b| ==> b[i] == line[i] && b[i] != c;
  }

  lemma NoMarkIn(line: string, before: string, c: char)
    requires before <= line && NoMark(line, [c], |before|)
    ensures c !in before
  {
    forall i | 0 <= i < |before|
      ensures before[i] != c
    {
      assert !MarkAt(line, [c], i);
      CharIsMark(line, c, i);
      assert before[i] == line[i];
    }
  }

  lemma CharIsMark(line: string, c: char, i: nat)
    requires i < |line|
    ensures MarkAt(line, [c], i) <==> line[i] == c
  {
    assert line[i..][0] == line[i];
  }

  lemma KeyOfLine(line: string, key: string)
    ensures Partition(line, "=").Some? <==> '=' in line
    ensures Partition(line, "=").Some? ==> (HasKey(line, key) <==> key == Partition(line, "=").value.0)
  {
    PartitionIsFirst(line, "=");
    hide Partition;
    if Partition(line, "=").None? {
      NoMarkIn(line, line, '=');
    } else {
      var (before, after) := Partition(line, "=").value;
      NoMarkIn(line, before, '=');
      hide NoMark;
      assert before + ['='] <= line && line[|before|] == '=';
      if HasKey(line, key) {
        assert key + ['='] <= line;
        NoLonger(line, before, '=', key);
        NoLonger(line, key, '=', before);
        assert line[..|key|] == key && line[..|before|] == before;
      }
    }
  }

  lemma KeyedReads(lines: seq<string>)
    ensures Mapping(lines, "=", true).Some? <==> Keyed(lines)
  {
    MappingReads(lines, "=", true);
    hide Mapping, Partition, HasKey;
    forall j | 0 <= j < |lines|
      ensures Entry(lines[j], "=", true).Some? <==> '=' in lines[j]
    {
      KeyOfLine(lines[j], "");
    }
    if Mapping(lines, "=", true).Some? {
      forall j, k, key | 0 <= j < k < |lines| && HasKey(lines[j], key)
        ensures !HasKey(lines[k], key)
      {
        KeyOfLine(lines[j], key);
        KeyOfLine(lines[k], key);
        assert Entry(lines[j], "=", true).value.0 != Entry(lines[k], "=", true).value.0;
      }
    } else if Keyed(lines) {
      var j, k :| 0 <= j < k < |lines| && Entry(lines[j], "=", true).Some? && Entry(lines[k], "=", true).Some? &&
                  Entry(lines[j], "=", true).value.0 == Entry(lines[k], "=", true).value.0;
      KeyOfLine(lines[j], Entry(lines[j], "=", true).value.0);
      KeyOfLine(lines[k], Entry(lines[j], "=", true).value.0);
      assert false;
    }
  }

  /** The manifest can be read and has the three lines. */
  ghost predicate SaysIdentity(lines: seq<string>, version: string, revision: string, platform: string) {
    Keyed(lines) && "version=" + version in lines && "revision=" + revision in lines && "platform=" + platform in lines
  }

  lemma ManifestMeans(lines: seq<string>, version: string, revision: string, p: Platform)
    ensures SaysIdentity(lines, version, revision, PlatformText(p))
       <==> Mapping(lines, "=", true).Some? && ManifestSays(Mapping(lines, "=", true).value, version, revision, p)
  {
    hide Mapping, Keyed, PlatformText;
    KeyedReads(lines);
    if Mapping(lines, "=", true).Some? {
      KeyLine(lines, "version", version);
      KeyLine(lines, "revision", revision);
      KeyLine(lines, "platform", PlatformText(p));
      assert "version" + "=" + version == "version=" + version;
      assert "revision" + "=" + revision == "revision=" + revision;
      assert "platform" + "=" + PlatformText(p) == "platform=" + PlatformText(p);
    }
  }

  /** An archive has the identity exactly when it has one entry VERSION, a regular file that can be read and has the
      three lines. */
  lemma IdentityLines(tools: Tools, version: string, revision: string, p: Platform, bytes: string)
    ensures HasIdentity(tools, version, revision, p, bytes)
       <==> tools.unpack(bytes).Some? &&
            var members := tools.unpack(bytes).value;
            exists i: nat :: OnlyMember(members, Root(version, p) + "/VERSION", i) && members[i].kind == File &&
                             SaysIdentity(tools.lines(members[i].content), version, revision, PlatformText(p))
  {
    hide Mapping, Named, PlatformText, Root, SaysIdentity, ManifestSays;
    if tools.unpack(bytes).Some? {
      var members, name := tools.unpack(bytes).value, Root(version, p) + "/VERSION";
      if i: nat :| OnlyMember(members, name, i) {
        NamedOne(members, name, i);
        ManifestMeans(tools.lines(members[i].content), version, revision, p);
      } else if |Named(members, name)| == 1 {
        var i := NamedIsOnly(members, name);
      }
    }
  }
}
