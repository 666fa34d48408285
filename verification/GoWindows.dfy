/** What the check on the Windows archive accepts, entry by entry and line by line. */
module GoWindows {
  import opened Results
  import opened Text
  import opened Archives
  import opened GoArchive
  import opened GoArchiveLaws

  // ----- the entries of the Windows archive

  /** A regular file of an archive. */
  ghost predicate HasFile(members: seq<Member>, name: string, content: string) {
    exists m :: m in members && m.name == name && m.kind == File && m.content == content
  }

  /** Every file that was collected is an entry of the archive. */
  lemma {:induction false} CollectedIsEntry(root: string, members: seq<Member>, name: string)
    requires (forall m :: m in members ==> Expected(root, m)) && name in FilesUnder(root, members)
    ensures HasFile(members, root + "/" + name, FilesUnder(root, members)[name])
  {
    hide Expected;
    var last := |members| - 1;
    var m, before := members[last], members[..last];
    if m.kind == File {
      FileIsBelow(root, m);
    }
    if m.kind == File && m.name[|root| + 1..] == name {
      assert m.name == m.name[..|root| + 1] + name && m.name[..|root| + 1] == root + "/";
      assert m in members;
    } else {
      CollectedIsEntry(root, before, name);
      var e :| e in before && e.name == root + "/" + name && e.kind == File && e.content == FilesUnder(root, before)[name];
      assert e in members;
    }
  }

  lemma WindowsFileLine(tools: Tools, files: map<string, string>, lines: seq<string>, name: string)
    requires Mapping(lines, "  ", false).Some? && name in Mapping(lines, "  ", false).value
    requires DigestsMatch(tools, files, Mapping(lines, "  ", false).value)
    ensures name in files && tools.digest(files[name]) + "  " + name in lines
  {
    var recorded := Mapping(lines, "  ", false).value;
    MappingSays(lines, "  ", false, name, recorded[name]);
    var i :| 0 <= i < |lines| && Entry(lines[i], "  ", false) == Some((name, recorded[name]));
    PartitionIsFirst(lines[i], "  ");
  }

  /** A sound Windows archive holds each required file, and SHA256SUMS has a line with its digest. */
  lemma WindowsFiles(tools: Tools, root: string, bytes: string, name: string)
    requires WindowsSound(tools, root, bytes) && name in Contents()
    ensures exists content: string, sums: string ::
              && HasFile(tools.unpack(bytes).value, root + "/" + name, content)
              && HasFile(tools.unpack(bytes).value, root + "/" + SUMS, sums)
              && tools.digest(content) + "  " + name in tools.lines(sums)
  {
    hide Contents, Expected, FilesUnder, Mapping, HasFile;
    var members := tools.unpack(bytes).value;
    var files := FilesUnder(root, members);
    assert name in files.Keys && SUMS in files.Keys;
    CollectedIsEntry(root, members, name);
    CollectedIsEntry(root, members, SUMS);
    var lines := tools.lines(files[SUMS]);
    assert name in Mapping(lines, "  ", false).value.Keys;
    WindowsFileLine(tools, files, lines, name);
  }

  // ----- the Windows archive, entry by entry

  /** Member `i` is the regular file `name` below the root. */
  predicate FileAt(root: string, members: seq<Member>, i: nat, name: string) {
    i < |members| && members[i].kind == File && members[i].name == root + "/" + name
  }

  /** Directories are known ones, and every other entry is a regular file of the given names, each there once. */
  ghost predicate RightEntries(root: string, members: seq<Member>, names: set<string>) {
    && (forall i: nat :: i < |members| ==>
          (members[i].kind == Directory && StripSlashes(members[i].name) in Directories(root)) ||
          (members[i].kind == File && exists n :: n in names && FileAt(root, members, i, n)))
    && (forall n :: n in names ==> exists i: nat :: FileAt(root, members, i, n))
    && (forall i: nat, j: nat, n :: FileAt(root, members, i, n) && FileAt(root, members, j, n) ==> i == j)
  }

  /** No two regular files have the same name. */
  ghost predicate DistinctFiles(members: seq<Member>) {
    forall i, j :: 0 <= i < j < |members| && members[i].kind == File && members[j].kind == File ==> members[i].name != members[j].name
  }

  lemma FileNames(root: string, m: Member)
    requires Expected(root, m) && m.kind == File
    ensures |root| + 1 <= |m.name| && m.name == root + "/" + m.name[|root| + 1..]
  {
    assert m.name == m.name[..|root| + 1] + m.name[|root| + 1..];
  }

  lemma FileNameIs(root: string, m: Member, n: string)
    requires Expected(root, m) && m.kind == File
    ensures |root| + 1 <= |m.name|
    ensures m.name == root + "/" + n <==> m.name[|root| + 1..] == n
  {
    FileNames(root, m);
    assert (root + "/" + n)[|root| + 1..] == n;
  }

  lemma FilesUnderSteps(root: string, members: seq<Member>)
    requires members != [] && forall m :: m in members ==> Expected(root, m)
    ensures var last := members[|members| - 1];
            var before := members[..|members| - 1];
            && (last.kind == File ==> |root| + 1 <= |last.name|)
            && FilesUnder(root, members)
               == (if last.kind == File then FilesUnder(root, before)[last.name[|root| + 1..] := last.content] else FilesUnder(root, before))
            && FileCount(members) == FileCount(before) + if last.kind == File then 1 else 0
  {
    hide Expected;
    assert members[|members| - 1] in members;
    if members[|members| - 1].kind == File {
      FileIsBelow(root, members[|members| - 1]);
    }
  }

  lemma {:induction false} FilesUnderHas(root: string, members: seq<Member>, n: string)
    requires forall m :: m in members ==> Expected(root, m)
    ensures n in FilesUnder(root, members) <==> exists i: nat :: FileAt(root, members, i, n)
  {
    if members != [] {
      var last := |members| - 1;
      var before := members[..last];
      FilesUnderHas(root, before, n);
      FilesUnderSteps(root, members);
      assert members[last] in members;
      if members[last].kind == File {
        FileNameIs(root, members[last], n);
      }
      hide FilesUnder, Expected;
      if n in FilesUnder(root, before) {
        var i: nat :| FileAt(root, before, i, n);
        assert FileAt(root, members, i, n);
      } else if members[last].kind == File && members[last].name == root + "/" + n {
        assert FileAt(root, members, last, n);
      } else {
        forall i: nat
          ensures !FileAt(root, members, i, n)
        {
          assert i < last ==> (FileAt(root, members, i, n) <==> FileAt(root, before, i, n));
        }
      }
    }
  }

  /** The count of the files is that of their names exactly when no name is there twice. */
  lemma {:induction false} FilesUnderSize(root: string, members: seq<Member>)
    requires forall m :: m in members ==> Expected(root, m)
    ensures |FilesUnder(root, members)| <= FileCount(members)
    ensures |FilesUnder(root, members)| == FileCount(members) <==> DistinctFiles(members)
  {
    if members != [] {
      var last := |members| - 1;
      var m, before := members[last], members[..last];
      FilesUnderSize(root, before);
      FilesUnderSteps(root, members);
      assert m in members;
      if m.kind == File {
        var n := m.name[|root| + 1..];
        FileNames(root, m);
        FilesUnderHas(root, before, n);
        hide FilesUnder, Expected, FileCount;
        DistinctSteps(root, members, n);
        SizeOfUpdate(FilesUnder(root, before), n, m.content);
      } else {
        hide FilesUnder, Expected, FileCount;
        assert forall i :: 0 <= i < last ==> before[i] == members[i];
        assert DistinctFiles(members) <==> DistinctFiles(before);
      }
    }
  }

  lemma SizeOfUpdate(files: map<string, string>, n: string, content: string)
    ensures |files[n := content]| == |files| + if n in files then 0 else 1
  {
    assert files[n := content].Keys == files.Keys + {n};
    assert |files| == |files.Keys| && |files[n := content]| == |files[n := content].Keys|;
  }

  lemma DistinctSteps(root: string, members: seq<Member>, n: string)
    requires members != [] && FileAt(root, members, |members| - 1, n)
    ensures var before := members[..|members| - 1];
            DistinctFiles(members) <==> DistinctFiles(before) && !exists i: nat :: FileAt(root, before, i, n)
  {
    var last := |members| - 1;
    var before := members[..last];
    assert forall i :: 0 <= i < last ==> before[i] == members[i];
    if DistinctFiles(members) {
      forall i: nat
        ensures !FileAt(root, before, i, n)
      {
      }
    } else if DistinctFiles(before) {
      var i, j :| 0 <= i < j < |members| && members[i].kind == File && members[j].kind == File && members[i].name == members[j].name;
      assert FileAt(root, before, i, n);
    }
  }

  /** With no name twice, every file is collected with its content. */
  lemma {:induction false} FilesUnderGets(root: string, members: seq<Member>, i: nat, n: string)
    requires (forall m :: m in members ==> Expected(root, m)) && DistinctFiles(members) && FileAt(root, members, i, n)
    ensures n in FilesUnder(root, members) && FilesUnder(root, members)[n] == members[i].content
  {
    var last := |members| - 1;
    var before := members[..last];
    FilesUnderSteps(root, members);
    assert members[last] in members;
    if members[last].kind == File {
      FileNameIs(root, members[last], n);
    }
    hide FilesUnder, Expected;
    if i < last {
      assert FileAt(root, before, i, n);
      FilesUnderGets(root, before, i, n);
    }
  }

  /** What the loop over the entries and the two comparisons after it accept. */
  lemma EntriesAreRight(root: string, members: seq<Member>, names: set<string>)
    ensures RightEntries(root, members, names)
       <==> (forall m :: m in members ==> Expected(root, m)) &&
            |FilesUnder(root, members)| == FileCount(members) && FilesUnder(root, members).Keys == names
  {
    if RightEntries(root, members, names) {
      forall m | m in members
        ensures Expected(root, m)
      {
        RightIsExpected(root, members, names, m);
      }
    }
    if forall m :: m in members ==> Expected(root, m) {
      FilesUnderSize(root, members);
      forall n
        ensures n in FilesUnder(root, members) <==> exists i: nat :: FileAt(root, members, i, n)
      {
        FilesUnderHas(root, members, n);
      }
      hide FilesUnder, FileCount;
      EntriesOfNames(root, members, names, FilesUnder(root, members).Keys);
    }
  }

  lemma RightIsExpected(root: string, members: seq<Member>, names: set<string>, m: Member)
    requires RightEntries(root, members, names) && m in members
    ensures Expected(root, m)
  {
    var i: nat :| i < |members| && members[i] == m;
    if m.kind == File {
      var n :| n in names && FileAt(root, members, i, n);
      assert m.name[..|root| + 1] == root + "/";
    }
  }

  lemma EntriesOfNames(root: string, members: seq<Member>, names: set<string>, found: set<string>)
    requires forall m :: m in members ==> Expected(root, m)
    requires forall n :: n in found <==> exists i: nat :: FileAt(root, members, i, n)
    ensures RightEntries(root, members, names) <==> DistinctFiles(members) && found == names
  {
    forall i: nat | i < |members| && members[i].kind == File
      ensures |root| + 1 <= |members[i].name|
      ensures FileAt(root, members, i, members[i].name[|root| + 1..])
    {
      assert members[i] in members;
      FileNames(root, members[i]);
    }
    hide Expected;
    if RightEntries(root, members, names) {
      forall i, j | 0 <= i < j < |members| && members[i].kind == File && members[j].kind == File
        ensures members[i].name != members[j].name
      {
        var n := members[i].name[|root| + 1..];
        assert FileAt(root, members, i, n) && !FileAt(root, members, j, n);
      }
      forall n
        ensures n in found <==> n in names
      {
        if i: nat :| FileAt(root, members, i, n) {
          var k :| k in names && FileAt(root, members, i, k);
          SameEnd(root, n, k);
        }
      }
    } else if DistinctFiles(members) && found == names {
      RightWhenDistinct(root, members, names);
    }
  }

  lemma SameEnd(root: string, a: string, b: string)
    ensures root + "/" + a == root + "/" + b ==> a == b
  {
    assert (root + "/" + a)[|root| + 1..] == a && (root + "/" + b)[|root| + 1..] == b;
  }

  lemma RightWhenDistinct(root: string, members: seq<Member>, names: set<string>)
    requires forall m :: m in members ==> Expected(root, m)
    requires forall n :: n in names <==> exists i: nat :: FileAt(root, members, i, n)
    requires DistinctFiles(members)
    ensures RightEntries(root, members, names)
  {
    forall i: nat | i < |members|
      ensures (members[i].kind == Directory && StripSlashes(members[i].name) in Directories(root)) ||
              (members[i].kind == File && exists n :: n in names && FileAt(root, members, i, n))
    {
      assert members[i] in members;
      if members[i].kind == File {
        FileNames(root, members[i]);
        assert FileAt(root, members, i, members[i].name[|root| + 1..]);
      }
    }
  }

  // ----- the lines of SHA256SUMS

  /** The line is parted at its first mark. */
  ghost predicate Parted(line: string, mark: string, before: string, after: string) {
    line == before + mark + after && NoMark(line, mark, |before|)
  }

  lemma PartedIs(line: string, mark: string, before: string, after: string)
    requires mark != ""
    ensures Parted(line, mark, before, after) <==> Partition(line, mark) == Some((before, after))
  {
    PartitionIsFirst(line, mark);
    hide Partition;
    if Parted(line, mark, before, after) {
      MarkThere(line, mark, before, after);
      if Partition(line, mark).Some? {
        var (b, a) := Partition(line, mark).value;
        MarkThere(line, mark, b, a);
        assert |b| == |before|;
        assert line[..|b|] == b && line[..|before|] == before;
        assert line[|b| + |mark|..] == a && line[|before| + |mark|..] == after;
      }
    }
  }

  lemma MarkThere(line: string, mark: string, before: string, after: string)
    requires line == before + mark + after && mark != ""
    ensures |before| < |line| && MarkAt(line, mark, |before|)
  {
    assert line[|before|..] == mark + after;
  }

  /** The line gives a digest to one of the names. */
  ghost predicate GivesSome(line: string, names: set<string>) {
    exists digest, n :: n in names && Parted(line, "  ", digest, n)
  }

  /** Both lines give a digest to the same name. */
  ghost predicate GiveSame(a: string, b: string) {
    exists d, e, n :: Parted(a, "  ", d, n) && Parted(b, "  ", e, n)
  }

  /** Some line gives the digest to the name. */
  ghost predicate Given(lines: seq<string>, digest: string, n: string) {
    exists k :: 0 <= k < |lines| && Parted(lines[k], "  ", digest, n)
  }

  /** Every line gives a digest to one of the names, no two to the same, and each name gets that of its content. */
  ghost predicate RightSums(tools: Tools, files: map<string, string>, names: set<string>, lines: seq<string>) {
    && (forall k :: 0 <= k < |lines| ==> GivesSome(lines[k], names))
    && (forall j, k :: 0 <= j < k < |lines| ==> !GiveSame(lines[j], lines[k]))
    && (forall n :: n in names ==> n in files && Given(lines, tools.digest(files[n]), n))
  }

  /** A line of SHA256SUMS as the loop reads it. */
  function Sum(line: string): Option<(string, string)> {
    Entry(line, "  ", false)
  }

  lemma SumIs(line: string, digest: string, n: string)
    ensures Sum(line) == Some((n, digest)) <==> Parted(line, "  ", digest, n)
  {
    PartedIs(line, "  ", digest, n);
  }

  lemma GivesSomeIs(line: string, names: set<string>)
    ensures GivesSome(line, names) <==> Sum(line).Some? && Sum(line).value.0 in names
  {
    hide Sum, Parted;
    if Sum(line).Some? {
      SumIs(line, Sum(line).value.1, Sum(line).value.0);
    }
    if digest, n :| n in names && Parted(line, "  ", digest, n) {
      SumIs(line, digest, n);
    }
  }

  lemma GiveSameIs(a: string, b: string)
    ensures GiveSame(a, b) <==> Sum(a).Some? && Sum(b).Some? && Sum(a).value.0 == Sum(b).value.0
  {
    hide Sum, Parted;
    if Sum(a).Some? && Sum(b).Some? {
      SumIs(a, Sum(a).value.1, Sum(a).value.0);
      SumIs(b, Sum(b).value.1, Sum(b).value.0);
    }
    if d, e, n :| Parted(a, "  ", d, n) && Parted(b, "  ", e, n) {
      SumIs(a, d, n);
      SumIs(b, e, n);
    }
  }

  lemma GivenIs(lines: seq<string>, digest: string, n: string)
    ensures Given(lines, digest, n) <==> exists k :: 0 <= k < |lines| && Sum(lines[k]) == Some((n, digest))
  {
    hide Sum, Parted;
    if k :| 0 <= k < |lines| && Parted(lines[k], "  ", digest, n) {
      SumIs(lines[k], digest, n);
    }
    if k :| 0 <= k < |lines| && Sum(lines[k]) == Some((n, digest)) {
      SumIs(lines[k], digest, n);
    }
  }

  /** The lines can be read exactly when each is parted and no two give a digest to the same name. */
  lemma SumsRead(lines: seq<string>)
    ensures Mapping(lines, "  ", false).Some?
       <==> (forall k :: 0 <= k < |lines| ==> Sum(lines[k]).Some?) &&
            (forall j, k :: 0 <= j < k < |lines| ==> !GiveSame(lines[j], lines[k]))
  {
    MappingReads(lines, "  ", false);
    hide Entry, Mapping, GiveSame;
    forall j, k | 0 <= j < k < |lines|
      ensures GiveSame(lines[j], lines[k]) <==> Sum(lines[j]).Some? && Sum(lines[k]).Some? && Sum(lines[j]).value.0 == Sum(lines[k]).value.0
    {
      GiveSameIs(lines[j], lines[k]);
    }
  }

  lemma SumsSay(lines: seq<string>, n: string, digest: string)
    requires Mapping(lines, "  ", false).Some?
    ensures var recorded := Mapping(lines, "  ", false).value;
            && (n in recorded && recorded[n] == digest <==> Given(lines, digest, n))
            && (n in recorded <==> exists k :: 0 <= k < |lines| && Sum(lines[k]).Some? && Sum(lines[k]).value.0 == n)
  {
    MappingSays(lines, "  ", false, n, digest);
    GivenIs(lines, digest, n);
    hide Entry, Mapping, Given;
    var recorded := Mapping(lines, "  ", false).value;
    if k :| 0 <= k < |lines| && Sum(lines[k]).Some? && Sum(lines[k]).value.0 == n {
      assert Entry(lines[k], "  ", false) == Some((n, Sum(lines[k]).value.1));
    }
  }

  /** What the loop over the lines and the comparisons after it accept. */
  lemma SumsAreRight(tools: Tools, files: map<string, string>, names: set<string>, lines: seq<string>)
    requires names <= files.Keys
    ensures RightSums(tools, files, names, lines)
       <==> Mapping(lines, "  ", false).Some? &&
            var recorded := Mapping(lines, "  ", false).value;
            recorded.Keys == names && DigestsMatch(tools, files, recorded)
  {
    SumsRead(lines);
    hide Mapping, Sum, GivesSome, GiveSame, Given;
    forall k | 0 <= k < |lines|
      ensures GivesSome(lines[k], names) <==> Sum(lines[k]).Some? && Sum(lines[k]).value.0 in names
    {
      GivesSomeIs(lines[k], names);
    }
    if Mapping(lines, "  ", false).Some? {
      var recorded := Mapping(lines, "  ", false).value;
      if RightSums(tools, files, names, lines) {
        forall n
          ensures n in recorded <==> n in names
          ensures n in recorded ==> recorded[n] == tools.digest(files[n])
        {
          SumsSay(lines, n, if n in files then tools.digest(files[n]) else "");
        }
      } else if recorded.Keys == names && DigestsMatch(tools, files, recorded) {
        forall k | 0 <= k < |lines|
          ensures GivesSome(lines[k], names)
        {
          SumsSay(lines, Sum(lines[k]).value.0, "");
          assert Sum(lines[k]).value.0 in recorded.Keys;
        }
        forall n | n in names
          ensures n in files && Given(lines, tools.digest(files[n]), n)
        {
          assert n in recorded.Keys;
          SumsSay(lines, n, recorded[n]);
        }
      }
    }
  }

  /** The Windows archive is accepted exactly when it holds the expected files, each once, and SHA256SUMS has one line
      with the right digest for each of the others. */
  lemma WindowsMeans(tools: Tools, root: string, bytes: string)
    ensures WindowsSound(tools, root, bytes)
       <==> tools.unpack(bytes).Some? &&
            var members := tools.unpack(bytes).value;
            RightEntries(root, members, Contents() + {SUMS}) && SumsOf(tools, root, members)
  {
    hide Contents;
    if tools.unpack(bytes).Some? {
      var members := tools.unpack(bytes).value;
      EntriesAreRight(root, members, Contents() + {SUMS});
      if RightEntries(root, members, Contents() + {SUMS}) {
        hide RightEntries, FilesUnder, FileCount, Expected, Mapping, RightSums, DigestsMatch, SumsOf, Contents;
        FilesUnderSize(root, members);
        assert SUMS in FilesUnder(root, members).Keys;
        SumsAreRight(tools, FilesUnder(root, members), Contents(), tools.lines(FilesUnder(root, members)[SUMS]));
        SumsOfFiles(tools, root, members);
      }
    }
  }

  /** The contents of the files of the archive by their names below the root. */
  ghost predicate AreContents(root: string, members: seq<Member>, files: map<string, string>) {
    && (forall n :: n in files ==> exists i: nat :: FileAt(root, members, i, n))
    && (forall i: nat, n :: FileAt(root, members, i, n) ==> n in files && files[n] == members[i].content)
  }

  /** The checksums in the archive are right for what else is in it. */
  ghost predicate SumsOf(tools: Tools, root: string, members: seq<Member>) {
    exists files :: AreContents(root, members, files) && SUMS in files && RightSums(tools, files, Contents(), tools.lines(files[SUMS]))
  }

  lemma CollectedAreContents(root: string, members: seq<Member>)
    requires (forall m :: m in members ==> Expected(root, m)) && DistinctFiles(members)
    ensures AreContents(root, members, FilesUnder(root, members))
  {
    hide Expected, FilesUnder, DistinctFiles;
    forall n | n in FilesUnder(root, members)
      ensures exists i: nat :: FileAt(root, members, i, n)
    {
      FilesUnderHas(root, members, n);
    }
    forall i: nat, n | FileAt(root, members, i, n)
      ensures n in FilesUnder(root, members) && FilesUnder(root, members)[n] == members[i].content
    {
      FilesUnderGets(root, members, i, n);
    }
  }

  lemma SameContents(root: string, members: seq<Member>, a: map<string, string>, b: map<string, string>)
    requires AreContents(root, members, a) && AreContents(root, members, b)
    ensures a == b
  {
    hide FileAt;
    forall n
      ensures n in a <==> n in b
      ensures n in a ==> n in b && a[n] == b[n]
    {
      if n in a {
        var i: nat :| FileAt(root, members, i, n);
      }
      if n in b {
        var i: nat :| FileAt(root, members, i, n);
      }
    }
  }

  lemma SumsOfFiles(tools: Tools, root: string, members: seq<Member>)
    requires (forall m :: m in members ==> Expected(root, m)) && DistinctFiles(members) && SUMS in FilesUnder(root, members)
    ensures SumsOf(tools, root, members)
       <==> RightSums(tools, FilesUnder(root, members), Contents(), tools.lines(FilesUnder(root, members)[SUMS]))
  {
    hide RightSums, Expected, FilesUnder, DistinctFiles, Contents, AreContents;
    CollectedAreContents(root, members);
    if files :| AreContents(root, members, files) && SUMS in files && RightSums(tools, files, Contents(), tools.lines(files[SUMS])) {
      SameContents(root, members, files, FilesUnder(root, members));
    }
  }

  ghost predicate Holds(members: seq<Member>, root: string, name: string) {
    exists content :: HasFile(members, root + "/" + name, content)
  }

  lemma HoldsRequired(tools: Tools, root: string, bytes: string, name: string)
    requires WindowsSound(tools, root, bytes) && name in Contents()
    ensures Holds(tools.unpack(bytes).value, root, name)
  {
    WindowsFiles(tools, root, bytes, name);
  }

  /** A sound Windows archive holds the header, the library and its import library, the license, the manifest, and the
      notices of what is built in. */
  lemma WindowsHolds(tools: Tools, root: string, bytes: string)
    requires WindowsSound(tools, root, bytes)
    ensures var members := tools.unpack(bytes).value;
            && Holds(members, root, "include/itofin.h")
            && Holds(members, root, "lib/itofin_ffi.dll") && Holds(members, root, "lib/libitofin_ffi.dll.a")
            && Holds(members, root, "LICENSE") && Holds(members, root, "VERSION")
            && Holds(members, root, "licenses/libitofin/THIRD_PARTY_NOTICES.md")
            && Holds(members, root, "licenses/libitofin/QUANTLIB_LICENSE.txt")
  {
    hide WindowsSound, Holds;
    HoldsRequired(tools, root, bytes, "include/itofin.h");
    HoldsRequired(tools, root, bytes, "lib/itofin_ffi.dll");
    HoldsRequired(tools, root, bytes, "lib/libitofin_ffi.dll.a");
    HoldsRequired(tools, root, bytes, "LICENSE");
    HoldsRequired(tools, root, bytes, "VERSION");
    HoldsRequired(tools, root, bytes, "licenses/libitofin/THIRD_PARTY_NOTICES.md");
    HoldsRequired(tools, root, bytes, "licenses/libitofin/QUANTLIB_LICENSE.txt");
  }

  /** The directories above those files may be entries of their own, with or without a slash at the end. */
  lemma KnownDirectories(root: string, below: string, m: Member)
    requires root != "" && root[|root| - 1] != '/'
    requires below in ["", "/include", "/lib", "/licenses", "/licenses/libitofin"]
    requires m.kind == Directory && (m.name == root + below || m.name == root + below + "/")
    ensures Expected(root, m)
  {
    var name := root + below;
    assert name[|name| - 1] != '/';
    assert (name + "/")[..|name|] == name;
    assert root + "" == root;
    assert StripSlashes(m.name) == name;
  }
}
