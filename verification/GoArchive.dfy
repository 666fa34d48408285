/** The checks on native archives and their checksum files (scripts/publish_go_release.py). */
module GoArchive {
  import opened Results
  import opened Archives
  import opened GoChecksums
  import opened Text

  datatype Platform = LinuxAmd64 | LinuxArm64 | DarwinAmd64 | DarwinArm64 | WindowsAmd64

  /** SHA-256 as text, and the reader of tar archives. */
  datatype Tools = Tools(digest: string -> string, unpack: string -> Option<seq<Member>>, lines: string -> seq<string>)

  /** Digests are single words. */
  ghost predicate GoodTools(tools: Tools) {
    forall content {:trigger tools.digest(content)} :: IsToken(tools.digest(content))
  }

  // ----- names

  function PlatformText(p: Platform): string {
    match p
    case LinuxAmd64 => "linux-amd64"
    case LinuxArm64 => "linux-arm64"
    case DarwinAmd64 => "darwin-amd64"
    case DarwinArm64 => "darwin-arm64"
    case WindowsAmd64 => "windows-amd64"
  }

  function Root(version: string, p: Platform): string {
    "itofin-native-" + version + "-" + PlatformText(p)
  }

  function ArchiveName(version: string, p: Platform): string {
    Root(version, p) + ".tar.gz"
  }

  function ChecksumName(version: string, p: Platform): string {
    ArchiveName(version, p) + ".sha256"
  }

  lemma SpelledName(version: string, p: Platform, end: string)
    requires "-" + PlatformText(p) + ".tar.gz" == end
    ensures ArchiveName(version, p) == "itofin-native-" + version + end
  {
    hide PlatformText;
    var lead := "itofin-native-" + version;
    assert lead + "-" + PlatformText(p) + ".tar.gz" == lead + ("-" + PlatformText(p) + ".tar.gz");
  }

  /** The archives of a release by name. */
  lemma LinuxNames(version: string)
    ensures ArchiveName(version, LinuxAmd64) == "itofin-native-" + version + "-linux-amd64.tar.gz"
    ensures ArchiveName(version, LinuxArm64) == "itofin-native-" + version + "-linux-arm64.tar.gz"
  {
    hide ArchiveName;
    SpelledName(version, LinuxAmd64, "-linux-amd64.tar.gz");
    SpelledName(version, LinuxArm64, "-linux-arm64.tar.gz");
  }

  lemma DarwinNames(version: string)
    ensures ArchiveName(version, DarwinAmd64) == "itofin-native-" + version + "-darwin-amd64.tar.gz"
    ensures ArchiveName(version, DarwinArm64) == "itofin-native-" + version + "-darwin-arm64.tar.gz"
  {
    hide ArchiveName;
    SpelledName(version, DarwinAmd64, "-darwin-amd64.tar.gz");
    SpelledName(version, DarwinArm64, "-darwin-arm64.tar.gz");
  }

  lemma WindowsName(version: string)
    ensures ArchiveName(version, WindowsAmd64) == "itofin-native-" + version + "-windows-amd64.tar.gz"
  {
    hide ArchiveName;
    SpelledName(version, WindowsAmd64, "-windows-amd64.tar.gz");
  }

  lemma PlatformTexts(p: Platform, q: Platform)
    ensures PlatformText(p) == PlatformText(q) ==> p == q
  {
  }

  lemma ArchiveNamesDiffer(version: string, p: Platform, q: Platform)
    ensures ArchiveName(version, p) == ArchiveName(version, q) ==> p == q
  {
    PlatformTexts(p, q);
    hide PlatformText;
    SameMiddle("itofin-native-" + version + "-", PlatformText(p), PlatformText(q), ".tar.gz");
  }

  /** The names of the assets of a release are different. */
  lemma NamesDiffer(version: string, p: Platform, q: Platform)
    ensures ArchiveName(version, p) == ArchiveName(version, q) ==> p == q
    ensures ChecksumName(version, p) == ChecksumName(version, q) ==> p == q
    ensures ArchiveName(version, p) != ChecksumName(version, q)
  {
    EndsDiffer(Root(version, p), ArchiveName(version, q));
    hide Root;
    ArchiveNamesDiffer(version, p, q);
    SameStart(ArchiveName(version, p), ArchiveName(version, q), ".sha256");
  }

  lemma EndsDiffer(a: string, b: string)
    ensures a + ".tar.gz" != b + ".sha256"
  {
    var s, t := a + ".tar.gz", b + ".sha256";
    assert s[|s| - 1] == 'z' && t[|t| - 1] == '6';
  }

  lemma SameStart(a: string, b: string, after: string)
    ensures a + after == b + after ==> a == b
  {
    if a + after == b + after {
      assert (a + after)[..|a|] == a;
      assert (b + after)[..|b|] == b;
    }
  }

  lemma SameMiddle(before: string, a: string, b: string, after: string)
    ensures before + a + after == before + b + after ==> a == b
  {
    if before + a + after == before + b + after {
      assert (before + a + after)[|before|..|before| + |a|] == a;
      assert (before + b + after)[|before|..|before| + |b|] == b;
    }
  }

  lemma PlatformIsToken(p: Platform)
    ensures IsToken(PlatformText(p))
  {
  }

  lemma NameIsToken(version: string, p: Platform)
    requires IsToken(version)
    ensures IsToken(ArchiveName(version, p))
  {
    PlatformIsToken(p);
    assert IsToken("itofin-native-") && IsToken("-") && IsToken(".tar.gz");
    hide PlatformText, IsToken;
  }

  // ----- the VERSION manifest

  /** A line at its first `mark`, if it has one. */
  function Partition(line: string, mark: string): Option<(string, string)>
    requires mark != ""
  {
    if |line| < |mark| then None
    else if line[..|mark|] == mark then Some(("", line[|mark|..]))
    else
      var rest := Partition(line[1..], mark);
      if rest.None? then None else Some(([line[0]] + rest.value.0, rest.value.1))
  }

  function Named(members: seq<Member>, name: string): seq<Member> {
    if members == [] then []
    else (if members[0].name == name then [members[0]] else []) + Named(members[1..], name)
  }

  /** The lines as a mapping from the text on one side of the mark to the text on the other; nothing if a line
      has no mark or repeats a key. */
  function Mapping(lines: seq<string>, mark: string, keyFirst: bool): Option<map<string, string>>
    requires mark != ""
  {
    if lines == [] then Some(map[])
    else
      var last := |lines| - 1;
      var before, entry := Mapping(lines[..last], mark, keyFirst), Entry(lines[last], mark, keyFirst);
      if before.None? || entry.None? || entry.value.0 in before.value then None
      else Some(before.value[entry.value.0 := entry.value.1])
  }

  function Entry(line: string, mark: string, keyFirst: bool): Option<(string, string)>
    requires mark != ""
  {
    var parts := Partition(line, mark);
    if parts.None? || keyFirst then parts else Some((parts.value.1, parts.value.0))
  }

  /** What the VERSION manifest must say. */
  predicate ManifestSays(manifest: map<string, string>, version: string, revision: string, p: Platform) {
    && "version" in manifest && manifest["version"] == version
    && "revision" in manifest && manifest["revision"] == revision
    && "platform" in manifest && manifest["platform"] == PlatformText(p)
  }

  /** The bytes are an archive with one regular VERSION manifest, of this commit and platform. */
  predicate HasIdentity(tools: Tools, version: string, revision: string, p: Platform, bytes: string) {
    var members := tools.unpack(bytes);
    members.Some? &&
    var found := Named(members.value, Root(version, p) + "/VERSION");
    |found| == 1 && found[0].kind == File &&
    var manifest := Mapping(tools.lines(found[0].content), "=", true);
    manifest.Some? && ManifestSays(manifest.value, version, revision, p)
  }

  /** A mapping loop stops for good at the first bad line. */
  lemma {:induction false} MappingStops(lines: seq<string>, mark: string, keyFirst: bool, k: nat)
    requires mark != "" && k <= |lines| && Mapping(lines[..k], mark, keyFirst).None?
    ensures Mapping(lines, mark, keyFirst).None?
    decreases |lines| - k
  {
    if k < |lines| {
      assert lines[..k + 1][..k] == lines[..k];
      MappingStops(lines, mark, keyFirst, k + 1);
    } else {
      assert lines[..k] == lines;
    }
  }

  /** A key is mapped to a value exactly when some line says so. */
  lemma {:induction false} MappingSays(lines: seq<string>, mark: string, keyFirst: bool, key: string, value: string)
    requires mark != "" && Mapping(lines, mark, keyFirst).Some?
    ensures (key in Mapping(lines, mark, keyFirst).value && Mapping(lines, mark, keyFirst).value[key] == value)
       <==> exists i :: 0 <= i < |lines| && Entry(lines[i], mark, keyFirst) == Some((key, value))
    ensures key in Mapping(lines, mark, keyFirst).value
       <==> exists i, v :: 0 <= i < |lines| && Entry(lines[i], mark, keyFirst) == Some((key, v))
  {
    hide Entry;
    if lines != [] {
      var last := |lines| - 1;
      MappingSays(lines[..last], mark, keyFirst, key, value);
      assert forall i :: 0 <= i < last ==> lines[..last][i] == lines[i];
    }
  }

  /** Reading lines into a dictionary, refusing a line without the mark and a key that is already there. */
  method ReadMapping(lines: seq<string>, mark: string, keyFirst: bool) returns (r: Option<map<string, string>>)
    requires mark != ""
    ensures r == Mapping(lines, mark, keyFirst)
  {
    hide Entry;
    var recorded: map<string, string> := map[];
    for i := 0 to |lines|
      invariant Mapping(lines[..i], mark, keyFirst) == Some(recorded)
    {
      var entry := Entry(lines[i], mark, keyFirst);
      assert lines[..i + 1][..i] == lines[..i];
      if entry.None? || entry.value.0 in recorded {
        MappingStops(lines, mark, keyFirst, i + 1);
        return None;
      }
      recorded := recorded[entry.value.0 := entry.value.1];
    }
    assert lines[..|lines|] == lines;
    return Some(recorded);
  }

  // ----- the contents of the Windows archive

  const SUMS := "SHA256SUMS"

  /** The files that the Windows archive must hold besides its checksums. */
  function Contents(): set<string> {
    {"include/itofin.h", "lib/itofin_ffi.dll", "lib/libitofin_ffi.dll.a", "LICENSE", "VERSION",
     "licenses/libitofin/THIRD_PARTY_NOTICES.md", "licenses/libitofin/QUANTLIB_LICENSE.txt"}
  }

  function Directories(root: string): set<string> {
    {root, root + "/include", root + "/lib", root + "/licenses", root + "/licenses/libitofin"}
  }

  /** An entry that may be in the archive: a known directory, or a file below the root. */
  predicate Expected(root: string, m: Member) {
    match m.kind
    case Directory => StripSlashes(m.name) in Directories(root)
    case File => root + "/" <= m.name
    case Other => false
  }

  function FileCount(members: seq<Member>): nat {
    if members == [] then 0 else FileCount(members[..|members| - 1]) + if members[|members| - 1].kind == File then 1 else 0
  }

  /** The files below the root by their relative names. */
  function FilesUnder(root: string, members: seq<Member>): map<string, string>
    requires forall m :: m in members ==> Expected(root, m)
  {
    if members == [] then map[]
    else
      var last := members[|members| - 1];
      var files := FilesUnder(root, members[..|members| - 1]);
      assert last in members && Expected(root, last);
      assert last.kind == File ==> |root + "/"| <= |last.name|;
      if last.kind == File then files[last.name[|root| + 1..] := last.content] else files
  }

  /** The recorded digests are those of the files. */
  predicate DigestsMatch(tools: Tools, files: map<string, string>, recorded: map<string, string>) {
    forall n :: n in recorded ==> n in files && tools.digest(files[n]) == recorded[n]
  }

  /** The archive holds exactly the expected files, once each, with their recorded digests. */
  ghost predicate WindowsSound(tools: Tools, root: string, bytes: string) {
    var members := tools.unpack(bytes);
    members.Some? && (forall m :: m in members.value ==> Expected(root, m)) &&
    var files := FilesUnder(root, members.value);
    |files| == FileCount(members.value) && files.Keys == Contents() + {SUMS} &&
    var recorded := Mapping(tools.lines(files[SUMS]), "  ", false);
    recorded.Some? && recorded.value.Keys == Contents() && DigestsMatch(tools, files, recorded.value)
  }

  method CollectFiles(root: string, members: seq<Member>) returns (ok: bool, files: map<string, string>, count: nat)
    ensures ok <==> forall m :: m in members ==> Expected(root, m)
    ensures ok ==> files == FilesUnder(root, members) && count == FileCount(members)
  {
    hide Expected;
    files, count := map[], 0;
    for i := 0 to |members|
      invariant forall m :: m in members[..i] ==> Expected(root, m)
      invariant files == FilesUnder(root, members[..i]) && count == FileCount(members[..i])
    {
      var m := members[i];
      if !Expected(root, m) {
        return false, map[], 0;
      }
      assert members[..i + 1] == members[..i] + [m];
      assert members[..i + 1][..i] == members[..i];
      if m.kind == File {
        FileIsBelow(root, m);
        files := files[m.name[|root| + 1..] := m.content];
        count := count + 1;
      }
    }
    assert members[..|members|] == members;
    return true, files, count;
  }

  lemma FileIsBelow(root: string, m: Member)
    requires Expected(root, m) && m.kind == File
    ensures root + "/" <= m.name && |root| + 1 <= |m.name|
  {
  }

  method VerifyWindowsContents(tools: Tools, root: string, bytes: string) returns (ok: bool)
    ensures ok <==> WindowsSound(tools, root, bytes)
  {
    hide Contents, Expected, FilesUnder, FileCount, Mapping;
    var members := tools.unpack(bytes);
    if members.None? {
      return false;
    }
    var files, count;
    ok, files, count := CollectFiles(root, members.value);
    if !ok || |files| != count || files.Keys != Contents() + {SUMS} {
      return false;
    }
    var recorded := ReadMapping(tools.lines(files[SUMS]), "  ", false);
    if recorded.None? || recorded.value.Keys != Contents() {
      return false;
    }
    var pending := recorded.value.Keys;
    while pending != {}
      invariant pending <= recorded.value.Keys
      invariant forall n :: n in recorded.value && n !in pending ==> n in files && tools.digest(files[n]) == recorded.value[n]
      decreases pending
    {
      var n :| n in pending;
      assert n in files.Keys;
      if tools.digest(files[n]) != recorded.value[n] {
        return false;
      }
      pending := pending - {n};
    }
    return true;
  }
}
