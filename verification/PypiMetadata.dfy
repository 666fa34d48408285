/** Reading the metadata inside a distribution (scripts/prepare_release_pypi.py:50-76). */
module PypiMetadata {
  import opened Results
  import opened Archives
  import opened PypiNames

  /** What the Name and Version fields of a metadata file say, all of them. */
  datatype Headers = Headers(names: seq<string>, versions: seq<string>)

  /** The readers of tar archives, of zip archives, and of metadata files. */
  datatype Reader = Reader(
    untar: string -> Option<seq<Member>>, unzip: string -> Option<seq<Member>>, headers: string -> Headers)

  const MAX_METADATA_BYTES := 2_000_000

  function EndsWith(name: string, end: string): bool {
    |name| >= |end| && name[|name| - |end|..] == end
  }

  /** The members that are looked at: one exact name in an sdist, any name with the ending in a wheel. */
  predicate IsInfo(sdist: bool, version: string, m: Member) {
    if sdist then m.name == "itofin-" + version + "/PKG-INFO" else EndsWith(m.name, ".dist-info/METADATA")
  }

  /** The member is where it belongs, is not too large, and names this release and no other. */
  predicate GoodInfo(reader: Reader, sdist: bool, version: string, m: Member) {
    && m.size <= MAX_METADATA_BYTES
    && (if sdist then m.kind == File else m.name == "itofin-" + version + ".dist-info/METADATA")
    && reader.headers(m.content) == Headers(["itofin"], [version])
  }

  function Members(reader: Reader, sdist: bool, content: string): Option<seq<Member>> {
    if sdist then reader.untar(content) else reader.unzip(content)
  }

  /** Member `i` is the only one that is looked at. */
  ghost predicate OnlyInfo(sdist: bool, version: string, members: seq<Member>, i: nat) {
    && i < |members| && IsInfo(sdist, version, members[i])
    && forall j :: 0 <= j < |members| && IsInfo(sdist, version, members[j]) ==> j == i
  }

  /** The archive has exactly one metadata file, and it is good. */
  ghost predicate HasMetadata(reader: Reader, version: string, name: string, content: string) {
    var sdist := name == SdistName(version);
    var members := Members(reader, sdist, content);
    members.Some? &&
    exists i: nat :: OnlyInfo(sdist, version, members.value, i) && GoodInfo(reader, sdist, version, members.value[i])
  }

  function Infos(sdist: bool, version: string, members: seq<Member>): seq<Member> {
    if members == [] then []
    else (if IsInfo(sdist, version, members[0]) then [members[0]] else []) + Infos(sdist, version, members[1..])
  }

  lemma {:induction false} NoInfos(sdist: bool, version: string, members: seq<Member>)
    ensures Infos(sdist, version, members) == [] <==> forall j :: 0 <= j < |members| ==> !IsInfo(sdist, version, members[j])
  {
    hide IsInfo;
    if members != [] {
      NoInfos(sdist, version, members[1..]);
      assert forall j :: 0 < j < |members| ==> members[j] == members[1..][j - 1];
    }
  }

  /** Picking members out gives one exactly when only one is there. */
  lemma {:induction false} OneInfo(sdist: bool, version: string, members: seq<Member>, i: nat)
    requires OnlyInfo(sdist, version, members, i)
    ensures Infos(sdist, version, members) == [members[i]]
  {
    hide IsInfo;
    var rest := members[1..];
    assert forall j :: 0 < j < |members| ==> members[j] == rest[j - 1];
    if i == 0 {
      NoInfos(sdist, version, rest);
    } else {
      assert !IsInfo(sdist, version, members[0]);
      OneInfo(sdist, version, rest, i - 1);
    }
  }

  lemma {:induction false} InfoIsOnly(sdist: bool, version: string, members: seq<Member>) returns (i: nat)
    requires |Infos(sdist, version, members)| == 1
    ensures OnlyInfo(sdist, version, members, i)
  {
    hide IsInfo;
    var rest := members[1..];
    assert forall j :: 0 < j < |members| ==> members[j] == rest[j - 1];
    if IsInfo(sdist, version, members[0]) {
      NoInfos(sdist, version, rest);
      i := 0;
    } else {
      var k := InfoIsOnly(sdist, version, rest);
      i := k + 1;
    }
  }

  method CheckMetadata(reader: Reader, version: string, name: string, content: string) returns (ok: bool)
    ensures ok <==> HasMetadata(reader, version, name, content)
  {
    hide IsInfo, GoodInfo, Infos, SdistName;
    var sdist := name == SdistName(version);
    var members := Members(reader, sdist, content);
    if members.None? {
      return false;
    }
    var found := Infos(sdist, version, members.value);
    if i: nat :| OnlyInfo(sdist, version, members.value, i) {
      OneInfo(sdist, version, members.value, i);
    }
    if |found| != 1 {
      return false;
    }
    ghost var i := InfoIsOnly(sdist, version, members.value);
    OneInfo(sdist, version, members.value, i);
    return GoodInfo(reader, sdist, version, found[0]);
  }

  // ----- the two kinds of distribution

  /** The member is the only one of the name. */
  ghost predicate OnlyNamed(members: seq<Member>, name: string, i: nat) {
    i < |members| && members[i].name == name && forall j :: 0 <= j < |members| && members[j].name == name ==> j == i
  }

  /** An sdist has one member PKG-INFO in its root, a regular file of at most two million bytes that names the project
      and the version, once each. */
  lemma SdistMetadata(reader: Reader, version: string, content: string)
    ensures HasMetadata(reader, version, "itofin-" + version + ".tar.gz", content)
       <==> reader.untar(content).Some? &&
            var members := reader.untar(content).value;
            exists i: nat ::
              && OnlyNamed(members, "itofin-" + version + "/PKG-INFO", i)
              && members[i].kind == File && members[i].size <= 2_000_000
              && reader.headers(members[i].content) == Headers(["itofin"], [version])
  {
    if reader.untar(content).Some? {
      var members := reader.untar(content).value;
      forall i: nat
        ensures OnlyInfo(true, version, members, i) <==> OnlyNamed(members, "itofin-" + version + "/PKG-INFO", i)
      {
        hide EndsWith;
      }
    }
  }

  /** A wheel has one member whose name ends in .dist-info/METADATA; it is that of the project and the version, has at
      most two million bytes, and names both once each. */
  lemma WheelMetadata(reader: Reader, version: string, name: string, content: string)
    requires name != "itofin-" + version + ".tar.gz"
    ensures HasMetadata(reader, version, name, content)
       <==> reader.unzip(content).Some? &&
            var members := reader.unzip(content).value;
            exists i: nat ::
              && i < |members| && members[i].name == "itofin-" + version + ".dist-info/METADATA" && members[i].size <= 2_000_000
              && reader.headers(members[i].content) == Headers(["itofin"], [version])
              && forall j, before :: 0 <= j < |members| && members[j].name == before + ".dist-info/METADATA" ==> j == i
  {
    if reader.unzip(content).Some? {
      var members := reader.unzip(content).value;
      forall j, before | 0 <= j < |members| && members[j].name == before + ".dist-info/METADATA"
        ensures EndsWith(members[j].name, ".dist-info/METADATA")
      {
        Ending(before, ".dist-info/METADATA");
      }
      forall j | 0 <= j < |members| && EndsWith(members[j].name, ".dist-info/METADATA")
        ensures exists before :: members[j].name == before + ".dist-info/METADATA"
      {
        assert members[j].name == Front(members[j].name, ".dist-info/METADATA") + ".dist-info/METADATA";
      }
      hide EndsWith;
    }
  }

  lemma Ending(before: string, end: string)
    ensures EndsWith(before + end, end)
  {
  }

  function Front(name: string, end: string): (front: string)
    requires EndsWith(name, end)
    ensures name == front + end
  {
    name[..|name| - |end|]
  }
}
