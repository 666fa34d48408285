/** Reading the platform of a distribution from its file name (scripts/prepare_release_pypi.py).  Wheel names
    follow PEP 427, section "File name convention". */
module PypiNames {
  import opened Results
  import opened Text

  /** What a distribution is for. */
  datatype Platform = LinuxX64 | LinuxArm64 | MacX64 | MacArm64 | Sdist

  /** The decimal digits and the word characters of Python's patterns, which depend on its Unicode tables; a hyphen
      is neither, and no digit is an underscore or a dot. */
  datatype CharClasses = CharClasses(digit: char -> bool, word: char -> bool)

  ghost predicate GoodClasses(c: CharClasses) {
    !c.word('-') && !c.digit('-') && !c.digit('_') && !c.digit('.')
  }

  function AsciiClasses(): CharClasses {
    CharClasses(IsDigit, c => 'a' <= c <= 'z' || 'A' <= c <= 'Z' || IsDigit(c) || c == '_')
  }

  type Classes = c: CharClasses | GoodClasses(c) ghost witness AsciiClasses()

  predicate AllDigits(classes: Classes, s: string) {
    s != "" && forall i :: 0 <= i < |s| ==> classes.digit(s[i])
  }

  /** A python, abi or platform tag of a wheel name. */
  predicate IsTag(classes: Classes, s: string) {
    s != "" && forall i :: 0 <= i < |s| ==> classes.word(s[i]) || s[i] == '.'
  }

  // ----- platforms

  /** The platform policy that comes before the architecture in a Linux tag, split at its underscores. */
  predicate IsLinuxPolicy(classes: Classes, pieces: seq<string>) {
    || pieces in {["manylinux1"], ["manylinux2010"], ["manylinux2014"]}
    || (|pieces| == 3 && pieces[0] == "manylinux" && AllDigits(classes, pieces[1]) && AllDigits(classes, pieces[2]))
  }

  predicate IsMacPolicy(classes: Classes, pieces: seq<string>) {
    |pieces| == 3 && pieces[0] == "macosx" && AllDigits(classes, pieces[1]) && AllDigits(classes, pieces[2])
  }

  /** The required platform that one platform tag stands for. */
  function TagPlatform(classes: Classes, tag: string): Option<Platform> {
    var pieces := Split(tag, '_');
    var n := |pieces|;
    if n >= 2 && pieces[n - 2..] == ["x86", "64"] && IsLinuxPolicy(classes, pieces[..n - 2]) then Some(LinuxX64)
    else if pieces[n - 1] == "aarch64" && IsLinuxPolicy(classes, pieces[..n - 1]) then Some(LinuxArm64)
    else if n >= 2 && pieces[n - 2..] == ["x86", "64"] && IsMacPolicy(classes, pieces[..n - 2]) then Some(MacX64)
    else if pieces[n - 1] == "arm64" && IsMacPolicy(classes, pieces[..n - 1]) then Some(MacArm64)
    else None
  }

  /** `lead`, and two numbers joined by an underscore. */
  ghost predicate Numbered(classes: Classes, text: string, lead: string) {
    exists a, b :: IsNumber(classes, a) && IsNumber(classes, b) && text == lead + "_" + a + "_" + b
  }

  predicate IsNumber(classes: Classes, s: string) {
    s != "" && forall c: char :: c in s ==> classes.digit(c)
  }

  lemma NumbersAreDigits(classes: Classes, s: string)
    ensures AllDigits(classes, s) <==> IsNumber(classes, s)
  {
    forall i | 0 <= i < |s|
      ensures s[i] in s
    {
    }
  }

  /** The text of a Linux platform policy. */
  ghost predicate LinuxPolicyText(classes: Classes, text: string) {
    text == "manylinux1" || text == "manylinux2010" || text == "manylinux2014" || Numbered(classes, text, "manylinux")
  }

  ghost predicate MacPolicyText(classes: Classes, text: string) {
    Numbered(classes, text, "macosx")
  }

  /** The text of a platform tag. */
  ghost predicate TagText(classes: Classes, tag: string, platform: Platform) {
    match platform
    case LinuxX64 => exists t :: LinuxPolicyText(classes, t) && Arch(tag, t, "x86_64")
    case LinuxArm64 => exists t :: LinuxPolicyText(classes, t) && Arch(tag, t, "aarch64")
    case MacX64 => exists t :: MacPolicyText(classes, t) && Arch(tag, t, "x86_64")
    case MacArm64 => exists t :: MacPolicyText(classes, t) && Arch(tag, t, "arm64")
    case Sdist => false
  }

  /** Every dot-separated tag stands for the platform. */
  ghost predicate IsPlatform(classes: Classes, tags: string, platform: Platform) {
    forall i :: 0 <= i < |Split(tags, '.')| ==> TagText(classes, Split(tags, '.')[i], platform)
  }

  /** The tag is some text of the policy and the architecture after it. */
  ghost predicate Arch(tag: string, t: string, arch: string) {
    tag == t + "_" + arch
  }

  lemma NoUnderscore(classes: Classes, s: string)
    requires AllDigits(classes, s)
    ensures '_' !in s && Split(s, '_') == [s]
  {
    SplitOne(s, '_');
  }

  lemma NumberedPieces(classes: Classes, text: string, lead: string)
    requires '_' !in lead
    ensures Numbered(classes, text, lead)
       <==> var pieces := Split(text, '_');
            |pieces| == 3 && pieces[0] == lead && AllDigits(classes, pieces[1]) && AllDigits(classes, pieces[2])
  {
    hide Split, Join, AllDigits, IsNumber;
    SplitOne(lead, '_');
    var pieces := Split(text, '_');
    if a, b :| IsNumber(classes, a) && IsNumber(classes, b) && text == lead + "_" + a + "_" + b {
      NumbersAreDigits(classes, a);
      NumbersAreDigits(classes, b);
      NoUnderscore(classes, a);
      NoUnderscore(classes, b);
      SplitAppend(lead, '_', a);
      SplitAppend(lead + "_" + a, '_', b);
      assert pieces == [lead] + [a] + [b];
    }
    if |pieces| == 3 && pieces[0] == lead && AllDigits(classes, pieces[1]) && AllDigits(classes, pieces[2]) {
      assert pieces == [pieces[0], pieces[1]] + [pieces[2]];
      SplitParts(text, '_', [pieces[0], pieces[1]], [pieces[2]]);
      ThreeJoined(pieces);
      NumbersAreDigits(classes, pieces[1]);
      NumbersAreDigits(classes, pieces[2]);
      assert text == lead + "_" + pieces[1] + "_" + pieces[2];
    }
  }

  lemma ThreeJoined(pieces: seq<string>)
    requires |pieces| == 3
    ensures Join("_", [pieces[0], pieces[1]]) == pieces[0] + "_" + pieces[1] && Join("_", [pieces[2]]) == pieces[2]
  {
    assert [pieces[0], pieces[1]][1..] == [pieces[1]];
  }

  lemma OldPolicy(text: string, policy: string)
    requires '_' !in policy
    ensures text == policy <==> Split(text, '_') == [policy]
  {
    SplitOne(policy, '_');
    JoinSplit(text, '_');
    assert Join("_", [policy]) == policy;
  }

  lemma LinuxPolicyPieces(classes: Classes, text: string)
    ensures LinuxPolicyText(classes, text) <==> IsLinuxPolicy(classes, Split(text, '_'))
  {
    hide Split, Join, Numbered, AllDigits;
    NumberedPieces(classes, text, "manylinux");
    OldPolicy(text, "manylinux1");
    OldPolicy(text, "manylinux2010");
    OldPolicy(text, "manylinux2014");
  }

  lemma MacPolicyPieces(classes: Classes, text: string)
    ensures MacPolicyText(classes, text) <==> IsMacPolicy(classes, Split(text, '_'))
  {
    hide Split, Join, Numbered, AllDigits;
    NumberedPieces(classes, text, "macosx");
  }

  /** The pieces of a tag end in those of its architecture. */
  lemma ArchPieces(tag: string, t: string, arch: string)
    requires Arch(tag, t, arch)
    ensures Split(tag, '_') == Split(t, '_') + Split(arch, '_')
  {
    SplitAppend(t, '_', arch);
  }

  lemma PiecesArch(tag: string, arch: string, k: nat) returns (t: string)
    requires 0 < k < |Split(tag, '_')| && Split(arch, '_') == Split(tag, '_')[|Split(tag, '_')| - k..]
    ensures Arch(tag, t, arch) && Split(t, '_') == Split(tag, '_')[..|Split(tag, '_')| - k]
  {
    hide Split, Join;
    var pieces := Split(tag, '_');
    var a, b := pieces[..|pieces| - k], pieces[|pieces| - k..];
    assert pieces == a + b;
    SplitParts(tag, '_', a, b);
    JoinSplit(arch, '_');
    t := Join("_", a);
  }

  lemma X64Pieces()
    ensures Split("x86_64", '_') == ["x86", "64"]
  {
    hide Split;
    SplitAppend("x86", '_', "64");
    SplitOne("x86", '_');
    SplitOne("64", '_');
    assert "x86" + ['_'] + "64" == "x86_64";
  }

  /** The pieces of a policy, and those of an architecture after them. */
  predicate LinuxPieces(classes: Classes, pieces: seq<string>, ending: seq<string>) {
    |ending| < |pieces| && pieces[|pieces| - |ending|..] == ending && IsLinuxPolicy(classes, pieces[..|pieces| - |ending|])
  }

  predicate MacPieces(classes: Classes, pieces: seq<string>, ending: seq<string>) {
    |ending| < |pieces| && pieces[|pieces| - |ending|..] == ending && IsMacPolicy(classes, pieces[..|pieces| - |ending|])
  }

  lemma LinuxTag(classes: Classes, tag: string, arch: string)
    ensures (exists t :: LinuxPolicyText(classes, t) && Arch(tag, t, arch)) <==> LinuxPieces(classes, Split(tag, '_'), Split(arch, '_'))
  {
    hide Split, Join, LinuxPolicyText, IsLinuxPolicy, Arch;
    var pieces, ending := Split(tag, '_'), Split(arch, '_');
    if t :| LinuxPolicyText(classes, t) && Arch(tag, t, arch) {
      ArchPieces(tag, t, arch);
      LinuxPolicyPieces(classes, t);
    }
    if LinuxPieces(classes, pieces, ending) {
      var t := PiecesArch(tag, arch, |ending|);
      LinuxPolicyPieces(classes, t);
    }
  }

  lemma MacTag(classes: Classes, tag: string, arch: string)
    ensures (exists t :: MacPolicyText(classes, t) && Arch(tag, t, arch)) <==> MacPieces(classes, Split(tag, '_'), Split(arch, '_'))
  {
    hide Split, Join, MacPolicyText, IsMacPolicy, Arch;
    var pieces, ending := Split(tag, '_'), Split(arch, '_');
    if t :| MacPolicyText(classes, t) && Arch(tag, t, arch) {
      ArchPieces(tag, t, arch);
      MacPolicyPieces(classes, t);
    }
    if MacPieces(classes, pieces, ending) {
      var t := PiecesArch(tag, arch, |ending|);
      MacPolicyPieces(classes, t);
    }
  }

  lemma PoliciesDiffer(classes: Classes, pieces: seq<string>)
    ensures !(IsLinuxPolicy(classes, pieces) && IsMacPolicy(classes, pieces))
    ensures IsLinuxPolicy(classes, pieces) || IsMacPolicy(classes, pieces) ==> pieces != []
  {
  }

  lemma ArchesDiffer(pieces: seq<string>)
    requires pieces != []
    ensures pieces[|pieces| - 1..] == ["aarch64"] ==> pieces[|pieces| - 1..] != ["arm64"]
    ensures |pieces| >= 2 && pieces[|pieces| - 2..] == ["x86", "64"] ==>
              pieces[|pieces| - 1..] != ["arm64"] && pieces[|pieces| - 1..] != ["aarch64"]
  {
    assert |pieces| >= 2 ==> pieces[|pieces| - 2..][1] == pieces[|pieces| - 1];
    assert pieces[|pieces| - 1..][0] == pieces[|pieces| - 1];
  }

  lemma TagPlatformByPieces(classes: Classes, tag: string)
    ensures var pieces, platform := Split(tag, '_'), TagPlatform(classes, tag);
            && (platform == Some(LinuxX64) <==> LinuxPieces(classes, pieces, ["x86", "64"]))
            && (platform == Some(LinuxArm64) <==> LinuxPieces(classes, pieces, ["aarch64"]))
            && (platform == Some(MacX64) <==> MacPieces(classes, pieces, ["x86", "64"]))
            && (platform == Some(MacArm64) <==> MacPieces(classes, pieces, ["arm64"]))
            && platform != Some(Sdist)
  {
    hide Split, IsLinuxPolicy, IsMacPolicy;
    var pieces := Split(tag, '_');
    var n := |pieces|;
    ArchesDiffer(pieces);
    if n >= 2 {
      PoliciesDiffer(classes, pieces[..n - 2]);
    }
    PoliciesDiffer(classes, pieces[..n - 1]);
    assert pieces[n - 1..] == [pieces[n - 1]];
  }

  /** The platform of a tag is the one that its text says. */
  lemma TagPlatformMeans(classes: Classes, tag: string, platform: Platform)
    ensures TagPlatform(classes, tag) == Some(platform) <==> TagText(classes, tag, platform)
  {
    TagPlatformByPieces(classes, tag);
    hide Split, Join, LinuxPolicyText, MacPolicyText, LinuxPieces, MacPieces, TagPlatform, Arch;
    match platform {
      case LinuxX64 =>
        X64Pieces();
        LinuxTag(classes, tag, "x86_64");
      case LinuxArm64 =>
        Unsplit("aarch64");
        LinuxTag(classes, tag, "aarch64");
      case MacX64 =>
        X64Pieces();
        MacTag(classes, tag, "x86_64");
      case MacArm64 =>
        Unsplit("arm64");
        MacTag(classes, tag, "arm64");
      case Sdist =>
    }
  }

  lemma Unsplit(s: string)
    requires '_' !in s
    ensures Split(s, '_') == [s]
  {
    SplitOne(s, '_');
  }

  lemma TextOfOne(classes: Classes, tag: string, p: Platform, q: Platform)
    requires TagText(classes, tag, p) && TagText(classes, tag, q)
    ensures p == q
  {
    hide TagText;
    TagPlatformMeans(classes, tag, p);
    TagPlatformMeans(classes, tag, q);
  }

  /** The one platform that all the tags stand for. */
  method PlatformIdentity(classes: Classes, tags: string) returns (r: Option<Platform>)
    ensures forall p :: r == Some(p) <==> IsPlatform(classes, tags, p)
  {
    hide TagPlatform, TagText;
    var pieces := Split(tags, '.');
    forall i, p | 0 <= i < |pieces|
      ensures TagPlatform(classes, pieces[i]) == Some(p) <==> TagText(classes, pieces[i], p)
    {
      TagPlatformMeans(classes, pieces[i], p);
    }
    var identities: set<Platform> := {};
    for i := 0 to |pieces|
      invariant i > 0 ==> identities != {}
      invariant forall j :: 0 <= j < i ==> TagPlatform(classes, pieces[j]).Some? && TagPlatform(classes, pieces[j]).value in identities
      invariant forall p :: p in identities ==> exists j :: 0 <= j < i && TagPlatform(classes, pieces[j]) == Some(p)
    {
      var platform := TagPlatform(classes, pieces[i]);
      if platform.None? {
        return None;
      }
      identities := identities + {platform.value};
    }
    var p :| p in identities;
    if identities != {p} {
      var q :| q in identities && q != p;
      return None;
    }
    return Some(p);
  }

  /** No tags stand for two platforms. */
  lemma OnePlatform(classes: Classes, tags: string, p: Platform, q: Platform)
    requires IsPlatform(classes, tags, p) && IsPlatform(classes, tags, q)
    ensures p == q
  {
    hide TagText;
    TextOfOne(classes, Split(tags, '.')[0], p, q);
  }

  // ----- file names

  /** The parts of a wheel name; the build tag may be left out. */
  datatype Wheel = Wheel(version: string, build: Option<string>, python: string, abi: string, platform: string)

  predicate ValidWheel(classes: Classes, w: Wheel) {
    && w.version != "" && '-' !in w.version
    && (w.build.Some? ==> w.build.value != "" && classes.digit(w.build.value[0]) && '-' !in w.build.value)
    && IsTag(classes, w.python) && IsTag(classes, w.abi) && IsTag(classes, w.platform)
  }

  function WheelPieces(w: Wheel): seq<string> {
    ["itofin", w.version] + (if w.build.Some? then [w.build.value] else []) + [w.python, w.abi, w.platform + ".whl"]
  }

  function WheelName(w: Wheel): string {
    Join("-", WheelPieces(w))
  }

  function SdistName(version: string): string {
    "itofin-" + version + ".tar.gz"
  }

  /** The platform tags in the last piece of a wheel name. */
  function Stem(classes: Classes, last: string): Option<string> {
    if |last| > 4 && last[|last| - 4..] == ".whl" && IsTag(classes, last[..|last| - 4]) then Some(last[..|last| - 4]) else None
  }

  /** Matching a wheel name against the expected pattern. */
  function ParseWheel(classes: Classes, name: string): Option<Wheel> {
    var pieces := Split(name, '-');
    var n := |pieces|;
    if (n == 5 || (n == 6 && pieces[2] != "" && classes.digit(pieces[2][0]))) && pieces[0] == "itofin" && pieces[1] != "" &&
       IsTag(classes, pieces[n - 3]) && IsTag(classes, pieces[n - 2]) && Stem(classes, pieces[n - 1]).Some?
    then Some(Wheel(pieces[1], if n == 6 then Some(pieces[2]) else None, pieces[n - 3], pieces[n - 2], Stem(classes, pieces[n - 1]).value))
    else None
  }

  /** Matching undoes writing. */
  lemma ParseOfName(classes: Classes, w: Wheel)
    requires ValidWheel(classes, w)
    ensures ParseWheel(classes, WheelName(w)) == Some(w)
  {
    hide Split, Join;
    SplitJoin(WheelPieces(w), '-');
    var last := w.platform + ".whl";
    assert last[|last| - 4..] == ".whl" && last[..|last| - 4] == w.platform;
  }

  /** Writing undoes matching. */
  lemma NameOfParse(classes: Classes, name: string)
    requires ParseWheel(classes, name).Some?
    ensures ValidWheel(classes, ParseWheel(classes, name).value) && WheelName(ParseWheel(classes, name).value) == name
  {
    hide Split, Join;
    var pieces := Split(name, '-');
    var n := |pieces|;
    JoinSplit(name, '-');
    assert forall i :: 0 <= i < n ==> '-' !in pieces[i];
    var last := pieces[n - 1];
    assert last == last[..|last| - 4] + ".whl";
    assert WheelPieces(ParseWheel(classes, name).value) == pieces;
  }

  /** The platform that a file name stands for in a release. */
  ghost predicate Identifies(classes: Classes, name: string, version: string, platform: Platform) {
    if name == SdistName(version) then platform == Sdist
    else exists w :: ValidWheel(classes, w) && name == WheelName(w) && w.version == version && IsPlatform(classes, w.platform, platform)
  }

  method FilenameIdentity(classes: Classes, name: string, version: string) returns (r: Option<Platform>)
    ensures forall p :: r == Some(p) <==> Identifies(classes, name, version, p)
  {
    hide ParseWheel, WheelName, ValidWheel, IsPlatform;
    if name == SdistName(version) {
      return Some(Sdist);
    }
    var wheel := ParseWheel(classes, name);
    forall w | ValidWheel(classes, w) && name == WheelName(w)
      ensures wheel == Some(w)
    {
      ParseOfName(classes, w);
    }
    if wheel.None? || wheel.value.version != version {
      return None;
    }
    NameOfParse(classes, name);
    r := PlatformIdentity(classes, wheel.value.platform);
  }

  /** A name stands for at most one platform. */
  lemma OneIdentity(classes: Classes, name: string, version: string, p: Platform, q: Platform)
    requires Identifies(classes, name, version, p) && Identifies(classes, name, version, q)
    ensures p == q
  {
    hide ParseWheel, WheelName, ValidWheel, IsPlatform;
    if name != SdistName(version) {
      var v :| ValidWheel(classes, v) && name == WheelName(v) && v.version == version && IsPlatform(classes, v.platform, p);
      var w :| ValidWheel(classes, w) && name == WheelName(w) && w.version == version && IsPlatform(classes, w.platform, q);
      ParseOfName(classes, v);
      ParseOfName(classes, w);
      OnePlatform(classes, v.platform, p, q);
    }
  }

  // ----- names, letter by letter

  /** The text of a wheel name. */
  function WheelText(w: Wheel): string {
    "itofin-" + w.version + (if w.build.Some? then "-" + w.build.value else "") + "-" + w.python + "-" + w.abi + "-" +
    w.platform + ".whl"
  }

  lemma JoinMore(a: string, rest: seq<string>)
    requires rest != []
    ensures Join("-", [a] + rest) == a + "-" + Join("-", rest)
  {
    JoinCons("-", a, rest);
  }

  lemma JoinThree(a: string, b: string, c: string)
    ensures Join("-", [a, b, c]) == a + "-" + b + "-" + c
  {
    assert Join("-", [c]) == c;
    hide Join;
    assert [a, b, c] == [a] + [b, c] && [b, c] == [b] + [c];
    JoinMore(a, [b, c]);
    JoinMore(b, [c]);
    assert a + "-" + (b + "-" + c) == a + "-" + b + "-" + c;
  }

  /** Names with a lead, a version, perhaps a build, and three more parts. */
  lemma JoinName(lead: string, version: string, build: Option<string>, tail: seq<string>, joined: string)
    requires tail != [] && joined == Join("-", tail)
    ensures Join("-", [lead, version] + (if build.Some? then [build.value] else []) + tail)
         == lead + "-" + version + (if build.Some? then "-" + build.value else "") + "-" + joined
  {
    hide Join;
    if build.Some? {
      assert [lead, version] + [build.value] + tail == [lead] + ([version] + ([build.value] + tail));
      JoinMore(build.value, tail);
      JoinMore(version, [build.value] + tail);
      JoinMore(lead, [version] + ([build.value] + tail));
      var middle := build.value + "-" + joined;
      assert lead + "-" + (version + "-" + middle) == lead + "-" + version + ("-" + build.value) + "-" + joined;
    } else {
      assert [lead, version] + [] + tail == [lead] + ([version] + tail);
      JoinMore(version, tail);
      JoinMore(lead, [version] + tail);
      assert lead + "-" + (version + "-" + joined) == lead + "-" + version + "" + "-" + joined;
    }
  }

  lemma SpellName(lead: string, version: string, build: string, python: string, abi: string, platform: string, end: string)
    ensures lead + "-" + version + build + "-" + (python + "-" + abi + "-" + (platform + end))
         == lead + "-" + version + build + "-" + python + "-" + abi + "-" + platform + end
  {
  }

  lemma WheelNameIsText(w: Wheel)
    ensures WheelName(w) == WheelText(w)
  {
    hide Join;
    JoinThree(w.python, w.abi, w.platform + ".whl");
    var tail := [w.python, w.abi, w.platform + ".whl"];
    JoinName("itofin", w.version, w.build, tail, w.python + "-" + w.abi + "-" + (w.platform + ".whl"));
    SpellName("itofin", w.version, if w.build.Some? then "-" + w.build.value else "", w.python, w.abi, w.platform, ".whl");
    assert "itofin" + "-" == "itofin-";
  }

  /** The parts are not empty; a version has no hyphen, nor has a build tag, which starts with a digit; and the other
      tags are words with dots. */
  predicate TextParts(classes: Classes, w: Wheel) {
    && w.version != "" && '-' !in w.version
    && (w.build.Some? ==> w.build.value != "" && classes.digit(w.build.value[0]) && '-' !in w.build.value)
    && w.python != "" && w.abi != "" && w.platform != ""
    && forall c: char :: c in w.python || c in w.abi || c in w.platform ==> classes.word(c) || c == '.'
  }

  lemma PartsAreText(classes: Classes, w: Wheel)
    ensures ValidWheel(classes, w) <==> TextParts(classes, w)
  {
    TagChars(classes, w.python);
    TagChars(classes, w.abi);
    TagChars(classes, w.platform);
  }

  lemma TagChars(classes: Classes, s: string)
    ensures IsTag(classes, s) <==> s != "" && forall c: char :: c in s ==> classes.word(c) || c == '.'
  {
    forall i | 0 <= i < |s|
      ensures s[i] in s
    {
    }
  }

  /** A name stands for a platform exactly when it is the sdist of the version, or the text of a wheel of the version
      whose platform tags all say that platform. */
  lemma IdentifiesMeans(classes: Classes, name: string, version: string, platform: Platform)
    ensures Identifies(classes, name, version, platform)
       <==> if platform == Sdist then name == "itofin-" + version + ".tar.gz"
            else exists w: Wheel :: w.version == version && TextParts(classes, w) && name == WheelText(w) && SaysPlatform(classes, w, platform)
  {
    hide WheelName, ValidWheel, TextParts, WheelText, IsPlatform;
    forall w: Wheel
      ensures WheelName(w) == WheelText(w) && (ValidWheel(classes, w) <==> TextParts(classes, w))
      ensures IsPlatform(classes, w.platform, platform) <==> SaysPlatform(classes, w, platform)
      ensures WheelText(w) != SdistName(version)
      ensures !IsPlatform(classes, w.platform, Sdist)
    {
      WheelNameIsText(w);
      PartsAreText(classes, w);
      TagsSay(classes, w, platform);
      TextsDiffer(w, version);
      NotSdist(classes, w.platform);
    }
  }

  /** All the platform tags of the wheel say the platform. */
  ghost predicate SaysPlatform(classes: Classes, w: Wheel, platform: Platform) {
    forall tag :: tag in Split(w.platform, '.') ==> TagText(classes, tag, platform)
  }

  lemma TagsSay(classes: Classes, w: Wheel, platform: Platform)
    ensures IsPlatform(classes, w.platform, platform) <==> SaysPlatform(classes, w, platform)
  {
    hide TagText;
  }

  lemma NotSdist(classes: Classes, tags: string)
    ensures !IsPlatform(classes, tags, Sdist)
  {
    assert !TagText(classes, Split(tags, '.')[0], Sdist);
  }

  lemma TextsDiffer(w: Wheel, version: string)
    ensures WheelText(w) != SdistName(version)
  {
    var a, b := WheelText(w), SdistName(version);
    assert a[|a| - 1] == 'l' && b[|b| - 1] == 'z';
  }

  lemma OneTag(classes: Classes, w: Wheel, platform: Platform)
    requires '.' !in w.platform && TagText(classes, w.platform, platform)
    ensures SaysPlatform(classes, w, platform)
  {
    SplitOne(w.platform, '.');
    hide TagText;
  }

  /** The usual tags, for any two numbers. */
  lemma UsualTags(classes: Classes, a: string, b: string)
    requires IsNumber(classes, a) && IsNumber(classes, b)
    ensures TagText(classes, "manylinux_" + a + "_" + b + "_x86_64", LinuxX64)
    ensures TagText(classes, "manylinux_" + a + "_" + b + "_aarch64", LinuxArm64)
    ensures TagText(classes, "macosx_" + a + "_" + b + "_x86_64", MacX64)
    ensures TagText(classes, "macosx_" + a + "_" + b + "_arm64", MacArm64)
  {
    Lead(classes, "manylinux", a, b);
    Lead(classes, "macosx", a, b);
    assert "manylinux_" == "manylinux" + "_" && "macosx_" == "macosx" + "_";
    var linux, mac := "manylinux" + "_" + a + "_" + b, "macosx" + "_" + a + "_" + b;
    hide Numbered, IsNumber;
    assert LinuxPolicyText(classes, linux) && MacPolicyText(classes, mac);
    assert Arch("manylinux_" + a + "_" + b + "_x86_64", linux, "x86_64");
    assert Arch("manylinux_" + a + "_" + b + "_aarch64", linux, "aarch64");
    assert Arch("macosx_" + a + "_" + b + "_x86_64", mac, "x86_64");
    assert Arch("macosx_" + a + "_" + b + "_arm64", mac, "arm64");
  }

  lemma Lead(classes: Classes, lead: string, a: string, b: string)
    requires IsNumber(classes, a) && IsNumber(classes, b)
    ensures Numbered(classes, lead + "_" + a + "_" + b, lead)
  {
  }
}
