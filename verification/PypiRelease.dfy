/** Keeping only the distributions that are still missing from PyPI (scripts/prepare_release_pypi.py). */
module PypiRelease {
  import opened Results
  import opened Text
  import opened PypiNames
  import opened PypiMetadata

  /** Why a run stops before it deletes anything. */
  datatype Error = WrongTag | IncompleteSet | ForeignRelease | InvalidFile | Conflict | ChangedLocally

  /** The platforms of a complete release. */
  function Required(): set<Platform> {
    {LinuxX64, LinuxArm64, MacX64, MacArm64, Sdist}
  }

  /** What a name in the release directory stands for. */
  datatype Node = Regular(content: string) | Irregular

  type Directory = map<string, Node>

  /** A file of the release, as the registry lists it. */
  datatype Listed = Listed(filename: string, digest: string, yanked: bool, trusted: bool)

  /** The registry's answer about a release. */
  datatype Response = Absent | Unavailable | Malformed | Release(name: string, version: string, urls: seq<Listed>)

  /** The tools of the script: SHA-256, the character classes of its patterns, the readers of archives, and the
      download of a listed file. */
  datatype Tools = Tools(digest: string -> string, classes: Classes, reader: Reader, download: Listed -> Option<string>)

  // ----- what is published

  /** A listed file with a name of this release and a well-formed digest. */
  ghost predicate WellListed(tools: Tools, e: Listed, version: string) {
    IsDigest(e.digest) && exists p :: Identifies(tools.classes, e.filename, version, p)
  }

  ghost predicate DistinctNames(urls: seq<Listed>) {
    forall i, j :: 0 <= i < j < |urls| ==> urls[i].filename != urls[j].filename
  }

  /** The listed files of a release by name. */
  function ByName(urls: seq<Listed>): map<string, Listed> {
    if urls == [] then map[]
    else
      var last := urls[|urls| - 1];
      ByName(urls[..|urls| - 1])[last.filename := last]
  }

  lemma {:induction false} ByNameHas(urls: seq<Listed>)
    requires DistinctNames(urls)
    ensures forall i :: 0 <= i < |urls| ==> urls[i].filename in ByName(urls) && ByName(urls)[urls[i].filename] == urls[i]
    ensures forall n :: n in ByName(urls) ==> exists i :: 0 <= i < |urls| && urls[i].filename == n
  {
    if urls != [] {
      var m := |urls| - 1;
      var before, last := urls[..m], urls[m];
      ByNameHas(before);
      assert ByName(urls) == ByName(before)[last.filename := last];
      hide ByName;
      forall i | 0 <= i < |urls|
        ensures urls[i].filename in ByName(urls) && ByName(urls)[urls[i].filename] == urls[i]
      {
        assert i < m ==> before[i] == urls[i] && urls[i].filename != last.filename;
      }
      forall n | n in ByName(urls)
        ensures exists i :: 0 <= i < |urls| && urls[i].filename == n
      {
        if n == last.filename {
          assert urls[m].filename == n;
        } else {
          var i :| 0 <= i < m && before[i].filename == n;
          assert urls[i].filename == n;
        }
      }
    }
  }

  /** A response that the script accepts. */
  ghost predicate GoodResponse(tools: Tools, response: Response, version: string) {
    match response
    case Absent => true
    case Unavailable => false
    case Malformed => false
    case Release(name, v, urls) =>
      name == "itofin" && v == version && DistinctNames(urls) && forall i :: 0 <= i < |urls| ==> WellListed(tools, urls[i], version)
  }

  ghost function Published(response: Response): map<string, Listed> {
    if response.Release? then ByName(response.urls) else map[]
  }

  method CheckListed(tools: Tools, e: Listed, version: string) returns (ok: bool)
    ensures ok <==> WellListed(tools, e, version)
  {
    hide Identifies;
    var platform := FilenameIdentity(tools.classes, e.filename, version);
    ok := platform.Some? && IsDigest(e.digest);
    if platform.Some? {
      assert Identifies(tools.classes, e.filename, version, platform.value);
    }
  }

  lemma ByNameSteps(urls: seq<Listed>, i: nat)
    requires i < |urls|
    ensures ByName(urls[..i + 1]) == ByName(urls[..i])[urls[i].filename := urls[i]]
  {
    assert urls[..i + 1][..i] == urls[..i];
  }

  lemma DistinctSteps(urls: seq<Listed>, i: nat)
    requires i < |urls| && DistinctNames(urls[..i])
    ensures urls[i].filename !in ByName(urls[..i]) ==> DistinctNames(urls[..i + 1])
    ensures urls[i].filename in ByName(urls[..i]) ==> !DistinctNames(urls)
  {
    hide ByName;
    ByNameHas(urls[..i]);
    if urls[i].filename in ByName(urls[..i]) {
      var j :| 0 <= j < i && urls[..i][j].filename == urls[i].filename;
      assert urls[j].filename == urls[i].filename;
    } else {
      forall j | 0 <= j < i
        ensures urls[j].filename != urls[i].filename
      {
        assert urls[..i][j].filename in ByName(urls[..i]);
      }
    }
  }

  method PublishedFiles(tools: Tools, response: Response, version: string) returns (r: Result<map<string, Listed>, Error>)
    ensures r.Ok? <==> GoodResponse(tools, response, version)
    ensures r.Ok? ==> r.value == Published(response)
  {
    hide ByName, DistinctNames, WellListed;
    if response.Absent? {
      return Ok(map[]);
    }
    if !response.Release? || response.name != "itofin" || response.version != version {
      return Err(ForeignRelease);
    }
    var urls := response.urls;
    var result: map<string, Listed> := map[];
    NoneListed();
    assert urls[..0] == [];
    for i := 0 to |urls|
      invariant DistinctNames(urls[..i])
      invariant forall j :: 0 <= j < i ==> WellListed(tools, urls[j], version)
      invariant result == ByName(urls[..i])
    {
      var e := urls[i];
      DistinctSteps(urls, i);
      ByNameSteps(urls, i);
      if e.filename in result {
        return Err(InvalidFile);
      }
      var ok := CheckListed(tools, e, version);
      if !ok {
        return Err(InvalidFile);
      }
      result := result[e.filename := e];
    }
    assert urls[..|urls|] == urls;
    return Ok(result);
  }

  lemma NoneListed()
    ensures DistinctNames([]) && ByName([]) == map[]
  {
  }

  // ----- what the directory must hold

  /** A file of the directory that is a distribution of this release for a platform. */
  ghost predicate StandsFor(tools: Tools, version: string, dir: Directory, name: string, platform: Platform) {
    && name in dir && dir[name].Regular?
    && Identifies(tools.classes, name, version, platform)
    && HasMetadata(tools.reader, version, name, dir[name].content)
  }

  ghost predicate EachStands(tools: Tools, version: string, dir: Directory, names: set<string>, platforms: set<Platform>) {
    forall n :: n in names ==> exists p :: p in platforms && StandsFor(tools, version, dir, n, p)
  }

  ghost predicate EachIsThere(tools: Tools, version: string, dir: Directory, names: set<string>, platforms: set<Platform>) {
    forall p :: p in platforms ==> exists n :: n in names && StandsFor(tools, version, dir, n, p)
  }

  /** The directory holds five distributions, one for each required platform. */
  ghost predicate Complete(tools: Tools, version: string, dir: Directory) {
    && |dir| == |Required()|
    && EachStands(tools, version, dir, dir.Keys, Required())
    && EachIsThere(tools, version, dir, dir.Keys, Required())
  }

  /** A listed file that is byte for byte the local one, as far as the digests tell. */
  predicate Matches(tools: Tools, e: Listed, node: Node, verifyDownloads: bool) {
    && node.Regular?
    && !e.yanked
    && e.digest == tools.digest(node.content)
    && (verifyDownloads ==>
          e.trusted && tools.download(e).Some? && tools.digest(tools.download(e).value) == e.digest)
  }

  /** The file did not change while the registry was asked. */
  predicate Unchanged(tools: Tools, before: Node, after: Node) {
    before.Regular? && after.Regular? && tools.digest(after.content) == tools.digest(before.content)
  }

  /** Every published file is one of the local ones, unchanged. */
  ghost predicate Agrees(tools: Tools, before: Directory, published: map<string, Listed>, verifyDownloads: bool) {
    forall n :: n in published ==> n in before && Matches(tools, published[n], before[n], verifyDownloads)
  }

  ghost predicate Stable(tools: Tools, before: Directory, during: Directory) {
    forall n :: n in before ==> n in during && Unchanged(tools, before[n], during[n])
  }

  /** Everything that is checked before the first file is deleted. */
  ghost predicate AllChecks(tools: Tools, version: string, before: Directory, during: Directory, response: Response,
                            verifyDownloads: bool) {
    && Complete(tools, version, before)
    && GoodResponse(tools, response, version)
    && Agrees(tools, before, Published(response), verifyDownloads)
    && Stable(tools, before, during)
  }

  /** A listing of the directory: every name once. */
  ghost predicate IsListing(listing: seq<string>, dir: Directory) {
    && (forall n :: n in listing <==> n in dir)
    && (forall i, j :: 0 <= i < j < |listing| ==> listing[i] != listing[j])
  }

  lemma {:induction false} ListingSize(listing: seq<string>, names: set<string>)
    requires forall n :: n in listing <==> n in names
    requires forall i, j :: 0 <= i < j < |listing| ==> listing[i] != listing[j]
    ensures |listing| == |names|
  {
    if listing == [] {
      assert names == {};
    } else {
      var rest := listing[1..];
      forall n
        ensures n in rest <==> n in names - {listing[0]}
      {
        if n in names && n != listing[0] {
          var i :| 0 <= i < |listing| && listing[i] == n;
          assert rest[i - 1] == n;
        }
      }
      ListingSize(rest, names - {listing[0]});
    }
  }

  lemma OneMoreStands(tools: Tools, version: string, dir: Directory, names: set<string>, platforms: set<Platform>, n: string, p: Platform)
    requires EachStands(tools, version, dir, names, platforms) && StandsFor(tools, version, dir, n, p)
    ensures EachStands(tools, version, dir, names + {n}, platforms + {p})
  {
  }

  lemma OneMoreIsThere(tools: Tools, version: string, dir: Directory, names: set<string>, platforms: set<Platform>, n: string, p: Platform)
    requires EachIsThere(tools, version, dir, names, platforms) && StandsFor(tools, version, dir, n, p)
    ensures EachIsThere(tools, version, dir, names + {n}, platforms + {p})
  {
    hide StandsFor;
  }

  lemma StandsOnce(tools: Tools, version: string, dir: Directory, n: string, p: Platform, q: Platform)
    requires StandsFor(tools, version, dir, n, p) && StandsFor(tools, version, dir, n, q)
    ensures p == q
  {
    hide Identifies;
    OneIdentity(tools.classes, n, version, p, q);
  }

  lemma PlatformsWithin(tools: Tools, version: string, dir: Directory, names: set<string>, a: set<Platform>, b: set<Platform>)
    requires EachIsThere(tools, version, dir, names, a) && EachStands(tools, version, dir, names, b)
    ensures a <= b
  {
    hide StandsFor;
    forall p | p in a
      ensures p in b
    {
      var n :| n in names && StandsFor(tools, version, dir, n, p);
      var q :| q in b && StandsFor(tools, version, dir, n, q);
      StandsOnce(tools, version, dir, n, p, q);
    }
  }

  /** What a file stands for, if it is a proper distribution. */
  method ArtifactIdentity(tools: Tools, version: string, dir: Directory, name: string) returns (r: Option<Platform>)
    requires name in dir
    ensures forall p :: r == Some(p) <==> StandsFor(tools, version, dir, name, p)
  {
    hide Identifies, HasMetadata;
    if dir[name].Irregular? {
      return None;
    }
    r := FilenameIdentity(tools.classes, name, version);
    var ok := CheckMetadata(tools.reader, version, name, dir[name].content);
    if !ok {
      return None;
    }
  }

  lemma NothingYet(tools: Tools, version: string, dir: Directory)
    ensures EachStands(tools, version, dir, {}, {}) && EachIsThere(tools, version, dir, {}, {})
  {
  }

  lemma NotComplete(tools: Tools, version: string, dir: Directory, name: string)
    requires name in dir && forall p :: !StandsFor(tools, version, dir, name, p)
    ensures !Complete(tools, version, dir)
  {
  }

  method CheckArtifacts(tools: Tools, version: string, dir: Directory, listing: seq<string>) returns (ok: bool)
    requires IsListing(listing, dir)
    ensures ok <==> Complete(tools, version, dir)
  {
    hide StandsFor, Required, EachStands, EachIsThere;
    NothingYet(tools, version, dir);
    ListingSize(listing, dir.Keys);
    if |listing| != |Required()| {
      return false;
    }
    var identities: set<Platform> := {};
    assert listing[..0] == [];
    ghost var names: set<string> := {};
    for i := 0 to |listing|
      invariant names == set n | n in listing[..i]
      invariant EachStands(tools, version, dir, names, identities)
      invariant EachIsThere(tools, version, dir, names, identities)
    {
      var name := listing[i];
      assert name in dir.Keys;
      var platform := ArtifactIdentity(tools, version, dir, name);
      if platform.None? {
        NotComplete(tools, version, dir, name);
        return false;
      }
      OneMoreStands(tools, version, dir, names, identities, name, platform.value);
      OneMoreIsThere(tools, version, dir, names, identities, name, platform.value);
      assert listing[..i + 1] == listing[..i] + [name];
      identities := identities + {platform.value};
      names := names + {name};
    }
    assert listing[..|listing|] == listing && names == dir.Keys;
    if Complete(tools, version, dir) {
      PlatformsWithin(tools, version, dir, dir.Keys, identities, Required());
      PlatformsWithin(tools, version, dir, dir.Keys, Required(), identities);
    }
    ok := identities == Required() && |identities| == |listing|;
  }

  /** Five files are complete when each platform has one. */
  lemma CompleteMeans(tools: Tools, version: string, dir: Directory)
    ensures Complete(tools, version, dir) <==> |dir| == 5 && forall p: Platform :: HasOne(tools, version, dir, p)
  {
    hide StandsFor, HasOne, EachStands, EachIsThere;
    assert |Required()| == 5;
    if |dir| == 5 && forall p: Platform :: HasOne(tools, version, dir, p) {
      AllStand(tools, version, dir);
      OnesAreThere(tools, version, dir);
    }
    if Complete(tools, version, dir) {
      forall p: Platform
        ensures HasOne(tools, version, dir, p)
      {
        ThereIsOne(tools, version, dir, p);
      }
    }
  }

  lemma OnesAreThere(tools: Tools, version: string, dir: Directory)
    requires forall p: Platform :: HasOne(tools, version, dir, p)
    ensures EachIsThere(tools, version, dir, dir.Keys, Required())
  {
    hide StandsFor;
    forall p | p in Required()
      ensures exists n :: n in dir.Keys && StandsFor(tools, version, dir, n, p)
    {
      assert HasOne(tools, version, dir, p);
    }
  }

  lemma ThereIsOne(tools: Tools, version: string, dir: Directory, p: Platform)
    requires EachIsThere(tools, version, dir, dir.Keys, Required())
    ensures HasOne(tools, version, dir, p)
  {
    hide StandsFor;
    assert p in Required();
    var n :| n in dir.Keys && StandsFor(tools, version, dir, n, p);
  }

  ghost predicate HasOne(tools: Tools, version: string, dir: Directory, p: Platform) {
    exists n :: n in dir && StandsFor(tools, version, dir, n, p)
  }

  lemma AllStand(tools: Tools, version: string, dir: Directory)
    requires |dir| == 5 && forall p: Platform :: HasOne(tools, version, dir, p)
    ensures EachStands(tools, version, dir, dir.Keys, Required())
  {
    hide StandsFor;
    assert HasOne(tools, version, dir, LinuxX64) && HasOne(tools, version, dir, LinuxArm64);
    assert HasOne(tools, version, dir, MacX64) && HasOne(tools, version, dir, MacArm64) && HasOne(tools, version, dir, Sdist);
    var a :| a in dir && StandsFor(tools, version, dir, a, LinuxX64);
    var b :| b in dir && StandsFor(tools, version, dir, b, LinuxArm64);
    var c :| c in dir && StandsFor(tools, version, dir, c, MacX64);
    var d :| d in dir && StandsFor(tools, version, dir, d, MacArm64);
    var e :| e in dir && StandsFor(tools, version, dir, e, Sdist);
    forall n, p, q | StandsFor(tools, version, dir, n, p) && StandsFor(tools, version, dir, n, q)
      ensures p == q
    {
      StandsOnce(tools, version, dir, n, p, q);
    }
    var five := {a, b, c, d, e};
    assert |five| == 5;
    assert |dir.Keys| == |dir|;
    PartOrAll(five, dir.Keys);
  }

  /** A regular file with the metadata of the version. */
  ghost predicate GoodFile(tools: Tools, version: string, dir: Directory, name: string) {
    name in dir && dir[name].Regular? && HasMetadata(tools.reader, version, name, dir[name].content)
  }

  /** The sdist and four wheels by the text of their names, all with good metadata, are complete. */
  lemma FiveDistributions(tools: Tools, version: string, dir: Directory, wheels: map<Platform, Wheel>)
    requires |dir| == 5 && GoodFile(tools, version, dir, "itofin-" + version + ".tar.gz")
    requires forall p: Platform :: p != Sdist ==>
               && p in wheels && wheels[p].version == version && TextParts(tools.classes, wheels[p])
               && SaysPlatform(tools.classes, wheels[p], p) && GoodFile(tools, version, dir, WheelText(wheels[p]))
    ensures Complete(tools, version, dir)
  {
    hide Identifies, Complete, TextParts, WheelText, SaysPlatform, HasMetadata;
    forall p: Platform
      ensures HasOne(tools, version, dir, p)
    {
      var name := if p == Sdist then "itofin-" + version + ".tar.gz" else WheelText(wheels[p]);
      IdentifiesMeans(tools.classes, name, version, p);
      assert StandsFor(tools, version, dir, name, p);
    }
    CompleteMeans(tools, version, dir);
  }

  /** Nothing changed while the registry was asked exactly when every file is still there, regular, with the digest that
      it had. */
  lemma StableMeans(tools: Tools, before: Directory, during: Directory)
    ensures Stable(tools, before, during)
       <==> forall n :: n in before ==>
              && n in during && before[n].Regular? && during[n].Regular?
              && tools.digest(before[n].content) == tools.digest(during[n].content)
  {
  }

  /** What the published files must be, in terms of the listed entries: each is a local file, with its digest, not
      yanked, and a trusted download of it has that digest too if downloads are verified. */
  lemma AgreesMeans(tools: Tools, before: Directory, response: Response, verifyDownloads: bool)
    requires response.Release? && DistinctNames(response.urls)
    ensures Agrees(tools, before, Published(response), verifyDownloads)
       <==> forall i :: 0 <= i < |response.urls| ==>
              var e := response.urls[i];
              && e.filename in before && before[e.filename].Regular? && !e.yanked
              && e.digest == tools.digest(before[e.filename].content)
              && (verifyDownloads ==>
                    e.trusted && tools.download(e).Some? && tools.digest(tools.download(e).value) == e.digest)
  {
    hide ByName, DistinctNames;
    ByNameHas(response.urls);
    var published := Published(response);
    if Agrees(tools, before, published, verifyDownloads) {
      forall i | 0 <= i < |response.urls|
        ensures response.urls[i].filename in before &&
                Matches(tools, response.urls[i], before[response.urls[i].filename], verifyDownloads)
      {
        assert response.urls[i].filename in published;
      }
    } else {
      var n :| n in published && !(n in before && Matches(tools, published[n], before[n], verifyDownloads));
      var i :| 0 <= i < |response.urls| && response.urls[i].filename == n;
    }
  }

  // ----- the run

  function NameSet(names: seq<string>): set<string> {
    set n | n in names
  }

  /** The local files that the registry has, if it has nothing else and they all match. */
  method CheckPublished(tools: Tools, before: Directory, remote: map<string, Listed>, listing: seq<string>, verifyDownloads: bool)
    returns (ok: bool, removable: seq<string>)
    requires IsListing(listing, before)
    ensures ok <==> Agrees(tools, before, remote, verifyDownloads)
    ensures ok ==> NameSet(removable) == remote.Keys
    ensures ok ==> |removable| == |remote|
  {
    hide Matches;
    removable := [];
    if !(remote.Keys <= before.Keys) {
      var n :| n in remote && n !in before;
      return false, [];
    }
    for i := 0 to |listing|
      invariant forall j :: 0 <= j < i && listing[j] in remote ==>
        listing[j] in before && Matches(tools, remote[listing[j]], before[listing[j]], verifyDownloads)
      invariant forall n :: n in removable <==> n in listing[..i] && n in remote
      invariant forall j, k :: 0 <= j < k < |removable| ==> removable[j] != removable[k]
    {
      var name := listing[i];
      assert name in before && name !in listing[..i];
      if name in remote {
        if !Matches(tools, remote[name], before[name], verifyDownloads) {
          return false, [];
        }
        removable := removable + [name];
      }
    }
    ListingSize(removable, remote.Keys);
    return true, removable;
  }

  lemma PartOrAll(part: set<string>, all: set<string>)
    requires part <= all
    ensures |part| == |all| <==> part == all
  {
    assert all == part + (all - part);
  }

  lemma PublishedIsPart(tools: Tools, before: Directory, remote: map<string, Listed>, verifyDownloads: bool, listing: seq<string>)
    requires Agrees(tools, before, remote, verifyDownloads) && IsListing(listing, before)
    ensures |remote| == |listing| <==> remote.Keys == before.Keys
  {
    hide Matches;
    assert |remote| == |remote.Keys|;
    ListingSize(listing, before.Keys);
    PartOrAll(remote.Keys, before.Keys);
  }

  method CheckStable(tools: Tools, before: Directory, during: Directory, listing: seq<string>) returns (ok: bool)
    requires IsListing(listing, before)
    ensures ok <==> Stable(tools, before, during)
  {
    for i := 0 to |listing|
      invariant forall j :: 0 <= j < i ==>
        listing[j] in before && listing[j] in during && Unchanged(tools, before[listing[j]], during[listing[j]])
    {
      var name := listing[i];
      assert name in before;
      if name !in during || !Unchanged(tools, before[name], during[name]) {
        return false;
      }
    }
    return true;
  }

  class Workspace {
    var files: Directory

    constructor (files: Directory)
      ensures this.files == files
    {
      this.files := files;
    }

    method Unlink(names: seq<string>)
      modifies this
      ensures files == old(files) - NameSet(names)
    {
      for i := 0 to |names|
        invariant files == old(files) - NameSet(names[..i])
      {
        assert names[..i + 1] == names[..i] + [names[i]];
        files := files - {names[i]};
      }
      assert names[..|names|] == names;
    }

    /** Validates everything, and then deletes what is published.  `during` is the directory as another process
        may have left it while the registry was asked. */
    method Prepare(tools: Tools, tag: string, version: Option<string>, listing: seq<string>, response: Response,
                   during: Directory, verifyDownloads: bool) returns (r: Result<bool, Error>)
      requires IsListing(listing, files)
      modifies this
      ensures r.Ok? <==> version.Some? && tag == "v" + version.value &&
                         AllChecks(tools, version.value, old(files), during, response, verifyDownloads)
      ensures r.Ok? ==> files == during - Published(response).Keys
      ensures r.Ok? ==> r.value == (Published(response).Keys != old(files).Keys)
      ensures r.Err? ==> files == old(files) || files == during
    {
      hide Complete, GoodResponse, Agrees, Stable, Published, IsListing, NameSet;
      if version.None? || tag != "v" + version.value {
        return Err(WrongTag);
      }
      var before := files;
      var ok := CheckArtifacts(tools, version.value, before, listing);
      if !ok {
        return Err(IncompleteSet);
      }
      files := during;
      var published := PublishedFiles(tools, response, version.value);
      if published.Err? {
        return Err(published.error);
      }
      var removable;
      ok, removable := CheckPublished(tools, before, published.value, listing, verifyDownloads);
      if !ok {
        return Err(Conflict);
      }
      ok := CheckStable(tools, before, during, listing);
      if !ok {
        return Err(ChangedLocally);
      }
      Unlink(removable);
      PublishedIsPart(tools, before, published.value, verifyDownloads, listing);
      r := Ok(|removable| != |listing|);
    }
  }
}
