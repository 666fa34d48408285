/** Attaching the native archives to a release and publishing its Go tag (scripts/publish_go_release.py:172-234). */
module GoPublish {
  import opened Results
  import opened GoArchive
  import opened GoChecksums
  import opened GoStore
  import opened GoHistory
  import opened GoOptional

  /** What a run starts from: the release that its checkout is at, whether the version and the module of the
      checkout are right, and the local archives and checksum files. */
  datatype Checkout = Checkout(id: Identity, sound: bool, files: Assets)

  datatype Report = Report(checksums: map<Platform, string>, optional: Outcome)

  const REQUIRED := [LinuxAmd64, LinuxArm64, DarwinAmd64, DarwinArm64]

  lemma RequiredListed(p: Platform)
    ensures Required(p) <==> p in REQUIRED
  {
  }

  // ----- what a run needs

  predicate TagResolves(objects: map<string, Target>, refs: map<Tag, Target>, tag: Tag, revision: string) {
    tag in refs && Resolve(objects, refs[tag], TAG_CHECKS) == Some(revision)
  }

  /** The required part of a checkout is usable: every archive is of the release and has its checksum file. */
  ghost predicate LocalReady(checkout: Checkout) {
    checkout.sound && Complete(checkout.id, checkout.files)
  }

  ghost predicate TagsReady(checkout: Checkout, objects: map<string, Target>, refs: map<Tag, Target>) {
    && TagResolves(objects, refs, CoreTag, checkout.id.revision)
    && (GoTag in refs ==> TagResolves(objects, refs, GoTag, checkout.id.revision))
  }

  // ----- what a run leaves behind

  /** Every state since `first` came about by a step, and none added an orphan unless an upload was lost since
      `since`. */
  ghost predicate Traced(store: Store, id: Identity, first: nat, since: nat)
    reads store
  {
    && store.Valid() && first < |store.history| && since <= store.clock
    && Steps(id, store.history, first)
    && (Lossless(store.faults, since, store.clock) ==> NoNewOrphans(store.history, first))
  }

  ghost predicate Lossless(faults: nat -> Fault, since: nat, until: nat) {
    forall t :: since <= t < until ==> faults(t) != Lost
  }

  lemma LosslessParts(faults: nat -> Fault, since: nat, between: nat, until: nat)
    requires since <= between <= until && Lossless(faults, since, until)
    ensures Lossless(faults, since, between) && Lossless(faults, between, until)
  {
  }

  lemma ExtendSteps(id: Identity, history: seq<Snapshot>, t: Snapshot, first: nat)
    requires history != [] && Steps(id, history, first) && Step(id, history[|history| - 1], t)
    ensures Steps(id, history + [t], first)
  {
  }

  lemma ExtendNoNewOrphans(history: seq<Snapshot>, t: Snapshot, first: nat)
    requires history != [] && NoNewOrphans(history, first) && NoNewOrphan(history[|history| - 1], t)
    ensures NoNewOrphans(history + [t], first)
  {
  }

  lemma ExtendUntouched(id: Identity, before: seq<Snapshot>, after: seq<Snapshot>, first: nat)
    requires before <= after && before != [] && AllUntouched(before[|before| - 1], after, |before|)
    ensures Steps(id, before, first) ==> Steps(id, after, first)
    ensures NoNewOrphans(before, first) ==> NoNewOrphans(after, first)
    decreases |after|
  {
    hide Step, NoNewOrphan, Untouched;
    var s := before[|before| - 1];
    forall i | first <= i < |after| - 1
      ensures Steps(id, before, first) ==> Step(id, after[i], after[i + 1])
      ensures NoNewOrphans(before, first) ==> NoNewOrphan(after[i], after[i + 1])
    {
      if i + 1 < |before| {
        assert before[i] == after[i] && before[i + 1] == after[i + 1];
      } else {
        assert Untouched(s, after[i + 1]);
        assert i >= |before| ==> Untouched(s, after[i]);
        assert i < |before| ==> after[i] == s;
        UntouchedChain(s, after[i], after[i + 1]);
        UntouchedIsStep(id, after[i], after[i + 1]);
      }
    }
  }

  lemma UntouchedChain(s: Snapshot, a: Snapshot, b: Snapshot)
    requires (a == s || Untouched(s, a)) && Untouched(s, b)
    ensures Untouched(a, b)
  {
  }

  // ----- steps

  lemma ArchiveStep(id: Identity, s: Snapshot, p: Platform, bytes: string)
    requires Required(p) && Archive(p) !in s.assets && Checksum(p) !in s.assets
    requires HasIdentity(id.tools, id.version, id.revision, p, bytes)
    ensures var t := Snapshot(s.assets[Archive(p) := bytes], s.refs); Step(id, s, t) && NoNewOrphan(s, t)
  {
    hide HasIdentity, ChecksumSays, Complete;
  }

  lemma ChecksumStep(id: Identity, s: Snapshot, p: Platform, text: string)
    requires Required(p) && Checksum(p) !in s.assets
    requires Archive(p) in s.assets ==> ArchiveOk(id, s.assets, p) && Describes(id, text, p, s.assets[Archive(p)])
    ensures var t := Snapshot(s.assets[Checksum(p) := text], s.refs);
            Step(id, s, t) && (Archive(p) in s.assets ==> NoNewOrphan(s, t))
  {
    hide HasIdentity, ChecksumSays, Complete;
  }

  lemma TagStep(id: Identity, s: Snapshot)
    requires GoTag !in s.refs && Complete(id, s.assets)
    ensures var t := Snapshot(s.assets, s.refs[GoTag := Commit(id.revision)]); Step(id, s, t) && NoNewOrphan(s, t)
  {
  }

  lemma StandStill(id: Identity, s: Snapshot)
    ensures Step(id, s, s) && NoNewOrphan(s, s)
  {
  }

  // ----- a required platform

  /** Nothing but the pair of a platform differs. */
  ghost predicate OnlyPair(a: Assets, b: Assets, p: Platform) {
    forall x :: x != Archive(p) && x != Checksum(p) ==> Same(a, b, x)
  }

  /** An upload that is a step. */
  method Attach(store: Store, id: Identity, p: Platform, asset: Asset, bytes: string, ghost first: nat, ghost since: nat)
      returns (r: Result<(), Error>)
    requires Traced(store, id, first, since) && asset !in store.assets && (asset == Archive(p) || asset == Checksum(p))
    requires var s := store.Now();
             var t := Snapshot(store.assets[asset := bytes], store.refs);
             Step(id, s, t) && (Lossless(store.faults, since, store.clock) ==> NoNewOrphan(s, t))
    modifies store`clock, store`assets, store`history
    ensures Traced(store, id, first, since) && old(store.history) <= store.history && store.clock == old(store.clock) + 1
    ensures OnlyPair(old(store.assets), store.assets, p)
    ensures var fault := store.faults(old(store.clock));
            store.assets == (if fault == Works || fault == FailsAfter then old(store.assets)[asset := bytes] else old(store.assets)) &&
            (r.Ok? <==> fault == Works || fault == Lost)
  {
    hide Step, NoNewOrphan, Steps, NoNewOrphans;
    ghost var s := store.Now();
    ghost var before := store.history;
    r := store.Upload(asset, bytes);
    ghost var t := store.Now();
    StandStill(id, s);
    ExtendSteps(id, before, t, first);
    if Lossless(store.faults, since, store.clock) {
      LosslessParts(store.faults, since, old(store.clock), store.clock);
      ExtendNoNewOrphans(before, t, first);
    }
  }

  /** The upload of an archive is reported to work and gets lost, and that of its checksum file arrives. */
  predicate LosesArchive(faults: nat -> Fault, clock: nat) {
    faults(clock) == Lost && (faults(clock + 1) == Works || faults(clock + 1) == FailsAfter)
  }

  /** A new archive and its checksum file; the upload of the archive may get lost. */
  method AttachPair(store: Store, id: Identity, p: Platform, archive: string, checksum: string,
                    ghost first: nat, ghost since: nat) returns (r: Result<(), Error>)
    requires Traced(store, id, first, since) && Required(p) && Archive(p) !in store.assets && Checksum(p) !in store.assets
    requires HasIdentity(id.tools, id.version, id.revision, p, archive) && Describes(id, checksum, p, archive)
    modifies store`clock, store`assets, store`history
    ensures Traced(store, id, first, since) && old(store.history) <= store.history && store.clock >= old(store.clock)
    ensures OnlyPair(old(store.assets), store.assets, p)
    ensures r.Ok? && Archive(p) in store.assets && Checksum(p) in store.assets ==>
              PairOk(id, store.assets, p) && store.assets[Archive(p)] == archive
    ensures AllWork(store.faults, old(store.clock)) ==> r.Ok? && Archive(p) in store.assets && Checksum(p) in store.assets
    ensures Orphan(store.assets, p) <==> LosesArchive(store.faults, old(store.clock))
    ensures store.faults(old(store.clock)) == Lost && store.faults(old(store.clock) + 1) == Works ==> r.Ok?
  {
    hide HasIdentity, ChecksumSays, Step, NoNewOrphan, Steps, NoNewOrphans;
    ArchiveStep(id, store.Now(), p, archive);
    var _ :- Attach(store, id, p, Archive(p), archive, first, since);
    ChecksumStep(id, store.Now(), p, checksum);
    r := Attach(store, id, p, Checksum(p), checksum, first, since);
  }

  /** One turn of the loop over the required platforms. An archive whose upload is lost leaves an orphan. */
  method PublishPlatform(store: Store, id: Identity, files: Assets, p: Platform, listed: set<Asset>,
                         ghost first: nat, ghost since: nat) returns (r: Result<string, Error>)
    requires Traced(store, id, first, since) && GoodTools(id.tools) && IsToken(id.version)
    requires Required(p) && Archive(p) in files
    requires (Archive(p) in listed <==> Archive(p) in store.assets) && (Checksum(p) in listed <==> Checksum(p) in store.assets)
    modifies store`clock, store`assets, store`history
    ensures Traced(store, id, first, since) && old(store.history) <= store.history && store.clock >= old(store.clock)
    ensures OnlyPair(old(store.assets), store.assets, p)
    ensures r.Ok? && Archive(p) in store.assets && Checksum(p) in store.assets ==>
              PairOk(id, store.assets, p) && r.value == id.tools.digest(store.assets[Archive(p)])
    ensures AllWork(store.faults, old(store.clock)) ==>
              (r.Ok? <==> PairOk(id, files, p) && old(Sound(id, store.assets, p))) &&
              (r.Ok? ==> Archive(p) in store.assets && Checksum(p) in store.assets)
    ensures old(!Orphan(store.assets, p)) ==>
              (Orphan(store.assets, p) <==>
                old(Archive(p) !in store.assets && Checksum(p) !in store.assets) && PairOk(id, files, p) &&
                LosesArchive(store.faults, old(store.clock)))
    ensures old(Archive(p) !in store.assets && Checksum(p) !in store.assets) && PairOk(id, files, p) ==>
              store.faults(old(store.clock)) == Lost && store.faults(old(store.clock) + 1) == Works ==> r.Ok?
  {
    hide HasIdentity, ChecksumSays, Step, NoNewOrphan, Steps, NoNewOrphans;
    var name := ArchiveName(id.version, p);
    var archive := files[Archive(p)];
    if !HasIdentity(id.tools, id.version, id.revision, p, archive) || Checksum(p) !in files {
      return Err(Rejected);
    }
    var digest, checksum := id.tools.digest(archive), files[Checksum(p)];
    if !ChecksumSays(checksum, digest, name) || (Checksum(p) in listed && Archive(p) !in listed) {
      return Err(Rejected);
    }
    if Archive(p) in listed {
      archive :- store.Download(Archive(p));
      if !HasIdentity(id.tools, id.version, id.revision, p, archive) {
        return Err(Rejected);
      }
      digest := id.tools.digest(archive);
      if Checksum(p) in listed {
        var published :- store.Download(Checksum(p));
        if !ChecksumSays(published, digest, name) {
          return Err(Rejected);
        }
      } else {
        NameIsToken(id.version, p);
        WrittenChecksumSays(digest, name);
        checksum := ChecksumLine(digest, name);
      }
    } else {
      var _ :- AttachPair(store, id, p, archive, checksum, first, since);
      return Ok(digest);
    }
    if Checksum(p) !in listed {
      ChecksumStep(id, store.Now(), p, checksum);
      var _ :- Attach(store, id, p, Checksum(p), checksum, first, since);
    }
    return Ok(digest);
  }

  // ----- all required platforms

  lemma PairKept(id: Identity, a: Assets, b: Assets, p: Platform)
    requires Same(a, b, Archive(p)) && Same(a, b, Checksum(p))
    ensures (PairOk(id, a, p) <==> PairOk(id, b, p)) && (Sound(id, a, p) <==> Sound(id, b, p))
  {
  }

  predicate Attached(assets: Assets, p: Platform) {
    Archive(p) in assets && Checksum(p) in assets
  }

  /** The record has the digest of the published archive of every platform that is done. */
  ghost predicate Recorded(id: Identity, assets: Assets, checksums: map<Platform, string>, done: seq<Platform>) {
    && (forall p :: p in checksums <==> p in done)
    && (forall p :: p in done && Attached(assets, p) ==>
          PairOk(id, assets, p) && checksums[p] == id.tools.digest(assets[Archive(p)]))
  }

  lemma RecordOne(id: Identity, a: Assets, b: Assets, checksums: map<Platform, string>, done: seq<Platform>,
                  p: Platform, digest: string)
    requires Recorded(id, a, checksums, done) && OnlyPair(a, b, p) && p !in done
    requires Attached(b, p) ==> PairOk(id, b, p) && digest == id.tools.digest(b[Archive(p)])
    ensures Recorded(id, b, checksums[p := digest], done + [p])
  {
    hide PairOk;
    forall q | q in done
      ensures Same(a, b, Archive(q)) && Same(a, b, Checksum(q)) && (PairOk(id, a, q) <==> PairOk(id, b, q))
    {
      PairKept(id, a, b, q);
    }
  }

  predicate SameOptional(a: Assets, b: Assets) {
    Same(a, b, ARCHIVE) && Same(a, b, CHECKSUM)
  }

  lemma SameOptionalReady(id: Identity, files: Assets, a: Assets, b: Assets)
    requires SameOptional(a, b)
    ensures OptionalReady(id, files, a) <==> OptionalReady(id, files, b)
  {
    hide WindowsArchive, Describes;
  }

  method PublishRequired(store: Store, id: Identity, files: Assets, listed: set<Asset>, ghost first: nat, ghost since: nat)
      returns (r: Result<map<Platform, string>, Error>)
    requires Traced(store, id, first, since) && GoodTools(id.tools) && IsToken(id.version)
    requires listed == store.assets.Keys && forall p :: Required(p) ==> Archive(p) in files
    modifies store`clock, store`assets, store`history
    ensures Traced(store, id, first, since) && old(store.history) <= store.history && store.clock >= old(store.clock)
    ensures r.Ok? ==> Recorded(id, store.assets, r.value, REQUIRED)
    ensures r.Ok? ==> SameOptional(old(store.assets), store.assets)
    ensures AllWork(store.faults, old(store.clock)) ==>
              (r.Ok? <==> Complete(id, files) && old(Resumable(id, store.assets))) &&
              (r.Ok? ==> forall p :: Required(p) ==> Attached(store.assets, p))
  {
    hide PairOk, Sound, Traced;
    var checksums: map<Platform, string> := map[];
    ghost var initial := store.assets;
    for i := 0 to |REQUIRED|
      invariant Traced(store, id, first, since) && old(store.history) <= store.history && store.clock >= old(store.clock)
      invariant Recorded(id, store.assets, checksums, REQUIRED[..i])
      invariant forall p :: p !in REQUIRED[..i] ==> Same(initial, store.assets, Archive(p)) && Same(initial, store.assets, Checksum(p))
      invariant AllWork(store.faults, old(store.clock)) ==>
                  forall p :: p in REQUIRED[..i] ==> PairOk(id, files, p) && Sound(id, initial, p) && Attached(store.assets, p)
    {
      var p := REQUIRED[i];
      ghost var before := store.assets;
      RequiredOnce(i);
      PairKept(id, initial, before, p);
      var digest :- PublishPlatform(store, id, files, p, listed, first, since);
      RecordOne(id, before, store.assets, checksums, REQUIRED[..i], p, digest);
      RestKept(initial, before, store.assets, REQUIRED[..i], p);
      checksums := checksums[p := digest];
    }
    assert REQUIRED[..|REQUIRED|] == REQUIRED;
    RequiredListed(WindowsAmd64);
    return Ok(checksums);
  }

  lemma RestKept(initial: Assets, before: Assets, after: Assets, done: seq<Platform>, p: Platform)
    requires forall q :: q !in done ==> Same(initial, before, Archive(q)) && Same(initial, before, Checksum(q))
    requires OnlyPair(before, after, p)
    ensures forall q :: q !in done + [p] ==> Same(initial, after, Archive(q)) && Same(initial, after, Checksum(q))
    ensures forall q :: q in done && q != p && Attached(before, q) ==> Attached(after, q)
  {
    forall q | q != p
      ensures Same(before, after, Archive(q)) && Same(before, after, Checksum(q))
    {
    }
    forall q | q !in done + [p]
      ensures Same(initial, after, Archive(q)) && Same(initial, after, Checksum(q))
    {
      assert q !in done;
    }
  }

  lemma RequiredOnce(i: nat)
    requires i < |REQUIRED|
    ensures Required(REQUIRED[i]) && REQUIRED[i] !in REQUIRED[..i] && REQUIRED[..i + 1] == REQUIRED[..i] + [REQUIRED[i]]
  {
  }

  // ----- the whole run

  /** A run in which no command fails succeeds exactly when this holds, for a release that is public. */
  ghost predicate Ready(checkout: Checkout, objects: map<string, Target>, s: Snapshot) {
    LocalReady(checkout) && TagsReady(checkout, objects, s.refs) && Resumable(checkout.id, s.assets)
  }

  predicate Public(store: Store)
    reads store
  {
    store.tagName == CoreTag && !store.draft
  }

  method ArchivesPresent(files: Assets) returns (ok: bool)
    ensures ok <==> forall p :: Required(p) ==> Archive(p) in files
  {
    RequiredAre();
    for i := 0 to |REQUIRED|
      invariant forall p :: p in REQUIRED[..i] ==> Archive(p) in files
    {
      RequiredOnce(i);
      if Archive(REQUIRED[i]) !in files {
        return false;
      }
    }
    return true;
  }

  method PairsPresent(published: set<Asset>) returns (ok: bool)
    ensures ok <==> forall p :: Required(p) ==> Archive(p) in published && Checksum(p) in published
  {
    RequiredAre();
    for i := 0 to |REQUIRED|
      invariant forall p :: p in REQUIRED[..i] ==> Archive(p) in published && Checksum(p) in published
    {
      RequiredOnce(i);
      if Archive(REQUIRED[i]) !in published || Checksum(REQUIRED[i]) !in published {
        return false;
      }
    }
    return true;
  }

  /** The checks before anything is uploaded, and whether there is a Go tag. */
  method Preflight(store: Store, checkout: Checkout) returns (r: Result<(bool, set<Asset>), Error>)
    modifies store`clock
    ensures store.clock >= old(store.clock)
    ensures r.Ok? ==>
              && checkout.sound && TagsReady(checkout, store.objects, store.refs) && store.tagName == CoreTag && !store.draft
              && (forall p :: Required(p) ==> Archive(p) in checkout.files)
              && r.value == (GoTag in store.refs, store.assets.Keys)
    ensures AllWork(store.faults, old(store.clock)) ==>
              (r.Ok? <==> checkout.sound && TagsReady(checkout, store.objects, store.refs) && store.tagName == CoreTag &&
                          !store.draft && forall p :: Required(p) ==> Archive(p) in checkout.files)
  {
    hide Resolve;
    if !checkout.sound {
      return Err(Rejected);
    }
    var core :- store.RemoteCommit(CoreTag);
    if core != Some(checkout.id.revision) {
      return Err(Rejected);
    }
    var existing :- store.RemoteCommit(GoTag);
    if existing.Some? && existing != Some(checkout.id.revision) {
      return Err(Rejected);
    }
    var listed :- store.List();
    if store.tagName != CoreTag || store.draft {
      return Err(Rejected);
    }
    var complete := ArchivesPresent(checkout.files);
    return if complete then Ok((existing.Some?, listed)) else Err(Rejected);
  }

  /** The Go tag is created when all pairs are attached, and looked at again. */
  method PublishTag(store: Store, id: Identity, present: bool, ghost first: nat, ghost since: nat) returns (r: Result<(), Error>)
    requires Traced(store, id, first, since) && present == (GoTag in store.refs)
    requires forall p :: Required(p) && Attached(store.assets, p) ==> PairOk(id, store.assets, p)
    requires present ==> TagResolves(store.objects, store.refs, GoTag, id.revision)
    modifies store`clock, store`refs, store`history
    ensures Traced(store, id, first, since) && old(store.history) <= store.history && store.clock >= old(store.clock)
    ensures r.Ok? ==> Complete(id, store.assets) && TagResolves(store.objects, store.refs, GoTag, id.revision)
    ensures AllWork(store.faults, old(store.clock)) ==> (r.Ok? <==> forall p :: Required(p) ==> Attached(store.assets, p))
  {
    hide PairOk, Step, NoNewOrphan, Steps, NoNewOrphans, Resolve;
    var published :- store.List();
    var attached := PairsPresent(published);
    if !attached {
      return Err(Rejected);
    }
    if !present {
      ghost var s, before := store.Now(), store.history;
      var created := store.CreateTag(GoTag, id.revision);
      ghost var t := store.Now();
      TagStep(id, s);
      StandStill(id, s);
      ExtendSteps(id, before, t, first);
      if Lossless(store.faults, since, store.clock) {
        LosslessParts(store.faults, since, old(store.clock), store.clock);
        ExtendNoNewOrphans(before, t, first);
      }
      if created.Err? {
        return created;
      }
    }
    ResolveCommit(store.objects, id.revision);
    var again :- store.RemoteCommit(GoTag);
    return if again == Some(id.revision) then Ok(()) else Err(Rejected);
  }

  lemma RequiredAre()
    ensures REQUIRED[..|REQUIRED|] == REQUIRED && forall p :: p in REQUIRED <==> Required(p)
  {
  }

  lemma ResolveCommit(objects: map<string, Target>, revision: string)
    ensures Resolve(objects, Commit(revision), TAG_CHECKS) == Some(revision)
  {
  }

  lemma AtStart(id: Identity, history: seq<Snapshot>)
    requires history != []
    ensures Steps(id, history, |history| - 1) && NoNewOrphans(history, |history| - 1)
  {
  }

  /** The record holds the digests of the published archives. */
  ghost predicate Digests(id: Identity, assets: Assets, checksums: map<Platform, string>) {
    && (forall p :: p in checksums <==> Required(p))
    && (forall p :: Required(p) ==> Archive(p) in assets && checksums[p] == id.tools.digest(assets[Archive(p)]))
  }

  lemma RecordIsComplete(id: Identity, assets: Assets, checksums: map<Platform, string>)
    requires Recorded(id, assets, checksums, REQUIRED) && Complete(id, assets)
    ensures Digests(id, assets, checksums)
  {
  }

  lemma CompleteHasAll(id: Identity, assets: Assets)
    requires Complete(id, assets)
    ensures forall p :: Required(p) ==> Attached(assets, p)
  {
  }

  /** The required part of a run after the checks. */
  method PublishChecked(store: Store, checkout: Checkout, present: bool, listed: set<Asset>, ghost first: nat, ghost since: nat)
      returns (r: Result<map<Platform, string>, Error>)
    requires Traced(store, checkout.id, first, since) && GoodTools(checkout.id.tools) && IsToken(checkout.id.version)
    requires listed == store.assets.Keys && forall p :: Required(p) ==> Archive(p) in checkout.files
    requires present == (GoTag in store.refs)
    requires present ==> TagResolves(store.objects, store.refs, GoTag, checkout.id.revision)
    modifies store`clock, store`assets, store`refs, store`history
    ensures Traced(store, checkout.id, first, since) && old(store.history) <= store.history && store.clock >= old(store.clock)
    ensures r.Ok? ==> TagResolves(store.objects, store.refs, GoTag, checkout.id.revision) &&
                      Complete(checkout.id, store.assets) && Digests(checkout.id, store.assets, r.value) &&
                      SameOptional(old(store.assets), store.assets)
    ensures AllWork(store.faults, old(store.clock)) ==>
              (r.Ok? <==> Complete(checkout.id, checkout.files) && old(Resumable(checkout.id, store.assets)))
  {
    hide PairOk, Traced, Resumable, TagResolves, Attached, Digests, SameOptional;
    var checksums :- PublishRequired(store, checkout.id, checkout.files, listed, first, since);
    RequiredAre();
    var _ :- PublishTag(store, checkout.id, present, first, since);
    RecordIsComplete(checkout.id, store.assets, checksums);
    return Ok(checksums);
  }

  lemma UntouchedKeeps(id: Identity, before: seq<Snapshot>, after: seq<Snapshot>, checksums: map<Platform, string>)
    requires before <= after && before != [] && AllUntouched(before[|before| - 1], after, |before|)
    ensures var a, b := before[|before| - 1].assets, after[|after| - 1].assets;
            (Complete(id, a) ==> Complete(id, b)) && (Digests(id, a, checksums) ==> Digests(id, b, checksums))
  {
    hide PairOk, Untouched;
    var s, t := before[|before| - 1], after[|after| - 1];
    if |after| == |before| {
      assert after == before;
    } else {
      assert Untouched(s, t);
      forall p | Required(p)
        ensures Same(s.assets, t.assets, Archive(p)) && (PairOk(id, s.assets, p) <==> PairOk(id, t.assets, p))
      {
        OthersSame(s, t, Archive(p));
        OthersSame(s, t, Checksum(p));
        PairKept(id, s.assets, t.assets, p);
      }
    }
  }

  /** The run without its optional stage. */
  method PublishMandatory(store: Store, checkout: Checkout, ghost first: nat, ghost since: nat)
    returns (r: Result<map<Platform, string>, Error>)
    requires Traced(store, checkout.id, first, since) && GoodTools(checkout.id.tools) && IsToken(checkout.id.version)
    modifies store`clock, store`assets, store`refs, store`history
    ensures Traced(store, checkout.id, first, since) && old(store.history) <= store.history && store.clock >= old(store.clock)
    ensures old(!TagResolves(store.objects, store.refs, CoreTag, checkout.id.revision)) ==>
              r.Err? && store.history == old(store.history)
    ensures r.Ok? ==> TagResolves(store.objects, store.refs, GoTag, checkout.id.revision) &&
                      Complete(checkout.id, store.assets) && Digests(checkout.id, store.assets, r.value) &&
                      SameOptional(old(store.assets), store.assets)
    ensures AllWork(store.faults, old(store.clock)) ==> (r.Ok? <==> Public(store) && old(Ready(checkout, store.objects, store.Now())))
  {
    hide PairOk, Steps, NoNewOrphans, Resumable, Complete, Digests, SameOptional, TagResolves;
    if Complete(checkout.id, checkout.files) {
      CompleteHasAll(checkout.id, checkout.files);
    }
    var found :- Preflight(store, checkout);
    r := PublishChecked(store, checkout, found.0, found.1, first, since);
  }

  /** Whatever fails, the states that the run goes through are steps of the release of the checkout, and there are
      none if the core tag is elsewhere. */
  method Publish(store: Store, checkout: Checkout) returns (r: Result<Report, Error>)
    requires store.Valid() && GoodTools(checkout.id.tools) && IsToken(checkout.id.version)
    modifies store`clock, store`assets, store`refs, store`history
    ensures Traced(store, checkout.id, old(|store.history| - 1), old(store.clock)) && old(store.history) <= store.history &&
            store.clock >= old(store.clock)
    ensures old(!TagResolves(store.objects, store.refs, CoreTag, checkout.id.revision)) ==>
              r.Err? && store.history == old(store.history)
    ensures r.Ok? ==>
              && TagResolves(store.objects, store.refs, GoTag, checkout.id.revision)
              && Complete(checkout.id, store.assets) && Digests(checkout.id, store.assets, r.value.checksums)
              && OutcomeHolds(checkout.id, checkout.files, store.assets, r.value.optional)
    ensures AllWork(store.faults, old(store.clock)) ==> (r.Ok? <==> Public(store) && old(Ready(checkout, store.objects, store.Now())))
    ensures AllWork(store.faults, old(store.clock)) && r.Ok? ==>
              r.value.optional != Skipped(false) &&
              (r.value.optional == Skipped(true) <==> old(!OptionalReady(checkout.id, checkout.files, store.assets)))
  {
    hide Steps, NoNewOrphans, Ready, Complete, Digests, Untouched, OutcomeHolds, OptionalReady, SameOptional, TagResolves,
      AllUntouched, PublishedOk, Survives, GoodTools, IsToken, Lossless;
    var id := checkout.id;
    ghost var first, since := |store.history| - 1, store.clock;
    AtStart(id, store.history);
    var checksums :- PublishMandatory(store, checkout, first, since);
    ghost var before, middle := store.history, store.clock;
    SameOptionalReady(id, checkout.files, old(store.assets), store.assets);
    var optional := PublishOptional(store, id, checkout.files);
    ExtendUntouched(id, before, store.history, first);
    if Lossless(store.faults, since, store.clock) {
      LosslessParts(store.faults, since, middle, store.clock);
    }
    UntouchedKeeps(id, before, store.history, checksums);
    ghost var ended := store.clock;
    var again := store.List();
    if Lossless(store.faults, since, store.clock) {
      LosslessParts(store.faults, since, ended, store.clock);
    }
    return if again.Ok? then Ok(Report(checksums, optional)) else Err(again.error);
  }

  /** No run moves the core tag. */
  lemma CoreTagStays(id: Identity, objects: map<string, Target>, history: seq<Snapshot>)
    requires history != [] && Steps(id, history, 0) && TagResolves(objects, history[0].refs, CoreTag, id.revision)
    ensures TagResolves(objects, history[|history| - 1].refs, CoreTag, id.revision)
  {
    hide Steps, Resolve;
    var last := history[|history| - 1];
    TheRestStays(id, history, |history| - 1);
    assert CoreTag in last.refs - {GoTag} && (last.refs - {GoTag})[CoreTag] == history[0].refs[CoreTag];
  }

  /** Runs that start without required assets or a Go tag may be cut short anywhere, any number of times: with its
      archives built anew, the next run has all it needs, unless an earlier one added a checksum without its archive; and the
      release shows whether one did. */
  lemma RerunFinishes(checkout: Checkout, objects: map<string, Target>, history: seq<Snapshot>)
    requires history != [] && Steps(checkout.id, history, 0) && LocalReady(checkout)
    requires GoTag !in history[0].refs && TagResolves(objects, history[0].refs, CoreTag, checkout.id.revision)
    requires forall p :: Required(p) ==> Archive(p) !in history[0].assets && Checksum(p) !in history[0].assets
    ensures Ready(checkout, objects, history[|history| - 1]) <==> NoNewOrphans(history, 0)
    ensures Ready(checkout, objects, history[|history| - 1]) <==> NoOrphans(history[|history| - 1].assets)
  {
    hide PairOk, ArchiveOk, Step, NoNewOrphan, Complete, Resolve;
    var id, last := checkout.id, history[|history| - 1];
    ResumableUnlessOrphaned(id, history);
    CoreTagStays(id, objects, history);
    TagMeansComplete(id, history, |history| - 1);
    ResolveCommit(objects, id.revision);
  }
}
