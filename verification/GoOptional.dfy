/** The optional Windows archive (scripts/publish_go_release.py:108-169). */
module GoOptional {
  import opened Results
  import opened GoArchive
  import opened GoChecksums
  import opened GoStore
  import opened GoHistory

  /** `Skipped` says whether everything was cleaned up. */
  datatype Outcome = Published(digest: string) | Absent | Incomplete | Skipped(cleaned: bool)

  const ARCHIVE := Archive(WindowsAmd64)
  const CHECKSUM := Checksum(WindowsAmd64)

  ghost predicate AllWork(faults: nat -> Fault, from: nat) {
    forall t :: t >= from ==> faults(t) == Works
  }

  /** The bytes are the Windows archive of the release. */
  ghost predicate WindowsArchive(id: Identity, bytes: string) {
    && HasIdentity(id.tools, id.version, id.revision, WindowsAmd64, bytes)
    && WindowsSound(id.tools, Root(id.version, WindowsAmd64), bytes)
  }

  /** The text is a checksum file for the bytes. */
  predicate Describes(id: Identity, checksum: string, p: Platform, bytes: string) {
    ChecksumSays(checksum, id.tools.digest(bytes), ArchiveName(id.version, p))
  }

  /** The Windows pair is published and right. */
  ghost predicate PublishedOk(id: Identity, assets: Assets) {
    && ARCHIVE in assets && WindowsArchive(id, assets[ARCHIVE])
    && CHECKSUM in assets && Describes(id, assets[CHECKSUM], WindowsAmd64, assets[ARCHIVE])
  }

  /** What the stage needs when no command fails. */
  ghost predicate OptionalReady(id: Identity, files: Assets, assets: Assets) {
    if ARCHIVE in assets then
      WindowsArchive(id, assets[ARCHIVE]) &&
      (CHECKSUM in assets ==> Describes(id, assets[CHECKSUM], WindowsAmd64, assets[ARCHIVE]))
    else if ARCHIVE in files then
      WindowsArchive(id, files[ARCHIVE]) &&
      CHECKSUM in files && Describes(id, files[CHECKSUM], WindowsAmd64, files[ARCHIVE]) &&
      (CHECKSUM in assets ==> Describes(id, assets[CHECKSUM], WindowsAmd64, files[ARCHIVE]))
    else true
  }

  /** Only the Windows pair differs. */
  predicate Untouched(s: Snapshot, t: Snapshot) {
    s.refs == t.refs && s.assets - {ARCHIVE, CHECKSUM} == t.assets - {ARCHIVE, CHECKSUM}
  }

  ghost predicate AllUntouched(s: Snapshot, history: seq<Snapshot>, from: nat) {
    forall i :: from <= i < |history| ==> Untouched(s, history[i])
  }

  /** What an outcome says about the Windows pair. */
  ghost predicate OutcomeHolds(id: Identity, files: Assets, assets: Assets, outcome: Outcome) {
    match outcome
    case Published(digest) => PublishedOk(id, assets) && digest == id.tools.digest(assets[ARCHIVE])
    case Absent => ARCHIVE !in assets && CHECKSUM !in assets && ARCHIVE !in files
    case Incomplete => ARCHIVE !in assets && CHECKSUM in assets && ARCHIVE !in files
    case Skipped(cleaned) => cleaned ==> ARCHIVE !in assets && CHECKSUM !in assets
  }

  /** The outcome holds, and nothing changed if there was nothing to publish. */
  ghost predicate Truthful(id: Identity, files: Assets, before: Assets, after: Assets, outcome: Outcome) {
    OutcomeHolds(id, files, after, outcome) && (outcome.Absent? || outcome.Incomplete? ==> after == before)
  }

  /** What there is of the Windows pair keeps its bytes. */
  predicate KeepsPair(a: Assets, b: Assets) {
    (ARCHIVE in a ==> Same(a, b, ARCHIVE)) && (CHECKSUM in a ==> Same(a, b, CHECKSUM))
  }

  // ----- counting commands

  /** The index of the first of `n` commands that does not work, or `n`. */
  ghost function FirstFault(faults: nat -> Fault, from: nat, n: nat): (k: nat)
    ensures k <= n
    decreases n
  {
    if n == 0 || faults(from) != Works then 0 else 1 + FirstFault(faults, from + 1, n - 1)
  }

  /** How many of `n` commands are run when the first that does not work stops them. */
  ghost function Ran(faults: nat -> Fault, from: nat, n: nat): nat {
    var k := FirstFault(faults, from, n);
    if k < n then k + 1 else n
  }

  lemma TwoCommands(faults: nat -> Fault, from: nat)
    ensures FirstFault(faults, from, 2) == if faults(from) != Works then 0 else if faults(from + 1) != Works then 1 else 2
  {
    assert FirstFault(faults, from + 1, 1) == if faults(from + 1) != Works then 0 else 1;
  }

  lemma ThreeCommands(faults: nat -> Fault, from: nat)
    ensures FirstFault(faults, from, 3) == if faults(from) != Works then 0 else 1 + FirstFault(faults, from + 1, 2)
  {
  }

  /** One command, two commands and three commands are six. */
  lemma SixCommands(faults: nat -> Fault, from: nat)
    ensures FirstFault(faults, from, 6)
         == if faults(from) != Works then 0
            else if FirstFault(faults, from + 1, 2) < 2 then 1 + FirstFault(faults, from + 1, 2)
            else 3 + FirstFault(faults, from + 3, 3)
  {
    assert FirstFault(faults, from + 2, 4) == if faults(from + 2) != Works then 0 else 1 + FirstFault(faults, from + 3, 3);
    assert FirstFault(faults, from + 1, 5) == if faults(from + 1) != Works then 0 else 1 + FirstFault(faults, from + 2, 4);
    TwoCommands(faults, from + 1);
  }

  // ----- what stays the same

  /** Since the store was as in `s`, and its history `past`, only the Windows pair has changed. */
  ghost predicate Framed(store: Store, s: Snapshot, past: seq<Snapshot>)
    reads store`assets, store`refs, store`history
  {
    store.Valid() && past <= store.history && AllUntouched(s, store.history, |past|) && Untouched(s, store.Now())
  }

  lemma ExtendFrame(s: Snapshot, past: seq<Snapshot>, history: seq<Snapshot>, now: Snapshot, next: Snapshot)
    requires past <= history && AllUntouched(s, history, |past|) && Untouched(s, now) && Untouched(now, next)
    ensures AllUntouched(s, history + [next], |past|) && Untouched(s, next)
  {
  }

  lemma PairUntouched(s: Snapshot, asset: Asset, bytes: string)
    requires asset == ARCHIVE || asset == CHECKSUM
    ensures Untouched(s, s) && Untouched(s, Snapshot(s.assets[asset := bytes], s.refs)) && Untouched(s, Snapshot(s.assets - {asset}, s.refs))
  {
    hide ARCHIVE, CHECKSUM;
    var pair := {ARCHIVE, CHECKSUM};
    assert s.assets[asset := bytes] - pair == s.assets - pair;
    assert s.assets - {asset} - pair == s.assets - pair;
  }

  method UploadOne(store: Store, asset: Asset, bytes: string, ghost s: Snapshot, ghost past: seq<Snapshot>)
    returns (r: Result<(), Error>)
    requires Framed(store, s, past) && asset !in store.assets && (asset == ARCHIVE || asset == CHECKSUM)
    modifies store`clock, store`assets, store`history
    ensures Framed(store, s, past) && store.clock == old(store.clock) + 1
    ensures store.assets == old(store.assets) || store.assets == old(store.assets)[asset := bytes]
    ensures store.faults(old(store.clock)) == Works ==> r.Ok? && store.assets == old(store.assets)[asset := bytes]
  {
    hide AllUntouched, Untouched;
    PairUntouched(store.Now(), asset, bytes);
    ghost var history, now := store.history, store.Now();
    r := store.Upload(asset, bytes);
    ExtendFrame(s, past, history, now, store.Now());
  }

  method DeleteOne(store: Store, asset: Asset, ghost s: Snapshot, ghost past: seq<Snapshot>) returns (r: Result<(), Error>)
    requires Framed(store, s, past) && asset in store.assets && (asset == ARCHIVE || asset == CHECKSUM)
    modifies store`clock, store`assets, store`history
    ensures Framed(store, s, past) && store.clock == old(store.clock) + 1
    ensures var fault := store.faults(old(store.clock));
            store.assets == (if fault == Works || fault == FailsAfter then old(store.assets) - {asset} else old(store.assets)) &&
            (r.Ok? <==> fault == Works)
  {
    hide AllUntouched, Untouched;
    PairUntouched(store.Now(), asset, "");
    ghost var history, now := store.history, store.Now();
    r := store.Delete(asset);
    ExtendFrame(s, past, history, now, store.Now());
  }

  // ----- what the stage finds

  method CheckArchive(id: Identity, bytes: string) returns (r: Result<string, Error>)
    ensures r == if WindowsArchive(id, bytes) then Ok(id.tools.digest(bytes)) else Err(Rejected)
  {
    hide HasIdentity, WindowsSound;
    if !HasIdentity(id.tools, id.version, id.revision, WindowsAmd64, bytes) {
      return Err(Rejected);
    }
    var ok := VerifyWindowsContents(id.tools, Root(id.version, WindowsAmd64), bytes);
    return if ok then Ok(id.tools.digest(bytes)) else Err(Rejected);
  }

  lemma KeepsSelf(a: Assets)
    ensures KeepsPair(a, a)
  {
  }

  /** The pair that is published and right stays so while what there is of it is kept. */
  lemma KeptIsOk(id: Identity, a: Assets, b: Assets)
    requires PublishedOk(id, a) && KeepsPair(a, b)
    ensures PublishedOk(id, b)
  {
    hide WindowsArchive, Describes;
  }

  /** A pair that is published and right is one that the stage can work on, whatever the local files are. */
  lemma WhatItTakes(id: Identity, files: Assets, assets: Assets)
    ensures PublishedOk(id, assets) ==> ARCHIVE in assets && CHECKSUM in assets && OptionalReady(id, files, assets)
    ensures ARCHIVE in assets ==> (OptionalReady(id, files, assets) <==> OptionalReady(id, map[], assets))
    ensures ARCHIVE !in assets && ARCHIVE !in files ==> OptionalReady(id, files, assets)
  {
    hide WindowsArchive, Describes;
  }

  // ----- the stage

  /** An archive that is already published keeps its bytes and gets the checksum file it lacks. */
  method CompletePublished(store: Store, id: Identity, listed: set<Asset>, ghost s: Snapshot, ghost past: seq<Snapshot>)
    returns (r: Result<(), Error>)
    requires Framed(store, s, past) && GoodTools(id.tools) && IsToken(id.version)
    requires listed == store.assets.Keys && ARCHIVE in listed
    modifies store`clock, store`assets, store`history
    ensures Framed(store, s, past) && store.clock >= old(store.clock) && KeepsPair(old(store.assets), store.assets)
    ensures AllWork(store.faults, old(store.clock)) ==>
              (r.Ok? <==> old(OptionalReady(id, map[], store.assets))) && (r.Ok? ==> PublishedOk(id, store.assets))
    ensures old(PublishedOk(id, store.assets)) ==>
              store.clock == old(store.clock) + Ran(store.faults, old(store.clock), 2) &&
              (r.Ok? <==> FirstFault(store.faults, old(store.clock), 2) == 2)
  {
    hide WindowsArchive, ChecksumSays, Framed, FirstFault;
    TwoCommands(store.faults, store.clock);
    var archive :- store.Download(ARCHIVE);
    var digest :- CheckArchive(id, archive);
    if CHECKSUM in listed {
      var checksum :- store.Download(CHECKSUM);
      return if ChecksumSays(checksum, digest, ArchiveName(id.version, WindowsAmd64)) then Ok(()) else Err(Rejected);
    }
    NameIsToken(id.version, WindowsAmd64);
    WrittenChecksumSays(digest, ArchiveName(id.version, WindowsAmd64));
    r := UploadOne(store, CHECKSUM, ChecksumLine(digest, ArchiveName(id.version, WindowsAmd64)), s, past);
  }

  /** A local archive is published with its checksum file. */
  method PublishLocal(store: Store, id: Identity, files: Assets, listed: set<Asset>, ghost s: Snapshot, ghost past: seq<Snapshot>)
    returns (r: Result<(), Error>)
    requires Framed(store, s, past)
    requires listed == store.assets.Keys && ARCHIVE !in listed && ARCHIVE in files
    modifies store`clock, store`assets, store`history
    ensures Framed(store, s, past) && store.clock >= old(store.clock) && KeepsPair(old(store.assets), store.assets)
    ensures AllWork(store.faults, old(store.clock)) ==>
              (r.Ok? <==> old(OptionalReady(id, files, store.assets))) && (r.Ok? ==> PublishedOk(id, store.assets))
  {
    hide WindowsArchive, ChecksumSays, Framed;
    var name := ArchiveName(id.version, WindowsAmd64);
    var digest :- CheckArchive(id, files[ARCHIVE]);
    if CHECKSUM !in files || !ChecksumSays(files[CHECKSUM], digest, name) {
      return Err(Rejected);
    }
    if CHECKSUM in listed {
      var checksum :- store.Download(CHECKSUM);
      if !ChecksumSays(checksum, digest, name) {
        return Err(Rejected);
      }
    }
    r := UploadOne(store, ARCHIVE, files[ARCHIVE], s, past);
    if r.Ok? && CHECKSUM !in listed {
      r := UploadOne(store, CHECKSUM, files[CHECKSUM], s, past);
    }
  }

  /** The uploads of the stage, and whether there was anything to publish. */
  method PublishPair(store: Store, id: Identity, files: Assets, listed: set<Asset>, ghost s: Snapshot, ghost past: seq<Snapshot>)
    returns (r: Result<bool, Error>)
    requires Framed(store, s, past) && GoodTools(id.tools) && IsToken(id.version) && listed == store.assets.Keys
    modifies store`clock, store`assets, store`history
    ensures Framed(store, s, past) && store.clock >= old(store.clock) && KeepsPair(old(store.assets), store.assets)
    ensures r.Ok? ==> r.value == old(ARCHIVE in store.assets || ARCHIVE in files)
    ensures r.Ok? && !r.value ==> store.assets == old(store.assets)
    ensures AllWork(store.faults, old(store.clock)) ==>
              (r.Ok? <==> old(OptionalReady(id, files, store.assets))) && (r.Ok? && r.value ==> PublishedOk(id, store.assets))
    ensures old(PublishedOk(id, store.assets)) ==>
              store.clock == old(store.clock) + Ran(store.faults, old(store.clock), 2) &&
              (r.Ok? <==> FirstFault(store.faults, old(store.clock), 2) == 2)
  {
    hide PublishedOk, OptionalReady, Framed, FirstFault, KeepsPair;
    WhatItTakes(id, files, store.assets);
    KeepsSelf(store.assets);
    if ARCHIVE in listed {
      var _ :- CompletePublished(store, id, listed, s, past);
      return Ok(true);
    } else if ARCHIVE in files {
      var _ :- PublishLocal(store, id, files, listed, s, past);
      return Ok(true);
    }
    return Ok(false);
  }

  /** The published pair is read again. */
  method Reread(store: Store, id: Identity) returns (r: Result<string, Error>)
    modifies store`clock
    ensures store.clock >= old(store.clock)
    ensures r.Ok? ==> PublishedOk(id, store.assets) && r.value == id.tools.digest(store.assets[ARCHIVE])
    ensures AllWork(store.faults, old(store.clock)) && PublishedOk(id, store.assets) ==> r.Ok?
    ensures PublishedOk(id, store.assets) ==>
              store.clock == old(store.clock) + Ran(store.faults, old(store.clock), 3) &&
              (r.Ok? <==> FirstFault(store.faults, old(store.clock), 3) == 3)
  {
    hide WindowsArchive, ChecksumSays, FirstFault;
    ThreeCommands(store.faults, store.clock);
    TwoCommands(store.faults, store.clock + 1);
    var published :- store.List();
    if ARCHIVE !in published || CHECKSUM !in published {
      return Err(Rejected);
    }
    var archive :- store.Download(ARCHIVE);
    var checksum :- store.Download(CHECKSUM);
    var digest :- CheckArchive(id, archive);
    return if ChecksumSays(checksum, digest, ArchiveName(id.version, WindowsAmd64)) then Ok(digest) else Err(Rejected);
  }

  method TryOptional(store: Store, id: Identity, files: Assets, ghost s: Snapshot, ghost past: seq<Snapshot>)
    returns (r: Result<Outcome, Error>)
    requires Framed(store, s, past) && GoodTools(id.tools) && IsToken(id.version)
    modifies store`clock, store`assets, store`history
    ensures Framed(store, s, past) && store.clock >= old(store.clock) && KeepsPair(old(store.assets), store.assets)
    ensures r.Ok? ==> !r.value.Skipped? && Truthful(id, files, old(store.assets), store.assets, r.value)
    ensures r.Ok? && r.value.Published? ==> old(ARCHIVE in store.assets || ARCHIVE in files)
    ensures AllWork(store.faults, old(store.clock)) ==> (r.Ok? <==> old(OptionalReady(id, files, store.assets)))
    ensures store.faults(old(store.clock)) != Works ==> r.Err? && store.assets == old(store.assets) && store.clock == old(store.clock) + 1
    ensures old(PublishedOk(id, store.assets)) ==>
              store.clock == old(store.clock) + Ran(store.faults, old(store.clock), 6) &&
              (r.Ok? <==> FirstFault(store.faults, old(store.clock), 6) == 6)
  {
    hide PublishedOk, OptionalReady, Framed, FirstFault, KeepsPair;
    SixCommands(store.faults, store.clock);
    WhatItTakes(id, files, store.assets);
    KeepsSelf(store.assets);
    ghost var before := store.assets;
    var listed :- store.List();
    var found := PublishPair(store, id, files, listed, s, past);
    if PublishedOk(id, before) {
      KeptIsOk(id, before, store.assets);
    }
    if found.Err? {
      return Err(found.error);
    }
    if !found.value {
      return Ok(if CHECKSUM in listed then Incomplete else Absent);
    }
    var digest :- Reread(store, id);
    return Ok(Published(digest));
  }

  /** A cleanup from `clock` on does not get to remove an archive: its listing fails, or its first deletion has no
      effect. */
  ghost predicate Spares(faults: nat -> Fault, clock: nat) {
    faults(clock) != Works || faults(clock + 1) == FailsBefore || faults(clock + 1) == Lost
  }

  /** Removes what there is of the Windows pair. */
  method Cleanup(store: Store, ghost s: Snapshot, ghost past: seq<Snapshot>) returns (r: Result<(), Error>)
    requires Framed(store, s, past)
    modifies store`clock, store`assets, store`history
    ensures Framed(store, s, past) && store.clock >= old(store.clock)
    ensures r.Ok? ==> ARCHIVE !in store.assets && CHECKSUM !in store.assets
    ensures AllWork(store.faults, old(store.clock)) ==> r.Ok?
    ensures old(ARCHIVE in store.assets) ==>
              if Spares(store.faults, old(store.clock)) then store.assets == old(store.assets) else ARCHIVE !in store.assets
  {
    hide Framed;
    var present :- store.List();
    if ARCHIVE in present {
      var _ :- DeleteOne(store, ARCHIVE, s, past);
    }
    if CHECKSUM in present {
      var _ :- DeleteOne(store, CHECKSUM, s, past);
    }
    return Ok(());
  }

  /** A Windows pair that is published and right survives the stage: none of its six commands fails, or the cleanup
      after the first one that does is stopped in time. */
  ghost predicate Survives(faults: nat -> Fault, clock: nat) {
    var k := FirstFault(faults, clock, 6);
    k == 6 || Spares(faults, clock + k + 1)
  }

  /** The stage never fails: an error leads to a cleanup.  When no command fails the outcome is decided; when only
      the first one fails, a published pair is removed. */
  method PublishOptional(store: Store, id: Identity, files: Assets) returns (outcome: Outcome)
    requires store.Valid() && GoodTools(id.tools) && IsToken(id.version)
    modifies store`clock, store`assets, store`history
    ensures store.Valid() && old(store.history) <= store.history && store.clock >= old(store.clock)
    ensures AllUntouched(old(store.Now()), store.history, old(|store.history|)) && Untouched(old(store.Now()), store.Now())
    ensures Truthful(id, files, old(store.assets), store.assets, outcome)
    ensures AllWork(store.faults, old(store.clock)) ==>
              outcome != Skipped(false) && (outcome == Skipped(true) <==> old(!OptionalReady(id, files, store.assets)))
    ensures store.faults(old(store.clock)) != Works && AllWork(store.faults, old(store.clock) + 1) ==> outcome == Skipped(true)
    ensures old(PublishedOk(id, store.assets)) ==>
              (PublishedOk(id, store.assets) <==> Survives(store.faults, old(store.clock)))
  {
    hide OptionalReady, WindowsArchive, Describes, FirstFault, Spares;
    ghost var s, past, initial := store.Now(), store.history, store.assets;
    PairUntouched(s, ARCHIVE, "");
    var tried := TryOptional(store, id, files, s, past);
    if PublishedOk(id, initial) {
      KeptIsOk(id, initial, store.assets);
    }
    if tried.Ok? {
      return tried.value;
    }
    var cleaned := Cleanup(store, s, past);
    return Skipped(cleaned.Ok?);
  }

  lemma OthersSame(s: Snapshot, t: Snapshot, x: Asset)
    requires Untouched(s, t) && x != ARCHIVE && x != CHECKSUM
    ensures Same(s.assets, t.assets, x)
  {
    var kept, still := s.assets - {ARCHIVE, CHECKSUM}, t.assets - {ARCHIVE, CHECKSUM};
    assert x in s.assets <==> x in kept;
    assert x in t.assets <==> x in still;
    assert x in kept ==> s.assets[x] == kept[x] && still[x] == t.assets[x];
  }

  /** Whatever the stage does is a step for the required platforms. */
  lemma UntouchedIsStep(id: Identity, s: Snapshot, t: Snapshot)
    requires Untouched(s, t)
    ensures Step(id, s, t) && NoNewOrphan(s, t)
  {
    hide PairOk, ArchiveOk, Complete;
    forall p | Required(p)
      ensures KeepsPlatform(id, s.assets, t.assets, p) && (Orphan(t.assets, p) ==> Orphan(s.assets, p))
    {
      OthersSame(s, t, Archive(p));
      OthersSame(s, t, Checksum(p));
    }
    forall name
      ensures Same(s.assets, t.assets, Unrelated(name))
    {
      OthersSame(s, t, Unrelated(name));
    }
  }
}
