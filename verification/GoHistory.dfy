/** What every run of scripts/publish_go_release.py does to the release, step by step, and what that means for any
    number of runs, each of which may be cut short. */
module GoHistory {
  import opened GoArchive
  import opened GoChecksums
  import opened GoStore

  /** The release that the archives must be built from. */
  datatype Identity = Identity(tools: Tools, version: string, revision: string)

  predicate Required(p: Platform) {
    p != WindowsAmd64
  }

  // ----- states of the release

  predicate ArchiveOk(id: Identity, assets: Assets, p: Platform) {
    Archive(p) in assets && HasIdentity(id.tools, id.version, id.revision, p, assets[Archive(p)])
  }

  /** The archive is of this release and its checksum file has its name and digest. */
  predicate PairOk(id: Identity, assets: Assets, p: Platform) {
    && ArchiveOk(id, assets, p)
    && Checksum(p) in assets
    && ChecksumSays(assets[Checksum(p)], id.tools.digest(assets[Archive(p)]), ArchiveName(id.version, p))
  }

  ghost predicate Complete(id: Identity, assets: Assets) {
    forall p :: Required(p) ==> PairOk(id, assets, p)
  }

  /** What is there of the platform is right, and there is no checksum without its archive. */
  predicate Sound(id: Identity, assets: Assets, p: Platform) {
    && (Archive(p) in assets ==> ArchiveOk(id, assets, p))
    && (Checksum(p) in assets ==> PairOk(id, assets, p))
  }

  ghost predicate Resumable(id: Identity, assets: Assets) {
    forall p :: Required(p) ==> Sound(id, assets, p)
  }

  predicate Orphan(assets: Assets, p: Platform) {
    Checksum(p) in assets && Archive(p) !in assets
  }

  ghost predicate NoOrphans(assets: Assets) {
    forall p :: Required(p) ==> !Orphan(assets, p)
  }

  // ----- steps

  predicate Same(a: Assets, b: Assets, x: Asset) {
    (x in a <==> x in b) && (x in a ==> a[x] == b[x])
  }

  /** Assets of a required platform are only added: an archive of this release while there is no checksum, and
      a checksum that fits the archive if there is one. */
  predicate KeepsPlatform(id: Identity, a: Assets, b: Assets, p: Platform) {
    && (Archive(p) in a ==> Same(a, b, Archive(p)))
    && (Checksum(p) in a ==> Same(a, b, Checksum(p)))
    && (Archive(p) in b && Archive(p) !in a ==> ArchiveOk(id, b, p) && Checksum(p) !in a && Checksum(p) !in b)
    && (Checksum(p) in b && Checksum(p) !in a ==> Same(a, b, Archive(p)) && (Archive(p) in b ==> PairOk(id, b, p)))
  }

  /** The Go tag is created, at the commit of the release, when all required pairs are in place. */
  ghost predicate Tags(id: Identity, s: Snapshot, t: Snapshot) {
    && GoTag !in s.refs
    && t == Snapshot(s.assets, s.refs[GoTag := Commit(id.revision)])
    && Complete(id, s.assets)
  }

  ghost predicate Step(id: Identity, s: Snapshot, t: Snapshot) {
    && (forall p :: Required(p) ==> KeepsPlatform(id, s.assets, t.assets, p))
    && (forall name :: Same(s.assets, t.assets, Unrelated(name)))
    && (t.refs == s.refs || Tags(id, s, t))
  }

  /** No required checksum is added while its archive is missing. */
  ghost predicate NoNewOrphan(s: Snapshot, t: Snapshot) {
    forall p :: Required(p) && Orphan(t.assets, p) ==> Orphan(s.assets, p)
  }

  ghost predicate Steps(id: Identity, history: seq<Snapshot>, first: nat) {
    forall i :: first <= i < |history| - 1 ==> Step(id, history[i], history[i + 1])
  }

  ghost predicate NoNewOrphans(history: seq<Snapshot>, first: nat) {
    forall i :: first <= i < |history| - 1 ==> NoNewOrphan(history[i], history[i + 1])
  }

  // ----- any number of runs

  /** Another run, killed at any point, continues the history of the runs before it. */
  lemma RunsCompose(id: Identity, before: seq<Snapshot>, after: seq<Snapshot>, killed: nat)
    requires before != [] && before <= after && |before| <= killed <= |after|
    requires Steps(id, before, 0) && Steps(id, after, |before| - 1)
    ensures Steps(id, after[..killed], 0)
    ensures NoNewOrphans(before, 0) && NoNewOrphans(after, |before| - 1) ==> NoNewOrphans(after[..killed], 0)
  {
  }

  /** Published assets of required platforms stay as they are. */
  lemma {:induction false} NothingIsOverwritten(id: Identity, history: seq<Snapshot>, i: nat, j: nat, p: Platform)
    requires Steps(id, history, 0) && i <= j < |history| && Required(p)
    ensures Archive(p) in history[i].assets ==> Same(history[i].assets, history[j].assets, Archive(p))
    ensures Checksum(p) in history[i].assets ==> Same(history[i].assets, history[j].assets, Checksum(p))
    decreases j - i
  {
    hide PairOk, ArchiveOk;
    if i < j {
      NothingIsOverwritten(id, history, i + 1, j, p);
      assert Step(id, history[i], history[i + 1]);
      assert KeepsPlatform(id, history[i].assets, history[i + 1].assets, p);
    }
  }

  lemma CompleteStays(id: Identity, s: Snapshot, t: Snapshot)
    requires Complete(id, s.assets) && Step(id, s, t)
    ensures Complete(id, t.assets)
  {
  }

  /** When runs start without a Go tag, a Go tag is always at the commit of the release, with all required pairs. */
  lemma {:induction false} TagMeansComplete(id: Identity, history: seq<Snapshot>, i: nat)
    requires Steps(id, history, 0) && i < |history| && GoTag !in history[0].refs
    ensures GoTag in history[i].refs ==>
              history[i].refs[GoTag] == Commit(id.revision) && Complete(id, history[i].assets)
    decreases i
  {
    hide PairOk, KeepsPlatform;
    if i > 0 {
      TagMeansComplete(id, history, i - 1);
      var s, t := history[i - 1], history[i];
      assert Step(id, s, history[i - 1 + 1]);
      if Complete(id, s.assets) {
        CompleteStays(id, s, t);
      }
    }
  }

  /** Then no run moves or removes the tag or changes a required asset. */
  lemma {:induction false} TagIsFinal(id: Identity, history: seq<Snapshot>, i: nat, j: nat)
    requires Steps(id, history, 0) && i <= j < |history| && GoTag !in history[0].refs && GoTag in history[i].refs
    ensures history[j].refs == history[i].refs
    ensures forall p :: Required(p) ==> Same(history[i].assets, history[j].assets, Archive(p)) &&
                                        Same(history[i].assets, history[j].assets, Checksum(p))
    decreases j - i
  {
    hide KeepsPlatform;
    TagMeansComplete(id, history, i);
    forall p | Required(p)
      ensures Same(history[i].assets, history[j].assets, Archive(p)) && Same(history[i].assets, history[j].assets, Checksum(p))
    {
      hide HasIdentity, ChecksumSays;
      assert PairOk(id, history[i].assets, p);
      NothingIsOverwritten(id, history, i, j, p);
    }
    if i < j {
      assert Step(id, history[i], history[i + 1]);
      TagIsFinal(id, history, i + 1, j);
    }
  }

  /** Runs change no tag but the Go tag, and no asset but those of the five platforms. */
  lemma {:induction false} TheRestStays(id: Identity, history: seq<Snapshot>, i: nat)
    requires Steps(id, history, 0) && i < |history|
    ensures history[i].refs - {GoTag} == history[0].refs - {GoTag}
    ensures forall name :: Same(history[0].assets, history[i].assets, Unrelated(name))
    decreases i
  {
    hide Complete, KeepsPlatform;
    if i > 0 {
      TheRestStays(id, history, i - 1);
      assert Step(id, history[i - 1], history[i - 1 + 1]);
    }
  }

  lemma SoundStays(id: Identity, s: Snapshot, t: Snapshot, p: Platform)
    requires Required(p) && Step(id, s, t) && Sound(id, s.assets, p)
    requires Orphan(t.assets, p) ==> Orphan(s.assets, p)
    ensures Sound(id, t.assets, p)
  {
  }

  lemma {:induction false} ResumableAfter(id: Identity, history: seq<Snapshot>, i: nat)
    requires Steps(id, history, 0) && i < |history| && Resumable(id, history[0].assets) && NoNewOrphans(history, 0)
    ensures Resumable(id, history[i].assets)
    decreases i
  {
    hide Step, Sound, Orphan;
    if i > 0 {
      ResumableAfter(id, history, i - 1);
      var s, t := history[i - 1], history[i];
      assert Step(id, s, history[i - 1 + 1]) && NoNewOrphan(s, history[i - 1 + 1]);
      forall p | Required(p)
        ensures Sound(id, t.assets, p)
      {
        SoundStays(id, s, t, p);
      }
    }
  }

  lemma NoArchive(id: Identity, assets: Assets, p: Platform)
    requires Orphan(assets, p)
    ensures !Sound(id, assets, p)
  {
  }

  /** A checksum without its archive is there for good, and no run creates the Go tag any more. */
  lemma {:induction false} OrphanStays(id: Identity, history: seq<Snapshot>, i: nat, j: nat, p: Platform)
    requires Steps(id, history, 0) && i <= j < |history| && Required(p) && Orphan(history[i].assets, p)
    ensures Orphan(history[j].assets, p) && (GoTag in history[j].refs ==> GoTag in history[i].refs)
    decreases j - i
  {
    hide HasIdentity, ChecksumSays;
    if i < j {
      assert Step(id, history[i], history[i + 1]);
      assert KeepsPlatform(id, history[i].assets, history[i + 1].assets, p);
      assert !PairOk(id, history[i].assets, p);
      OrphanStays(id, history, i + 1, j, p);
    }
  }

  /** Cut short anywhere, the runs leave a state that a further run can finish, unless some run added a checksum
      to the release without its archive; it is then still there. */
  lemma {:induction false} ResumableUnlessOrphaned(id: Identity, history: seq<Snapshot>)
    requires Steps(id, history, 0) && history != [] && Resumable(id, history[0].assets)
    ensures Resumable(id, history[|history| - 1].assets) <==> NoNewOrphans(history, 0)
    ensures Resumable(id, history[|history| - 1].assets) <==> NoOrphans(history[|history| - 1].assets)
  {
    hide Step, Sound, Orphan;
    var last := |history| - 1;
    if NoNewOrphans(history, 0) {
      ResumableAfter(id, history, last);
      forall p | Required(p)
        ensures !Orphan(history[last].assets, p)
      {
        if Orphan(history[last].assets, p) {
          NoArchive(id, history[last].assets, p);
        }
      }
    } else {
      var i: nat :| i < last && !NoNewOrphan(history[i], history[i + 1]);
      var p :| Required(p) && Orphan(history[i + 1].assets, p) && !Orphan(history[i].assets, p);
      OrphanStays(id, history, i + 1, last, p);
      NoArchive(id, history[last].assets, p);
    }
  }
}
