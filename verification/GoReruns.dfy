/** Publishing one release again and again until it is done (scripts/publish_go_release.py, rerun by hand or by the
    release workflow after a failure). */
module GoReruns {
  import opened Results
  import opened GoArchive
  import opened GoChecksums
  import opened GoStore
  import opened GoHistory
  import opened GoOptional
  import opened GoPublish

  /** Where a run starts: how many commands were given before it, and how many states the store had been in. */
  datatype Start = Start(clock: nat, states: nat)

  /** A release that nothing has been published for. */
  ghost predicate Fresh(id: Identity, store: Store)
    reads store
  {
    && store.Valid() && |store.history| == 1 && Public(store)
    && GoTag !in store.refs && TagResolves(store.objects, store.refs, CoreTag, id.revision)
    && forall p :: Required(p) ==> Archive(p) !in store.assets && Checksum(p) !in store.assets
  }

  /** How run `k` ends when no command fails from its start on. */
  ghost predicate EndsWell(id: Identity, store: Store, checkout: Checkout, start: Start, since: nat, r: Result<Report, Error>)
    reads store
  {
    && 0 < start.states <= |store.history|
    && (LocalReady(checkout) && AllWork(store.faults, start.clock) ==>
          (r.Ok? <==> NoOrphans(store.history[start.states - 1].assets)) &&
          (Lossless(store.faults, since, start.clock) ==> r.Ok?))
  }

  lemma TracedOn(id: Identity, before: seq<Snapshot>, after: seq<Snapshot>)
    requires before != [] && before <= after && Steps(id, before, 0) && Steps(id, after, |before| - 1)
    ensures Steps(id, after, 0)
    ensures NoNewOrphans(before, 0) && NoNewOrphans(after, |before| - 1) ==> NoNewOrphans(after, 0)
  {
    hide Steps, NoNewOrphans;
    RunsCompose(id, before, after, |after|);
    assert after[..|after|] == after;
  }

  /** The start of a run after some others: whether it will do well is known from the release. */
  lemma StartsWell(id: Identity, checkout: Checkout, objects: map<string, Target>, history: seq<Snapshot>)
    requires history != [] && Steps(id, history, 0) && LocalReady(checkout) && checkout.id == id
    requires GoTag !in history[0].refs && TagResolves(objects, history[0].refs, CoreTag, id.revision)
    requires forall p :: Required(p) ==> Archive(p) !in history[0].assets && Checksum(p) !in history[0].assets
    ensures Ready(checkout, objects, history[|history| - 1]) <==> NoOrphans(history[|history| - 1].assets)
    ensures NoNewOrphans(history, 0) ==> NoOrphans(history[|history| - 1].assets)
  {
    hide Steps, NoNewOrphans, Ready, NoOrphans, LocalReady, TagResolves;
    RerunFinishes(checkout, objects, history);
  }

  /** One more run after `history`. */
  method PublishAgain(store: Store, checkout: Checkout, ghost since: nat) returns (r: Result<Report, Error>)
    requires Traced(store, checkout.id, 0, since) && Public(store)
    requires GoTag !in store.history[0].refs && TagResolves(store.objects, store.history[0].refs, CoreTag, checkout.id.revision)
    requires forall p :: Required(p) ==> Archive(p) !in store.history[0].assets && Checksum(p) !in store.history[0].assets
    requires GoodTools(checkout.id.tools) && IsToken(checkout.id.version)
    modifies store`clock, store`assets, store`refs, store`history
    ensures Traced(store, checkout.id, 0, since) && old(store.history) <= store.history && store.clock >= old(store.clock)
    ensures EndsWell(checkout.id, store, checkout, old(Start(store.clock, |store.history|)), since, r)
  {
    hide Steps, NoNewOrphans, LocalReady, Ready, NoOrphans, TagResolves, OutcomeHolds, Digests, Complete, OptionalReady, Lossless, GoodTools, IsToken;
    ghost var before, start := store.history, store.clock;
    if LocalReady(checkout) {
      StartsWell(checkout.id, checkout, store.objects, before);
    }
    r := Publish(store, checkout);
    TracedOn(checkout.id, before, store.history);
    if Lossless(store.faults, since, store.clock) {
      LosslessParts(store.faults, since, start, store.clock);
    }
  }

  /** Any number of runs on a fresh release, each with archives built anew and cut short by any faults: all that they
      do are steps, and a run from whose start on no command fails succeeds exactly when no checksum is without its
      archive at that start, in particular when no upload has been lost. */
  method PublishRepeatedly(store: Store, id: Identity, checkouts: seq<Checkout>)
    returns (results: seq<Result<Report, Error>>, ghost starts: seq<Start>)
    requires Fresh(id, store) && GoodTools(id.tools) && IsToken(id.version)
    requires forall k :: 0 <= k < |checkouts| ==> checkouts[k].id == id
    modifies store`clock, store`assets, store`refs, store`history
    ensures Traced(store, id, 0, old(store.clock)) && old(store.history) <= store.history
    ensures |results| == |checkouts| == |starts|
    ensures forall k :: 0 <= k < |checkouts| ==> EndsWell(id, store, checkouts[k], starts[k], old(store.clock), results[k])
  {
    hide Steps, NoNewOrphans, LocalReady, NoOrphans, TagResolves, Lossless, GoodTools, IsToken;
    results, starts := [], [];
    ghost var since := store.clock;
    AtStart(id, store.history);
    for k := 0 to |checkouts|
      invariant Traced(store, id, 0, since) && old(store.history) <= store.history
      invariant |results| == k == |starts|
      invariant forall j :: 0 <= j < k ==> EndsWell(id, store, checkouts[j], starts[j], since, results[j])
    {
      ghost var start := Start(store.clock, |store.history|);
      var r := PublishAgain(store, checkouts[k], since);
      results, starts := results + [r], starts + [start];
    }
  }

  // ----- any release

  /** Whenever there is a Go tag it is at the commit of the release, with all required pairs. */
  ghost predicate TagIsSound(id: Identity, history: seq<Snapshot>) {
    forall i :: 0 <= i < |history| && GoTag in history[i].refs ==>
      history[i].refs[GoTag] == Commit(id.revision) && Complete(id, history[i].assets)
  }

  /** The tags and the required assets are the same. */
  ghost predicate SameRelease(s: Snapshot, t: Snapshot) {
    && s.refs == t.refs
    && forall p :: Required(p) ==> Same(s.assets, t.assets, Archive(p)) && Same(s.assets, t.assets, Checksum(p))
  }

  /** From the first state with a Go tag on, nothing that is required changes any more. */
  ghost predicate TagStays(history: seq<Snapshot>) {
    forall i, j :: 0 <= i <= j < |history| && GoTag in history[i].refs ==> SameRelease(history[i], history[j])
  }

  lemma TagIsSafe(id: Identity, history: seq<Snapshot>)
    requires history != [] && Steps(id, history, 0) && GoTag !in history[0].refs
    ensures TagIsSound(id, history) && TagStays(history)
  {
    hide Steps, Complete;
    forall i | 0 <= i < |history| && GoTag in history[i].refs
      ensures history[i].refs[GoTag] == Commit(id.revision) && Complete(id, history[i].assets)
    {
      TagMeansComplete(id, history, i);
    }
    forall i, j | 0 <= i <= j < |history| && GoTag in history[i].refs
      ensures SameRelease(history[i], history[j])
    {
      TagIsFinal(id, history, i, j);
    }
  }

  /** A checkout of the same version, made with the same tools, at any commit. */
  ghost predicate SameVersion(id: Identity, checkout: Checkout) {
    checkout.id == id.(revision := checkout.id.revision)
  }

  /** What run `k` does to the history: nothing if its checkout is at another commit, and the tag is there when it
      succeeds. */
  ghost predicate RunIsSafe(id: Identity, checkout: Checkout, history: seq<Snapshot>, states: nat, after: nat, r: Result<Report, Error>) {
    && 0 < states <= after <= |history|
    && (checkout.id.revision != id.revision ==> r.Err? && after == states)
    && (r.Ok? ==> GoTag in history[after - 1].refs)
  }

  /** One run on any release, from a checkout at any commit. */
  method PublishOne(store: Store, id: Identity, checkout: Checkout) returns (r: Result<Report, Error>)
    requires store.Valid() && Steps(id, store.history, 0) && GoodTools(id.tools) && IsToken(id.version)
    requires TagResolves(store.objects, store.history[0].refs, CoreTag, id.revision) && SameVersion(id, checkout)
    modifies store`clock, store`assets, store`refs, store`history
    ensures store.Valid() && Steps(id, store.history, 0) && old(store.history) <= store.history
    ensures RunIsSafe(id, checkout, store.history, old(|store.history|), |store.history|, r)
  {
    hide Steps, NoNewOrphans, LocalReady, Ready, OutcomeHolds, Digests, Complete, OptionalReady, Lossless, GoodTools, IsToken, Resolve;
    ghost var before := store.history;
    CoreTagStays(id, store.objects, before);
    r := Publish(store, checkout);
    if checkout.id.revision == id.revision {
      TracedOn(id, before, store.history);
    }
  }

  /** Any number of runs on any release that has no Go tag, with any faults and from checkouts at any commits: all that
      they do are steps of the release that the core tag is at, so a Go tag is only ever at its commit with all required
      pairs, and from then on stays with them. */
  method PublishFromAnywhere(store: Store, id: Identity, checkouts: seq<Checkout>)
    returns (results: seq<Result<Report, Error>>, ghost states: seq<nat>)
    requires store.Valid() && |store.history| == 1 && GoodTools(id.tools) && IsToken(id.version)
    requires GoTag !in store.refs && TagResolves(store.objects, store.refs, CoreTag, id.revision)
    requires forall k :: 0 <= k < |checkouts| ==> SameVersion(id, checkouts[k])
    modifies store`clock, store`assets, store`refs, store`history
    ensures store.Valid() && old(store.history) <= store.history && Steps(id, store.history, 0)
    ensures TagIsSound(id, store.history) && TagStays(store.history)
    ensures |results| == |checkouts| && |states| == |checkouts| + 1 && states[0] == 1 && states[|checkouts|] == |store.history|
    ensures forall k :: 0 <= k < |checkouts| ==>
              RunIsSafe(id, checkouts[k], store.history, states[k], states[k + 1], results[k])
  {
    hide Steps, TagIsSound, TagStays, GoodTools, IsToken, SameVersion, TagResolves;
    results, states := [], [1];
    AtStart(id, store.history);
    for k := 0 to |checkouts|
      invariant store.Valid() && old(store.history) <= store.history && Steps(id, store.history, 0)
      invariant |results| == k && |states| == k + 1 && states[0] == 1 && states[k] == |store.history|
      invariant forall j :: 0 <= j < k ==> RunIsSafe(id, checkouts[j], store.history, states[j], states[j + 1], results[j])
    {
      var r := PublishOne(store, id, checkouts[k]);
      results, states := results + [r], states + [|store.history|];
    }
    TagIsSafe(id, store.history);
  }
}
