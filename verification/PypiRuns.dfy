/** Many runs of scripts/prepare_release_pypi.py over the same five artifacts, each followed by an upload that may
    stop after any file. */
module PypiRuns {
  import opened Results
  import opened Text
  import opened PypiNames
  import opened PypiMetadata
  import opened PypiRelease

  type Files = map<string, string>

  // ----- the registry

  /** Digests are well formed. */
  ghost predicate GoodTools(tools: Tools) {
    forall content {:trigger tools.digest(content)} :: IsDigest(tools.digest(content))
  }

  function EntryOf(tools: Tools, name: string, bytes: string): Listed {
    Listed(name, tools.digest(bytes), false, true)
  }

  ghost predicate Orders(order: seq<string>, names: set<string>) {
    && (forall n :: n in order <==> n in names)
    && (forall i, j :: 0 <= i < j < |order| ==> order[i] != order[j])
  }

  /** The registry's answer about the release when it has these files, in this order. */
  function ResponseOf(tools: Tools, version: string, files: Files, order: seq<string>): Response
    requires Orders(order, files.Keys)
  {
    if order == [] then Absent
    else Release("itofin", version,
                 seq(|order|, i requires 0 <= i < |order| => assert order[i] in files.Keys; EntryOf(tools, order[i], files[order[i]])))
  }

  /** Downloads give the bytes that were uploaded. */
  ghost predicate Serves(tools: Tools, artifacts: Directory) {
    forall n :: n in artifacts && artifacts[n].Regular? ==>
      tools.download(EntryOf(tools, n, artifacts[n].content)) == Some(artifacts[n].content)
  }

  ghost predicate AllRegular(artifacts: Directory) {
    forall n :: n in artifacts ==> artifacts[n].Regular?
  }

  /** A complete release in a directory, and tools that work on it. */
  ghost predicate Ready(tools: Tools, version: string, artifacts: Directory, listing: seq<string>) {
    GoodTools(tools) && Serves(tools, artifacts) && Complete(tools, version, artifacts) && IsListing(listing, artifacts)
  }

  /** Every file is one of the artifacts, byte for byte. */
  ghost predicate PartOf(files: Files, artifacts: Directory) {
    forall n :: n in files ==> n in artifacts && artifacts[n] == Regular(files[n])
  }

  /** The bytes of the named files of a directory. */
  function BytesOf(names: set<string>, dir: Directory): (files: Files) {
    map n | n in names && n in dir && dir[n].Regular? :: dir[n].content
  }

  class Registry {
    var files: Files
    const order: Files -> seq<string>

    ghost predicate Valid() {
      forall f {:trigger order(f)} :: Orders(order(f), f.Keys)
    }

    constructor (order: Files -> seq<string>)
      requires forall f {:trigger order(f)} :: Orders(order(f), f.Keys)
      ensures Valid() && files == map[] && this.order == order
    {
      this.order := order;
      files := map[];
    }

    method Query(tools: Tools, version: string) returns (response: Response)
      requires Valid()
      ensures Orders(order(files), files.Keys) && response == ResponseOf(tools, version, files, order(files))
    {
      response := ResponseOf(tools, version, files, order(files));
    }

    /** Uploads some files; the registry refuses a name that it has. */
    method Upload(names: set<string>, dir: Directory) returns (refused: bool)
      modifies this`files
      ensures refused <==> names * old(files).Keys != {}
      ensures files == old(files) + BytesOf(names - old(files).Keys, dir)
    {
      refused := names * files.Keys != {};
      files := files + BytesOf(names - files.Keys, dir);
    }
  }

  // ----- one answer

  lemma ResponseLists(tools: Tools, version: string, files: Files, order: seq<string>)
    requires Orders(order, files.Keys)
    ensures var response := ResponseOf(tools, version, files, order);
            && Published(response).Keys == files.Keys
            && forall n :: n in files ==> Published(response)[n] == EntryOf(tools, n, files[n])
  {
    hide ByName;
    var response := ResponseOf(tools, version, files, order);
    if order == [] {
      assert files.Keys == {};
    } else {
      var urls := response.urls;
      assert forall i :: 0 <= i < |urls| ==> urls[i].filename == order[i];
      ByNameHas(urls);
      forall n | n in files.Keys
        ensures n in Published(response) && Published(response)[n] == EntryOf(tools, n, files[n])
      {
        assert n in order;
        var i :| 0 <= i < |order| && order[i] == n;
        assert urls[i] == EntryOf(tools, n, files[n]);
      }
    }
  }

  lemma CompleteFile(tools: Tools, version: string, artifacts: Directory, n: string) returns (p: Platform)
    requires Complete(tools, version, artifacts) && n in artifacts
    ensures StandsFor(tools, version, artifacts, n, p)
  {
    hide Required, EachIsThere, StandsFor;
    assert n in artifacts.Keys;
    p :| p in Required() && StandsFor(tools, version, artifacts, n, p);
  }

  /** The release that is checked has regular files only. */
  lemma CompleteIsRegular(tools: Tools, version: string, artifacts: Directory)
    requires Complete(tools, version, artifacts)
    ensures AllRegular(artifacts)
  {
    hide Complete;
    forall n | n in artifacts
      ensures artifacts[n].Regular?
    {
      var p := CompleteFile(tools, version, artifacts, n);
    }
  }

  lemma EntryIsWell(tools: Tools, version: string, artifacts: Directory, n: string, bytes: string)
    requires GoodTools(tools) && Complete(tools, version, artifacts) && n in artifacts
    ensures WellListed(tools, EntryOf(tools, n, bytes), version)
  {
    hide Complete, Identifies, HasMetadata;
    var p := CompleteFile(tools, version, artifacts, n);
  }

  /** The registry's answer about files of a complete release is one that the script accepts. */
  lemma ResponseIsGood(tools: Tools, version: string, artifacts: Directory, files: Files, order: seq<string>)
    requires GoodTools(tools) && Complete(tools, version, artifacts)
    requires PartOf(files, artifacts) && Orders(order, files.Keys)
    ensures GoodResponse(tools, ResponseOf(tools, version, files, order), version)
  {
    hide Complete, WellListed, GoodTools;
    var response := ResponseOf(tools, version, files, order);
    if response.Release? {
      forall i | 0 <= i < |response.urls|
        ensures WellListed(tools, response.urls[i], version)
      {
        assert order[i] in files.Keys;
        EntryIsWell(tools, version, artifacts, order[i], files[order[i]]);
      }
    }
  }

  lemma CompleteIsStable(tools: Tools, version: string, artifacts: Directory)
    requires Complete(tools, version, artifacts)
    ensures Stable(tools, artifacts, artifacts)
  {
    hide Complete;
    CompleteIsRegular(tools, version, artifacts);
  }

  lemma ResponseAgrees(tools: Tools, version: string, artifacts: Directory, files: Files, order: seq<string>,
                       verifyDownloads: bool)
    requires Serves(tools, artifacts) && PartOf(files, artifacts) && Orders(order, files.Keys)
    ensures Agrees(tools, artifacts, Published(ResponseOf(tools, version, files, order)), verifyDownloads)
  {
    hide ResponseOf, Published;
    ResponseLists(tools, version, files, order);
    forall n | n in Published(ResponseOf(tools, version, files, order))
      ensures n in artifacts && Matches(tools, Published(ResponseOf(tools, version, files, order))[n], artifacts[n], verifyDownloads)
    {
      assert n in files.Keys;
    }
  }

  /** A run over unchanged artifacts passes every check when the registry has a part of them, with or without
      verifying the downloads. */
  lemma RunPasses(tools: Tools, version: string, artifacts: Directory, files: Files, order: seq<string>, verifyDownloads: bool)
    requires GoodTools(tools) && Serves(tools, artifacts) && Complete(tools, version, artifacts)
    requires PartOf(files, artifacts) && Orders(order, files.Keys)
    ensures AllChecks(tools, version, artifacts, artifacts, ResponseOf(tools, version, files, order), verifyDownloads)
    ensures Published(ResponseOf(tools, version, files, order)).Keys == files.Keys
  {
    hide Complete, GoodTools, Serves, GoodResponse, Agrees, Stable, Published, ResponseOf, PartOf;
    ResponseLists(tools, version, files, order);
    ResponseIsGood(tools, version, artifacts, files, order);
    ResponseAgrees(tools, version, artifacts, files, order, verifyDownloads);
    CompleteIsStable(tools, version, artifacts);
  }

  // ----- many runs

  /** A run still to come: whether it verifies downloads, and which of the files that it leaves are uploaded before
      the upload stops. */
  datatype Plan = Plan(verifyDownloads: bool, upload: set<string>)

  /** A run that took place: what was published before it, what it left in its workspace, its answer, and what was
      uploaded after it. */
  datatype Run = Run(before: Files, kept: Directory, unpublished: bool, uploaded: set<string>)

  function After(artifacts: Directory, run: Run): Files {
    run.before + BytesOf(run.uploaded, artifacts)
  }

  /** The run kept exactly the artifacts that were not published, which are byte for byte what is published, and
      answered whether there are any. */
  ghost predicate KeepsTheMissing(artifacts: Directory, run: Run) {
    && PartOf(run.before, artifacts)
    && run.kept == artifacts - run.before.Keys
    && (run.unpublished <==> run.before.Keys != artifacts.Keys)
    && run.uploaded <= run.kept.Keys
  }

  /** Each run found what the runs before it had published. */
  ghost predicate Follow(artifacts: Directory, start: Files, runs: seq<Run>, files: Files) {
    if runs == [] then files == start
    else
      var last := |runs| - 1;
      Follow(artifacts, start, runs[..last], runs[last].before) && files == After(artifacts, runs[last])
  }

  ghost predicate AllKeepTheMissing(artifacts: Directory, runs: seq<Run>) {
    forall k :: 0 <= k < |runs| ==> KeepsTheMissing(artifacts, runs[k])
  }

  /** What is left and planned is uploaded. */
  ghost predicate AsPlanned(plans: seq<Plan>, runs: seq<Run>) {
    |runs| == |plans| && forall k :: 0 <= k < |runs| ==> runs[k].uploaded == plans[k].upload * runs[k].kept.Keys
  }

  lemma AfterIsPart(artifacts: Directory, run: Run)
    requires KeepsTheMissing(artifacts, run)
    ensures PartOf(After(artifacts, run), artifacts)
  {
  }

  /** One run of the script in a fresh workspace, and the upload after it. */
  method RunOnce(tools: Tools, version: string, artifacts: Directory, listing: seq<string>, registry: Registry, plan: Plan)
    returns (run: Run)
    requires Ready(tools, version, artifacts, listing) && registry.Valid() && PartOf(registry.files, artifacts)
    modifies registry`files
    ensures run.before == old(registry.files) && KeepsTheMissing(artifacts, run)
    ensures run.uploaded == plan.upload * run.kept.Keys && registry.files == After(artifacts, run)
  {
    hide GoodTools, Serves, Complete, AllChecks, Published, ResponseOf, IsListing, PartOf;
    var before := registry.files;
    var workspace := new Workspace(artifacts);
    var response := registry.Query(tools, version);
    RunPasses(tools, version, artifacts, before, registry.order(before), plan.verifyDownloads);
    var prepared := workspace.Prepare(tools, "v" + version, Some(version), listing, response, artifacts, plan.verifyDownloads);
    var uploaded := plan.upload * workspace.files.Keys;
    var refused := registry.Upload(uploaded, workspace.files);
    assert !refused;
    run := Run(before, workspace.files, prepared.value, uploaded);
    assert BytesOf(uploaded - before.Keys, workspace.files) == BytesOf(uploaded, artifacts);
  }

  /** Any number of runs over the same artifacts, the upload after each stopping anywhere: every run passes its checks
      and keeps exactly the artifacts that are not published. */
  method RunAll(tools: Tools, version: string, artifacts: Directory, listing: seq<string>, registry: Registry, plans: seq<Plan>)
    returns (runs: seq<Run>)
    requires Ready(tools, version, artifacts, listing) && registry.Valid() && PartOf(registry.files, artifacts)
    modifies registry`files
    ensures AllKeepTheMissing(artifacts, runs) && AsPlanned(plans, runs)
    ensures Follow(artifacts, old(registry.files), runs, registry.files) && PartOf(registry.files, artifacts)
  {
    hide Ready, KeepsTheMissing, PartOf;
    runs := [];
    for k := 0 to |plans|
      invariant AllKeepTheMissing(artifacts, runs) && AsPlanned(plans[..k], runs)
      invariant Follow(artifacts, old(registry.files), runs, registry.files) && PartOf(registry.files, artifacts)
    {
      var run := RunOnce(tools, version, artifacts, listing, registry, plans[k]);
      AfterIsPart(artifacts, run);
      assert (runs + [run])[..k] == runs;
      runs := runs + [run];
    }
    assert plans[..|plans|] == plans;
  }

  /** What one run uploaded is published ever after. */
  lemma {:induction false} UploadedStays(artifacts: Directory, start: Files, runs: seq<Run>, files: Files, j: nat)
    requires Follow(artifacts, start, runs, files) && j < |runs|
    requires AllKeepTheMissing(artifacts, runs) && AllRegular(artifacts)
    ensures runs[j].uploaded <= files.Keys
  {
    var last := |runs| - 1;
    if j < last {
      UploadedStays(artifacts, start, runs[..last], runs[last].before, j);
    } else {
      forall n | n in runs[j].uploaded
        ensures n in files
      {
        assert n in runs[j].kept;
      }
    }
  }

  lemma {:induction false} FollowBefore(artifacts: Directory, start: Files, runs: seq<Run>, files: Files, k: nat)
    requires Follow(artifacts, start, runs, files) && k < |runs|
    ensures Follow(artifacts, start, runs[..k], runs[k].before)
  {
    var last := |runs| - 1;
    if k < last {
      FollowBefore(artifacts, start, runs[..last], runs[last].before, k);
      assert runs[..last][..k] == runs[..k];
    }
  }

  /** No run keeps a file that was uploaded after an earlier run, so nothing is uploaded twice. */
  lemma NothingUploadedTwice(artifacts: Directory, start: Files, runs: seq<Run>, files: Files, j: nat, k: nat)
    requires Follow(artifacts, start, runs, files) && j < k < |runs|
    requires AllKeepTheMissing(artifacts, runs) && AllRegular(artifacts)
    ensures runs[j].uploaded !! runs[k].kept.Keys && runs[j].uploaded !! runs[k].uploaded
  {
    hide Follow;
    FollowBefore(artifacts, start, runs, files, k);
    UploadedStays(artifacts, start, runs[..k], runs[k].before, j);
    assert KeepsTheMissing(artifacts, runs[k]);
  }

  /** Everything that was uploaded after the runs. */
  function AllUploaded(runs: seq<Run>): set<string> {
    if runs == [] then {} else AllUploaded(runs[..|runs| - 1]) + runs[|runs| - 1].uploaded
  }

  /** What is published in the end is what was there and what was uploaded. */
  lemma {:induction false} PublishedIsUploaded(artifacts: Directory, start: Files, runs: seq<Run>, files: Files)
    requires Follow(artifacts, start, runs, files)
    requires AllKeepTheMissing(artifacts, runs) && AllRegular(artifacts)
    ensures files.Keys == start.Keys + AllUploaded(runs)
  {
    hide PartOf;
    if runs != [] {
      var last := |runs| - 1;
      PublishedIsUploaded(artifacts, start, runs[..last], runs[last].before);
      assert KeepsTheMissing(artifacts, runs[last]);
      assert BytesOf(runs[last].uploaded, artifacts).Keys == runs[last].uploaded;
    }
  }

  /** A run says that nothing is left exactly when the runs before it have uploaded all that was missing at the start. */
  lemma DoneWhenAllUploaded(artifacts: Directory, start: Files, runs: seq<Run>, files: Files, k: nat)
    requires Follow(artifacts, start, runs, files) && k < |runs|
    requires AllKeepTheMissing(artifacts, runs) && AllRegular(artifacts)
    ensures !runs[k].unpublished <==> artifacts.Keys == start.Keys + AllUploaded(runs[..k])
  {
    hide Follow, PartOf, AllUploaded, AllRegular;
    FollowBefore(artifacts, start, runs, files, k);
    PublishedIsUploaded(artifacts, start, runs[..k], runs[k].before);
    assert KeepsTheMissing(artifacts, runs[k]);
  }
}
