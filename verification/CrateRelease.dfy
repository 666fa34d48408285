/** Publishing a crate at most once against a registry that shows it late (scripts/publish_release_crate.py). */
module CrateRelease {
  import opened Results
  import opened Archives
  import opened Text
  import opened CrateArchive

  /** What fetching a registry resource gives: a 404, an error, or the resource. */
  datatype Fetched<T> = NotFound | Failed | Got(value: T)

  datatype ApiVersion = ApiVersion(crateName: string, number: string, yanked: Flag, checksum: Option<string>)

  datatype IndexRow = IndexRow(name: string, version: string, yanked: Flag, checksum: string)

  /** The three resources that one probe may fetch. */
  datatype Registry = Registry(api: Fetched<ApiVersion>, index: Fetched<seq<IndexRow>>, download: Fetched<string>)

  /** The release that is being published, and the tools that read an archive. */
  datatype Release = Release(
    package: string, version: string, revision: string, path: string, expected: map<string, string>,
    digest: string -> string, unpack: string -> seq<Member>, parse: string -> Option<Source>)
  {
    function Prefix(): string {
      package + "-" + version + "/"
    }
  }

  /** What one probe answers: no such version, confirmed, accepted but not installable yet, or an error. */
  datatype Answer = Unpublished | Confirmed | Pending | Broken

  /** The version endpoint knows the release, not yanked, with a well-formed checksum. */
  predicate ApiAgrees(rel: Release, api: ApiVersion) {
    && api.crateName == rel.package
    && api.number == rel.version
    && api.yanked == False
    && api.checksum.Some?
    && IsDigest(api.checksum.value)
  }

  function Matching(rows: seq<IndexRow>, version: string): seq<IndexRow> {
    if rows == [] then []
    else (if rows[0].version == version then [rows[0]] else []) + Matching(rows[1..], version)
  }

  function IndexRows(index: Fetched<seq<IndexRow>>): seq<IndexRow> {
    if index.Got? then index.value else []
  }

  predicate IndexAgrees(rel: Release, row: IndexRow, checksum: string) {
    row.name == rel.package && row.yanked == False && row.checksum == checksum
  }

  /** The downloaded archive has the published digest and holds exactly the verified files. */
  ghost predicate DownloadAgrees(rel: Release, data: string, checksum: string) {
    && rel.digest(data) == checksum
    && Sound(rel.unpack(data), rel.package + "-" + rel.version + "/", rel.revision, rel.path, rel.parse)
    && FilesOf(rel.unpack(data)) == rel.expected
  }

  // ----- what a probe looks at

  /** Row `i` is the only one of the version. */
  ghost predicate OnlyRow(rows: seq<IndexRow>, version: string, i: nat) {
    && i < |rows| && rows[i].version == version
    && forall j :: 0 <= j < |rows| && rows[j].version == version ==> j == i
  }

  ghost predicate NoRow(rows: seq<IndexRow>, version: string) {
    forall j :: 0 <= j < |rows| ==> rows[j].version != version
  }

  lemma {:induction false} MatchingNone(rows: seq<IndexRow>, version: string)
    ensures Matching(rows, version) == [] <==> NoRow(rows, version)
  {
    if rows != [] {
      MatchingNone(rows[1..], version);
      assert forall j :: 0 < j < |rows| ==> rows[j] == rows[1..][j - 1];
    }
  }

  lemma {:induction false} MatchingOne(rows: seq<IndexRow>, version: string, i: nat)
    requires OnlyRow(rows, version, i)
    ensures Matching(rows, version) == [rows[i]]
  {
    var rest := rows[1..];
    assert forall j :: 0 < j < |rows| ==> rows[j] == rest[j - 1];
    if i == 0 {
      MatchingNone(rest, version);
    } else {
      assert rows[0].version != version;
      MatchingOne(rest, version, i - 1);
    }
  }

  lemma {:induction false} MatchingIsOnly(rows: seq<IndexRow>, version: string) returns (i: nat)
    requires |Matching(rows, version)| == 1
    ensures OnlyRow(rows, version, i)
  {
    var rest := rows[1..];
    assert forall j :: 0 < j < |rows| ==> rows[j] == rest[j - 1];
    if rows[0].version == version {
      MatchingNone(rest, version);
      i := 0;
    } else {
      var k := MatchingIsOnly(rest, version);
      i := k + 1;
    }
  }

  lemma NothingMatches(version: string)
    ensures Matching([], version) == []
  {
  }

  /** The endpoint knows this version of this package, not yanked, with a checksum of 64 hexadecimal digits. */
  predicate KnownTo(rel: Release, api: Fetched<ApiVersion>, checksum: string) {
    && api == Got(ApiVersion(rel.package, rel.version, False, Some(checksum)))
    && |checksum| == 64 && forall i :: 0 <= i < 64 ==> checksum[i] in "0123456789abcdef"
  }

  lemma KnownChecksum(rel: Release, api: Fetched<ApiVersion>, checksum: string)
    ensures KnownTo(rel, api, checksum) <==> api.Got? && ApiAgrees(rel, api.value) && api.value.checksum.value == checksum
  {
    if |checksum| == 64 {
      forall i | 0 <= i < 64
        ensures checksum[i] in "0123456789abcdef" <==> '0' <= checksum[i] <= '9' || 'a' <= checksum[i] <= 'f'
      {
        HexDigit(checksum[i]);
      }
    }
  }

  lemma HexDigit(c: char)
    ensures c in "0123456789abcdef" <==> '0' <= c <= '9' || 'a' <= c <= 'f'
  {
    var hex := "0123456789abcdef";
    if '0' <= c <= '9' {
      assert hex[c as int - '0' as int] == c;
    } else if 'a' <= c <= 'f' {
      assert hex[c as int - 'a' as int + 10] == c;
    }
  }

  /** The index has one row of the version, for the package, not yanked, with the checksum. */
  ghost predicate IndexedOnce(rel: Release, rows: seq<IndexRow>, checksum: string) {
    exists i: nat :: OnlyRow(rows, rel.version, i) && rows[i] == IndexRow(rel.package, rel.version, False, checksum)
  }

  lemma IndexedMatches(rel: Release, rows: seq<IndexRow>, checksum: string)
    ensures IndexedOnce(rel, rows, checksum)
       <==> |Matching(rows, rel.version)| == 1 && IndexAgrees(rel, Matching(rows, rel.version)[0], checksum)
  {
    if i: nat :| OnlyRow(rows, rel.version, i) && rows[i] == IndexRow(rel.package, rel.version, False, checksum) {
      MatchingOne(rows, rel.version, i);
    } else if |Matching(rows, rel.version)| == 1 {
      var i := MatchingIsOnly(rows, rel.version);
      MatchingOne(rows, rel.version, i);
    }
  }

  /** The endpoint knows the version, one row of the index has it with the same checksum, and the download has that
      digest and exactly the verified files. */
  ghost predicate AllAgree(rel: Release, reg: Registry) {
    && reg.api.Got? && reg.api.value.checksum.Some? && reg.index.Got? && reg.download.Got?
    && var checksum := reg.api.value.checksum.value;
    && KnownTo(rel, reg.api, checksum)
    && IndexedOnce(rel, reg.index.value, checksum)
    && DownloadAgrees(rel, reg.download.value, checksum)
  }

  /** The endpoint knows the version, and the index has no row of it, or is not there at all, or has the right one
      while there is no download. */
  ghost predicate NotYetVisible(rel: Release, reg: Registry) {
    && reg.api.Got? && reg.api.value.checksum.Some?
    && var checksum := reg.api.value.checksum.value;
    && KnownTo(rel, reg.api, checksum)
    && match reg.index
       case NotFound => true
       case Failed => false
       case Got(rows) => NoRow(rows, rel.version) || (IndexedOnce(rel, rows, checksum) && reg.download.NotFound?)
  }

  lemma NotBoth(rel: Release, rows: seq<IndexRow>, checksum: string)
    requires NoRow(rows, rel.version)
    ensures !IndexedOnce(rel, rows, checksum)
  {
  }

  /** What a probe answers to what the registry shows. */
  ghost function AnswerTo(rel: Release, reg: Registry): Answer {
    if reg.api.NotFound? then Unpublished
    else if AllAgree(rel, reg) then Confirmed
    else if NotYetVisible(rel, reg) then Pending
    else Broken
  }

  /** One probe. */
  method Existing(rel: Release, reg: Registry) returns (answer: Answer)
    ensures answer == Unpublished <==> reg.api.NotFound?
    ensures answer == Confirmed <==> AllAgree(rel, reg)
    ensures answer == Pending <==> NotYetVisible(rel, reg)
  {
    hide Sound, FilesOf, IsDigest, IndexAgrees, Matching, IndexedOnce, KnownTo, NoRow;
    if reg.api.NotFound? {
      return Unpublished;
    }
    if reg.api.Got? && reg.api.value.checksum.Some? {
      KnownChecksum(rel, reg.api, reg.api.value.checksum.value);
    }
    if reg.api.Failed? || !ApiAgrees(rel, reg.api.value) {
      return Broken;
    }
    var checksum := reg.api.value.checksum.value;
    if reg.index.Got? {
      IndexedMatches(rel, reg.index.value, checksum);
      MatchingNone(reg.index.value, rel.version);
    }
    NothingMatches(rel.version);
    if reg.index.Failed? {
      return Broken;
    }
    var matches := Matching(IndexRows(reg.index), rel.version);
    if matches == [] {
      return Pending;
    }
    if |matches| != 1 || !IndexAgrees(rel, matches[0], checksum) {
      return Broken;
    }
    if reg.download.NotFound? {
      return Pending;
    }
    if reg.download.Failed? || rel.digest(reg.download.value) != checksum {
      return Broken;
    }
    var files := ArchiveFiles(rel.unpack(reg.download.value), rel.Prefix(), rel.revision, rel.path, rel.parse);
    if files.Err? || files.value != rel.expected {
      return Broken;
    }
    return Confirmed;
  }

  // ----- one run

  const DELAYS: seq<nat> := [2, 4, 8, 16, 30]

  /** An effect of a run: a probe, a pause, or a call of `cargo publish`, with its exit code and whether the
      registry accepted the upload. */
  datatype Event = Probed(answer: Answer) | Slept(seconds: nat) | Uploaded(code: int, accepted: bool)

  datatype Outcome = AlreadyPublished | Published | ReconciledAfterError | NotInstallable | NotConfirmed | ProbeError

  /** How polling ends: confirmed, given up, or stopped by an error. */
  datatype Polled = Seen | GaveUp | Stopped

  /** The events of polling from attempt `k` on, when the k-th poll gives `answers[k]`. */
  function PollEvents(answers: seq<Answer>, k: nat): (events: seq<Event>)
    requires |answers| == |DELAYS| + 1 && k <= |DELAYS|
    ensures events != []
    decreases |DELAYS| - k
  {
    [Probed(answers[k])] +
    if answers[k] == Confirmed || answers[k] == Broken || k == |DELAYS| then []
    else [Slept(DELAYS[k])] + PollEvents(answers, k + 1)
  }

  function PollResult(answers: seq<Answer>, k: nat): Polled
    requires |answers| == |DELAYS| + 1 && k <= |DELAYS|
    decreases |DELAYS| - k
  {
    if answers[k] == Confirmed then Seen
    else if answers[k] == Broken then Stopped
    else if k == |DELAYS| then GaveUp
    else PollResult(answers, k + 1)
  }

  predicate StopsAt(answers: seq<Answer>, k: nat)
    requires |answers| == |DELAYS| + 1 && k <= |DELAYS|
  {
    answers[k] == Confirmed || answers[k] == Broken || k == |DELAYS|
  }

  lemma PollSteps(answers: seq<Answer>, k: nat, before: seq<Event>)
    requires |answers| == |DELAYS| + 1 && k <= |DELAYS|
    ensures StopsAt(answers, k) ==> before + PollEvents(answers, k) == before + [Probed(answers[k])]
    ensures !StopsAt(answers, k) ==>
              before + PollEvents(answers, k) == before + [Probed(answers[k])] + [Slept(DELAYS[k])] + PollEvents(answers, k + 1)
    ensures PollResult(answers, k)
         == if answers[k] == Confirmed then Seen
            else if answers[k] == Broken then Stopped
            else if k == |DELAYS| then GaveUp
            else PollResult(answers, k + 1)
  {
  }

  /** Everything the registry will do during a run: the first probe, the upload, and the polls. */
  datatype Script = Script(first: Answer, code: int, accepted: bool, polls: seq<Answer>)

  predicate ValidScript(s: Script) {
    |s.polls| == |DELAYS| + 1
  }

  /** The events of a whole run. */
  function RunEvents(s: Script): seq<Event>
    requires ValidScript(s)
  {
    [Probed(s.first)] +
    match s.first
    case Confirmed => []
    case Broken => []
    case Pending => PollEvents(s.polls, 0)
    case Unpublished => [Uploaded(s.code, s.accepted)] + PollEvents(s.polls, 0)
  }

  function RunOutcome(s: Script): Outcome
    requires ValidScript(s)
  {
    match s.first
    case Confirmed => AlreadyPublished
    case Broken => ProbeError
    case Pending =>
      (match PollResult(s.polls, 0) case Seen => AlreadyPublished case GaveUp => NotInstallable case Stopped => ProbeError)
    case Unpublished =>
      match PollResult(s.polls, 0)
      case Seen => if s.code == 0 then Published else ReconciledAfterError
      case GaveUp => NotConfirmed
      case Stopped => ProbeError
  }

  predicate IsSuccess(outcome: Outcome) {
    outcome == AlreadyPublished || outcome == Published || outcome == ReconciledAfterError
  }

  /** What a run will meet, when the registry shows `registries[k]` to its k-th probe. */
  ghost function ScriptOf(rel: Release, registries: seq<Registry>, code: int, accepted: bool): (s: Script)
    requires |registries| == |DELAYS| + 2
    ensures ValidScript(s)
  {
    Script(AnswerTo(rel, registries[0]), code, accepted,
           seq(|DELAYS| + 1, k requires 0 <= k <= |DELAYS| => AnswerTo(rel, registries[k + 1])))
  }

  /** A run of the script; `registries` is what the registry will show at each probe, and `log` is what the run has
      done so far. */
  class Session {
    const rel: Release
    const registries: seq<Registry>
    const code: int
    const accepted: bool
    var log: seq<Event>
    var probes: nat

    ghost predicate Valid()
      reads this
    {
      |registries| == |DELAYS| + 2 && probes == Probes(log) && probes <= |registries|
    }

    ghost function Script(): (s: Script)
      requires |registries| == |DELAYS| + 2
      ensures ValidScript(s)
    {
      ScriptOf(rel, registries, code, accepted)
    }

    constructor (rel: Release, registries: seq<Registry>, code: int, accepted: bool)
      requires |registries| == |DELAYS| + 2
      ensures this.rel == rel && this.registries == registries && this.code == code && this.accepted == accepted
      ensures Valid() && log == []
    {
      this.rel, this.registries, this.code, this.accepted := rel, registries, code, accepted;
      log, probes := [], 0;
    }

    method Probe() returns (answer: Answer)
      requires Valid() && probes < |registries|
      modifies this
      ensures answer == AnswerTo(rel, registries[old(probes)])
      ensures Valid() && log == old(log) + [Probed(answer)] && probes == old(probes) + 1
    {
      hide AllAgree, NotYetVisible;
      answer := Existing(rel, registries[probes]);
      ProbesAppend(log, Probed(answer));
      log := log + [Probed(answer)];
      probes := probes + 1;
    }

    method Sleep(seconds: nat)
      requires Valid()
      modifies this`log
      ensures Valid() && log == old(log) + [Slept(seconds)]
    {
      ProbesAppend(log, Slept(seconds));
      log := log + [Slept(seconds)];
    }

    method Upload() returns (code: int)
      requires Valid()
      modifies this`log
      ensures Valid() && code == this.code && log == old(log) + [Uploaded(code, accepted)]
    {
      ProbesAppend(log, Uploaded(this.code, accepted));
      code := this.code;
      log := log + [Uploaded(code, accepted)];
    }

    method Reconcile() returns (result: Polled)
      requires Valid() && probes == 1
      modifies this
      ensures Valid() && result == PollResult(Script().polls, 0)
      ensures log == old(log) + PollEvents(Script().polls, 0)
    {
      hide PollEvents, PollResult, Probes, AnswerTo;
      ghost var answers := Script().polls;
      ghost var all := log + PollEvents(answers, 0);
      for attempt := 0 to |DELAYS| + 1
        invariant Valid() && probes == attempt + 1
        invariant attempt <= |DELAYS| ==>
          PollResult(answers, 0) == PollResult(answers, attempt) && all == log + PollEvents(answers, attempt)
        invariant attempt > |DELAYS| ==> PollResult(answers, 0) == GaveUp && all == log
      {
        PollSteps(answers, attempt, log);
        var answer := Probe();
        if answer == Confirmed {
          return Seen;
        }
        if answer == Broken {
          return Stopped;
        }
        if attempt < |DELAYS| {
          Sleep(DELAYS[attempt]);
        }
      }
      return GaveUp;
    }

    /** Uploads only if the first probe says the version does not exist, and reports success only if endpoint,
        index, download, source and files all agreed at its last probe. */
    method PublishOnce() returns (outcome: Outcome)
      requires Valid() && log == []
      modifies this
      ensures Valid() && log == RunEvents(Script()) && outcome == RunOutcome(Script())
      ensures IsSuccess(outcome) ==> probes > 0 && AllAgree(rel, registries[probes - 1])
    {
      hide PollEvents, PollResult, AllAgree, AnswerTo;
      SuccessIsAgreement(rel, registries, code, accepted);
      var first := Probe();
      if first == Confirmed {
        return AlreadyPublished;
      }
      if first == Broken {
        return ProbeError;
      }
      if first == Pending {
        var result := Reconcile();
        return match result case Seen => AlreadyPublished case GaveUp => NotInstallable case Stopped => ProbeError;
      }
      var code := Upload();
      var result := Reconcile();
      match result {
        case Stopped => return ProbeError;
        case GaveUp => return NotConfirmed;
        case Seen => return if code == 0 then Published else ReconciledAfterError;
      }
    }
  }

  // ----- what a run costs

  function Probes(events: seq<Event>): nat {
    if events == [] then 0 else (if events[0].Probed? then 1 else 0) + Probes(events[1..])
  }

  function Pauses(events: seq<Event>): nat {
    if events == [] then 0 else (if events[0].Slept? then events[0].seconds else 0) + Pauses(events[1..])
  }

  function Uploads(events: seq<Event>): nat {
    if events == [] then 0 else (if events[0].Uploaded? then 1 else 0) + Uploads(events[1..])
  }

  function DelaysFrom(k: nat): nat
    requires k <= |DELAYS|
    decreases |DELAYS| - k
  {
    if k == |DELAYS| then 0 else DELAYS[k] + DelaysFrom(k + 1)
  }

  lemma {:induction false} ProbesAppend(events: seq<Event>, e: Event)
    ensures Probes(events + [e]) == Probes(events) + if e.Probed? then 1 else 0
  {
    if events != [] {
      assert (events + [e])[1..] == events[1..] + [e];
      ProbesAppend(events[1..], e);
    }
  }

  lemma {:induction false} PollCost(answers: seq<Answer>, k: nat)
    requires |answers| == |DELAYS| + 1 && k <= |DELAYS|
    ensures Probes(PollEvents(answers, k)) <= |DELAYS| + 1 - k
    ensures Pauses(PollEvents(answers, k)) <= DelaysFrom(k)
    ensures Uploads(PollEvents(answers, k)) == 0
    decreases |DELAYS| - k
  {
    if answers[k] == Confirmed || answers[k] == Broken || k == |DELAYS| {
      assert PollEvents(answers, k)[1..] == [];
    } else {
      PollCost(answers, k + 1);
      var rest := PollEvents(answers, k + 1);
      assert PollEvents(answers, k)[1..] == [Slept(DELAYS[k])] + rest;
      assert ([Slept(DELAYS[k])] + rest)[1..] == rest;
    }
  }

  /** A run makes at most seven probes and one upload, and sleeps at most a minute; it uploads exactly when the
      first probe finds no such version. */
  lemma RunCost(s: Script)
    requires ValidScript(s)
    ensures Probes(RunEvents(s)) <= 7 && Pauses(RunEvents(s)) <= 60
    ensures Uploads(RunEvents(s)) == if s.first == Unpublished then 1 else 0
  {
    PollCost(s.polls, 0);
    AllDelays();
    var polling := PollEvents(s.polls, 0);
    var events := RunEvents(s);
    if s.first == Pending {
      assert events[1..] == polling;
    } else if s.first == Unpublished {
      assert events[1..] == [Uploaded(s.code, s.accepted)] + polling;
      assert events[1..][1..] == polling;
    } else {
      assert events[1..] == [];
    }
  }

  /** Polling sees the version exactly when some poll confirms it before any poll fails. */
  lemma {:induction false} PollSees(answers: seq<Answer>, k: nat)
    requires |answers| == |DELAYS| + 1 && k <= |DELAYS|
    ensures PollResult(answers, k) == Seen <==>
              exists j :: k <= j <= |DELAYS| && answers[j] == Confirmed && forall i :: k <= i < j ==> answers[i] != Broken
    decreases |DELAYS| - k
  {
    if !StopsAt(answers, k) {
      PollSees(answers, k + 1);
    }
  }

  /** A run succeeds exactly when its first probe confirms the version, or some poll does before any fails. */
  lemma RunSucceeds(s: Script)
    requires ValidScript(s)
    ensures IsSuccess(RunOutcome(s)) <==>
              s.first == Confirmed ||
              (s.first != Broken &&
               exists j :: 0 <= j <= |DELAYS| && s.polls[j] == Confirmed && forall i :: 0 <= i < j ==> s.polls[i] != Broken)
  {
    hide PollResult;
    PollSees(s.polls, 0);
  }

  lemma {:induction false} PollEndsConfirmed(answers: seq<Answer>, k: nat)
    requires |answers| == |DELAYS| + 1 && k <= |DELAYS| && PollResult(answers, k) == Seen
    ensures var n := Probes(PollEvents(answers, k)); 0 < n && k + n <= |answers| && answers[k + n - 1] == Confirmed
    ensures var events := PollEvents(answers, k); events[|events| - 1] == Probed(Confirmed)
    decreases |DELAYS| - k
  {
    if answers[k] != Confirmed {
      PollEndsConfirmed(answers, k + 1);
      ProbesOfPolling(answers, k);
    }
  }

  lemma ProbesOfPolling(answers: seq<Answer>, k: nat)
    requires |answers| == |DELAYS| + 1 && k <= |DELAYS|
    ensures Probes(PollEvents(answers, k)) == if StopsAt(answers, k) then 1 else 1 + Probes(PollEvents(answers, k + 1))
  {
    var events := PollEvents(answers, k);
    if StopsAt(answers, k) {
      assert events[1..] == [];
    } else {
      assert events[1..][1..] == PollEvents(answers, k + 1);
    }
  }

  lemma ProbesOfRun(s: Script)
    requires ValidScript(s)
    ensures Probes(RunEvents(s))
         == if s.first == Pending || s.first == Unpublished then 1 + Probes(PollEvents(s.polls, 0)) else 1
  {
    hide PollEvents;
    var events := RunEvents(s);
    if s.first == Pending {
      assert events[1..] == PollEvents(s.polls, 0);
    } else if s.first == Unpublished {
      assert events[1..][1..] == PollEvents(s.polls, 0);
    } else {
      assert events[1..] == [];
    }
  }

  /** The last thing a successful run does is a probe that confirms the version. */
  lemma SuccessIsConfirmed(s: Script)
    requires ValidScript(s) && IsSuccess(RunOutcome(s))
    ensures var events := RunEvents(s); events[|events| - 1] == Probed(Confirmed)
  {
    hide PollEvents, PollResult;
    if s.first != Confirmed {
      PollEndsConfirmed(s.polls, 0);
    }
  }

  /** A run only succeeds when the endpoint, the index, the download and the verified package all agreed at its
      last probe. */
  lemma SuccessIsAgreement(rel: Release, registries: seq<Registry>, code: int, accepted: bool)
    requires |registries| == |DELAYS| + 2
    ensures var s := ScriptOf(rel, registries, code, accepted);
            var n := Probes(RunEvents(s));
            IsSuccess(RunOutcome(s)) ==> 0 < n <= |registries| && AllAgree(rel, registries[n - 1])
  {
    hide PollEvents, PollResult, Probes, RunEvents, AllAgree, NotYetVisible;
    var s := ScriptOf(rel, registries, code, accepted);
    ProbesOfRun(s);
    if IsSuccess(RunOutcome(s)) && s.first != Confirmed {
      PollEndsConfirmed(s.polls, 0);
    }
  }

  lemma LastOfPolling(answers: seq<Answer>, k: nat)
    requires |answers| == |DELAYS| + 1 && k <= |DELAYS|
    ensures var events := PollEvents(answers, k);
            events[|events| - 1] == if StopsAt(answers, k) then Probed(answers[k])
                                    else var rest := PollEvents(answers, k + 1); rest[|rest| - 1]
  {
  }

  lemma ResultOfPolling(answers: seq<Answer>, k: nat)
    requires |answers| == |DELAYS| + 1 && k <= |DELAYS|
    ensures PollResult(answers, k)
         == if !StopsAt(answers, k) then PollResult(answers, k + 1)
            else if answers[k] == Confirmed then Seen else if answers[k] == Broken then Stopped else GaveUp
  {
  }

  /** How polling ends shows in its last probe. */
  lemma {:induction false} PollEnds(answers: seq<Answer>, k: nat)
    requires |answers| == |DELAYS| + 1 && k <= |DELAYS|
    ensures var events := PollEvents(answers, k);
            var last := events[|events| - 1];
            && last.Probed?
            && (PollResult(answers, k) == Seen <==> last.answer == Confirmed)
            && (PollResult(answers, k) == Stopped <==> last.answer == Broken)
    decreases |DELAYS| - k
  {
    LastOfPolling(answers, k);
    ResultOfPolling(answers, k);
    hide PollEvents, PollResult;
    if !StopsAt(answers, k) {
      PollEnds(answers, k + 1);
    }
  }

  /** Giving up takes every probe and every pause. */
  lemma {:induction false} GivingUpCosts(answers: seq<Answer>, k: nat)
    requires |answers| == |DELAYS| + 1 && k <= |DELAYS| && PollResult(answers, k) == GaveUp
    ensures Probes(PollEvents(answers, k)) == |DELAYS| + 1 - k && Pauses(PollEvents(answers, k)) == DelaysFrom(k)
    decreases |DELAYS| - k
  {
    ProbesOfPolling(answers, k);
    PausesOfPolling(answers, k);
    ResultOfPolling(answers, k);
    hide PollEvents, PollResult, Probes, Pauses;
    if !StopsAt(answers, k) {
      GivingUpCosts(answers, k + 1);
    }
  }

  /** A run that gives up has made every probe and has waited a minute. */
  lemma GivingUpTakesAMinute(s: Script)
    requires ValidScript(s) && RunOutcome(s) in {NotInstallable, NotConfirmed}
    ensures Probes(RunEvents(s)) == 7 && Pauses(RunEvents(s)) == 60
  {
    AllDelays();
    hide PollEvents, PollResult, DelaysFrom;
    GivingUpCosts(s.polls, 0);
    ProbesOfRun(s);
    var events, polling := RunEvents(s), PollEvents(s.polls, 0);
    if s.first == Pending {
      assert events[1..] == polling;
    } else {
      assert events[1..][1..] == polling;
    }
  }

  lemma AllDelays()
    ensures DelaysFrom(0) == 60
  {
    assert DelaysFrom(5) == 0 && DelaysFrom(4) == 30 && DelaysFrom(3) == 46 && DelaysFrom(2) == 54 && DelaysFrom(1) == 58;
  }

  lemma PausesOfPolling(answers: seq<Answer>, k: nat)
    requires |answers| == |DELAYS| + 1 && k <= |DELAYS|
    ensures Pauses(PollEvents(answers, k)) == if StopsAt(answers, k) then 0 else DELAYS[k] + Pauses(PollEvents(answers, k + 1))
  {
    var events := PollEvents(answers, k);
    if StopsAt(answers, k) {
      assert events[1..] == [];
    } else {
      assert events[1..][1..] == PollEvents(answers, k + 1);
    }
  }

  /** The outcome of a run from what it did: whether it uploaded, with which exit code, and what its last probe
      answered. */
  lemma OutcomeMeans(s: Script)
    requires ValidScript(s)
    ensures var events, outcome := RunEvents(s), RunOutcome(s);
            var uploaded := |events| > 1 && events[1].Uploaded?;
            var last := events[|events| - 1];
            && last.Probed?
            && (outcome == AlreadyPublished <==> !uploaded && last.answer == Confirmed)
            && (outcome == Published <==> uploaded && events[1].code == 0 && last.answer == Confirmed)
            && (outcome == ReconciledAfterError <==> uploaded && events[1].code != 0 && last.answer == Confirmed)
            && (outcome == ProbeError <==> last.answer == Broken)
            && (outcome == NotInstallable <==> !uploaded && last.answer in {Pending, Unpublished})
            && (outcome == NotConfirmed <==> uploaded && last.answer in {Pending, Unpublished})
  {
    hide PollEvents, PollResult, Probes, Pauses;
    PollEnds(s.polls, 0);
    var events, polling := RunEvents(s), PollEvents(s.polls, 0);
    if s.first == Pending {
      assert events[|events| - 1] == polling[|polling| - 1];
      FirstIsProbe(s.polls, 0);
      assert events[1] == polling[0];
    } else if s.first == Unpublished {
      assert events[|events| - 1] == polling[|polling| - 1];
    }
  }

  lemma FirstIsProbe(answers: seq<Answer>, k: nat)
    requires |answers| == |DELAYS| + 1 && k <= |DELAYS|
    ensures PollEvents(answers, k)[0] == Probed(answers[k])
  {
  }

  // ----- many runs, each killed anywhere

  /** What one run did before it ended or was killed. */
  ghost predicate IsKilledRun(events: seq<Event>) {
    exists s :: ValidScript(s) && events <= RunEvents(s)
  }

  ghost predicate IsHistory(runs: seq<seq<Event>>) {
    forall r :: 0 <= r < |runs| ==> IsKilledRun(runs[r])
  }

  /** Some upload of the run was accepted. */
  ghost predicate Accepts(events: seq<Event>) {
    exists i :: 0 <= i < |events| && events[i].Uploaded? && events[i].accepted
  }

  ghost predicate AcceptedBefore(runs: seq<seq<Event>>, r: int) {
    exists q :: 0 <= q < r && q < |runs| && Accepts(runs[q])
  }

  /** The version endpoint never answers 404 once an upload has been accepted. */
  ghost predicate NeverForgets(runs: seq<seq<Event>>) {
    forall r :: 0 <= r < |runs| && AcceptedBefore(runs, r) && runs[r] != [] ==> runs[r][0] != Probed(Unpublished)
  }

  lemma {:induction false} NoUploadWhilePolling(answers: seq<Answer>, k: nat, i: nat)
    requires |answers| == |DELAYS| + 1 && k <= |DELAYS| && i < |PollEvents(answers, k)|
    ensures !PollEvents(answers, k)[i].Uploaded?
    decreases |DELAYS| - k
  {
    PollSteps(answers, k, []);
    hide PollEvents;
    var events := PollEvents(answers, k);
    assert [] + events == events;
    if !StopsAt(answers, k) {
      var rest := PollEvents(answers, k + 1);
      assert events == [Probed(answers[k]), Slept(DELAYS[k])] + rest;
      if i >= 2 {
        NoUploadWhilePolling(answers, k + 1, i - 2);
      }
    }
  }

  /** An upload is the second event of its run, right after a probe that found no such version. */
  lemma UploadFollowsAbsence(events: seq<Event>, i: nat)
    requires IsKilledRun(events) && i < |events| && events[i].Uploaded?
    ensures i == 1 && events[0] == Probed(Unpublished)
  {
    hide PollEvents;
    var s :| ValidScript(s) && events <= RunEvents(s);
    assert events[0] == Probed(s.first);
    assert events[i] == RunEvents(s)[i];
    var polling := PollEvents(s.polls, 0);
    if s.first == Pending && i >= 1 {
      assert RunEvents(s)[i] == polling[i - 1];
      NoUploadWhilePolling(s.polls, 0, i - 1);
    } else if s.first == Unpublished && i >= 2 {
      assert RunEvents(s)[i] == polling[i - 2];
      NoUploadWhilePolling(s.polls, 0, i - 2);
    }
  }

  /** Over any number of runs, killed anywhere: if the endpoint never forgets an acceptance, no run uploads
      after one, and no two uploads are accepted. */
  lemma AtMostOnce(runs: seq<seq<Event>>, r: nat, i: nat)
    requires IsHistory(runs) && NeverForgets(runs)
    requires r < |runs| && i < |runs[r]| && runs[r][i].Uploaded?
    ensures !AcceptedBefore(runs, r)
    ensures forall j :: 0 <= j < |runs[r]| && runs[r][j].Uploaded? ==> j == i
  {
    UploadFollowsAbsence(runs[r], i);
    forall j | 0 <= j < |runs[r]| && runs[r][j].Uploaded?
      ensures j == i
    {
      UploadFollowsAbsence(runs[r], j);
    }
  }

  /** A run that uploads after an acceptance. */
  ghost predicate UploadsAgain(runs: seq<seq<Event>>, r: nat)
    requires r < |runs|
  {
    AcceptedBefore(runs, r) && |runs[r]| > 1 && runs[r][1].Uploaded?
  }

  /** Exactly when an accepted version can be uploaded again: when its run is told that there is none, and gets
      as far as the next step. */
  lemma WhenUploadedAgain(runs: seq<seq<Event>>, r: nat)
    requires IsHistory(runs) && r < |runs|
    ensures UploadsAgain(runs, r) <==>
              AcceptedBefore(runs, r) && |runs[r]| > 1 && runs[r][0] == Probed(Unpublished)
  {
  }

  /** The assumption on the endpoint is needed: two runs against one that forgets upload the version twice. */
  lemma ForgettingUploadsTwice() returns (runs: seq<seq<Event>>)
    ensures IsHistory(runs) && !NeverForgets(runs)
    ensures |runs| == 2 && Accepts(runs[0]) && UploadsAgain(runs, 1) && Accepts(runs[1])
  {
    var s := Script(Unpublished, 101, true, [Unpublished, Unpublished, Unpublished, Unpublished, Unpublished, Unpublished]);
    var killed := [Probed(Unpublished), Uploaded(101, true)];
    runs := [killed, killed];
    assert ValidScript(s) && RunEvents(s)[..2] == killed;
    assert IsKilledRun(killed);
    assert killed[1].Uploaded? && killed[1].accepted;
    assert Accepts(runs[0]);
    assert AcceptedBefore(runs, 1);
  }
}
