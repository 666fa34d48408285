/** Crate publication against a registry that accepts a version, indexes it, and then lets it be downloaded
    (scripts/publish_release_crate.py). */
module CrateRegistry {
  import opened CrateRelease

  /** How far the registry is with a version that was uploaded as it was verified. */
  datatype Phase = Absent | Accepted | Indexed | Downloadable

  function Rank(phase: Phase): nat {
    match phase case Absent => 0 case Accepted => 1 case Indexed => 2 case Downloadable => 3
  }

  /** What the registry's resources are in a phase. */
  ghost predicate Shows(rel: Release, reg: Registry, phase: Phase) {
    match phase
    case Absent => reg.api.NotFound?
    case Accepted =>
      && Known(rel, reg) && (reg.index.NotFound? || (reg.index.Got? && NoRow(reg.index.value, rel.version)))
    case Indexed =>
      && Known(rel, reg) && reg.index.Got? && reg.download.NotFound?
      && IndexedOnce(rel, reg.index.value, reg.api.value.checksum.value)
    case Downloadable =>
      && Known(rel, reg) && reg.index.Got? && reg.download.Got?
      && IndexedOnce(rel, reg.index.value, reg.api.value.checksum.value)
      && DownloadAgrees(rel, reg.download.value, reg.api.value.checksum.value)
  }

  predicate Known(rel: Release, reg: Registry) {
    reg.api.Got? && reg.api.value.checksum.Some? && KnownTo(rel, reg.api, reg.api.value.checksum.value)
  }

  function AnswerIn(phase: Phase): Answer {
    match phase case Absent => Unpublished case Accepted => Pending case Indexed => Pending case Downloadable => Confirmed
  }

  /** A probe answers by the phase. */
  lemma PhaseIsAnswered(rel: Release, reg: Registry, phase: Phase)
    requires Shows(rel, reg, phase)
    ensures AnswerTo(rel, reg) == AnswerIn(phase)
  {
    hide DownloadAgrees, KnownTo, IndexedOnce, NoRow;
    if phase == Accepted && reg.index.Got? && Known(rel, reg) {
      NotBoth(rel, reg.index.value, reg.api.value.checksum.value);
    }
  }

  // ----- one registry over time

  /** A run: when it probes and when it uploads, what its upload meets, how many of its effects took place before it
      ended or was killed, and when that was. */
  datatype Visit = Visit(times: seq<nat>, uploadTime: nat, code: int, accepted: bool, done: nat, end: nat)

  /** What the registry shows at any time, how far it is, and the runs against it, one after the other.  An accepted
      upload may take `lag` before the version endpoint knows it. */
  datatype World = World(rel: Release, registry: nat -> Registry, phase: nat -> Phase, lag: nat, visits: seq<Visit>)

  ghost predicate Advances(phase: nat -> Phase) {
    forall t, u {:trigger phase(t), phase(u)} :: t <= u ==> Rank(phase(t)) <= Rank(phase(u))
  }

  ghost predicate ShowsItsPhase(w: World) {
    forall t {:trigger w.registry(t)} :: Shows(w.rel, w.registry(t), w.phase(t))
  }

  ghost function Seen(w: World, v: Visit): (registries: seq<Registry>)
    requires |v.times| == |DELAYS| + 2
    ensures |registries| == |DELAYS| + 2 && forall k :: 0 <= k < |registries| ==> registries[k] == w.registry(v.times[k])
  {
    seq(|DELAYS| + 2, k requires 0 <= k < |DELAYS| + 2 => w.registry(v.times[k]))
  }

  ghost function ScriptAt(w: World, v: Visit): (s: Script)
    requires |v.times| == |DELAYS| + 2
    ensures ValidScript(s)
  {
    ScriptOf(w.rel, Seen(w, v), v.code, v.accepted)
  }

  /** What the run did. */
  ghost function EventsOf(w: World, v: Visit): seq<Event>
    requires |v.times| == |DELAYS| + 2
  {
    var events := RunEvents(ScriptAt(w, v));
    if v.done <= |events| then events[..v.done] else events
  }

  /** The run probes at one time after another, and uploads after its first probe and before its end. */
  ghost predicate Timely(w: World, v: Visit) {
    && |v.times| == |DELAYS| + 2
    && (forall i, j :: 0 <= i <= j < |v.times| ==> v.times[i] <= v.times[j])
    && v.times[0] <= v.uploadTime <= v.times[1]
    && (Accepts(EventsOf(w, v)) ==> v.uploadTime <= v.end)
  }

  ghost predicate AllTimely(w: World) {
    forall r :: 0 <= r < |w.visits| ==> Timely(w, w.visits[r])
  }

  /** Each run starts later than the end of an earlier one and the lag. */
  ghost predicate InOrder(w: World) {
    && AllTimely(w)
    && (forall q, r :: 0 <= q < r < |w.visits| ==> w.visits[q].end + w.lag < w.visits[r].times[0])
  }

  /** The version endpoint has caught up with every accepted upload. */
  ghost predicate UploadsArrive(w: World) {
    forall r :: 0 <= r < |w.visits| && |w.visits[r].times| == |DELAYS| + 2 && Accepts(EventsOf(w, w.visits[r])) ==>
      w.phase(w.visits[r].uploadTime + w.lag + 1) != Absent
  }

  ghost predicate OneRegistry(w: World) {
    Advances(w.phase) && ShowsItsPhase(w) && InOrder(w) && UploadsArrive(w)
  }

  lemma AnswersByPhase(w: World, v: Visit, k: nat)
    requires ShowsItsPhase(w) && |v.times| == |DELAYS| + 2 && k < |v.times|
    ensures AnswerTo(w.rel, Seen(w, v)[k]) == AnswerIn(w.phase(v.times[k]))
  {
    hide Shows, AnswerTo, AnswerIn;
    PhaseIsAnswered(w.rel, w.registry(v.times[k]), w.phase(v.times[k]));
  }

  /** A run that is not killed succeeds exactly when the version is downloadable by the last poll. */
  lemma AdvancingSucceeds(w: World, v: Visit)
    requires Advances(w.phase) && ShowsItsPhase(w) && Timely(w, v)
    ensures IsSuccess(RunOutcome(ScriptAt(w, v))) <==> w.phase(v.times[|DELAYS| + 1]) == Downloadable
  {
    hide RunOutcome, IsSuccess, AnswerTo, Shows, EventsOf;
    var s := ScriptAt(w, v);
    var last := |DELAYS|;
    RunSucceeds(s);
    AnswersByPhase(w, v, 0);
    forall k | 0 <= k <= last
      ensures s.polls[k] == AnswerIn(w.phase(v.times[k + 1]))
    {
      AnswersByPhase(w, v, k + 1);
    }
    assert forall i :: 0 <= i <= last + 1 ==> Rank(w.phase(v.times[i])) <= Rank(w.phase(v.times[last + 1]));
    if w.phase(v.times[last + 1]) == Downloadable {
      assert s.polls[last] == Confirmed;
    }
  }

  // ----- many runs against one registry

  ghost function AllEvents(w: World): (runs: seq<seq<Event>>)
    requires AllTimely(w)
    ensures |runs| == |w.visits| && forall r :: 0 <= r < |runs| ==> runs[r] == EventsOf(w, w.visits[r])
  {
    seq(|w.visits|, r requires 0 <= r < |w.visits| => EventsOf(w, w.visits[r]))
  }

  /** What a run had accepted is known soon after its end. */
  lemma AcceptedArrives(w: World, q: nat, t: nat)
    requires Advances(w.phase) && InOrder(w) && UploadsArrive(w)
    requires q < |w.visits| && Accepts(EventsOf(w, w.visits[q])) && w.visits[q].end + w.lag < t
    ensures w.phase(t) != Absent
  {
    hide EventsOf, Accepts;
    var v := w.visits[q];
    assert Timely(w, v);
    assert Rank(w.phase(v.uploadTime + w.lag + 1)) <= Rank(w.phase(t));
  }

  /** What an earlier run had accepted is known when a later run starts. */
  lemma AcceptedIsKnown(w: World, q: nat, r: nat)
    requires OneRegistry(w) && q < r < |w.visits| && Accepts(EventsOf(w, w.visits[q]))
    ensures w.phase(w.visits[r].times[0]) != Absent
  {
    hide ShowsItsPhase, EventsOf, Accepts, Advances, UploadsArrive;
    assert Timely(w, w.visits[r]);
    AcceptedArrives(w, q, w.visits[r].times[0]);
  }

  lemma StartsByPhase(w: World, v: Visit)
    requires ShowsItsPhase(w) && |v.times| == |DELAYS| + 2
    ensures IsKilledRun(EventsOf(w, v))
    ensures EventsOf(w, v) != [] ==> EventsOf(w, v)[0] == Probed(AnswerIn(w.phase(v.times[0])))
  {
    hide PollEvents, AnswerTo, Shows;
    AnswersByPhase(w, v, 0);
    assert EventsOf(w, v) <= RunEvents(ScriptAt(w, v));
  }

  lemma RunsAreKilledRuns(w: World)
    requires ShowsItsPhase(w) && AllTimely(w)
    ensures IsHistory(AllEvents(w))
  {
    hide EventsOf, Accepts, IsKilledRun, ShowsItsPhase;
    forall r | 0 <= r < |w.visits|
      ensures IsKilledRun(AllEvents(w)[r])
    {
      assert Timely(w, w.visits[r]);
      StartsByPhase(w, w.visits[r]);
    }
  }

  /** A registry that only advances never forgets an acceptance. */
  lemma AdvancingNeverForgets(w: World)
    requires OneRegistry(w)
    ensures IsHistory(AllEvents(w)) && NeverForgets(AllEvents(w))
  {
    hide EventsOf, Accepts, IsKilledRun, UploadsArrive, Advances;
    var runs := AllEvents(w);
    RunsAreKilledRuns(w);
    forall r | 0 <= r < |runs| && AcceptedBefore(runs, r) && runs[r] != []
      ensures runs[r][0] != Probed(Unpublished)
    {
      var q :| 0 <= q < r && Accepts(runs[q]);
      assert Timely(w, w.visits[r]);
      AcceptedIsKnown(w, q, r);
      StartsByPhase(w, w.visits[r]);
    }
  }

  function AcceptedUploads(events: seq<Event>): nat {
    if events == [] then 0
    else (if events[0].Uploaded? && events[0].accepted then 1 else 0) + AcceptedUploads(events[1..])
  }

  function AllAccepted(runs: seq<seq<Event>>): nat {
    if runs == [] then 0 else AllAccepted(runs[..|runs| - 1]) + AcceptedUploads(runs[|runs| - 1])
  }

  lemma {:induction false} NoneAccepted(events: seq<Event>)
    requires forall i :: 0 <= i < |events| ==> !events[i].Uploaded?
    ensures AcceptedUploads(events) == 0
  {
    if events != [] {
      NoneAccepted(events[1..]);
    }
  }

  /** One run has at most one accepted upload, right after its first probe. */
  lemma AcceptedInRun(events: seq<Event>)
    requires IsKilledRun(events)
    ensures AcceptedUploads(events) == if |events| > 1 && events[1].Uploaded? && events[1].accepted then 1 else 0
    ensures Accepts(events) <==> |events| > 1 && events[1].Uploaded? && events[1].accepted
  {
    hide IsKilledRun;
    forall i | 0 <= i < |events| && events[i].Uploaded?
      ensures i == 1
    {
      UploadFollowsAbsence(events, i);
    }
    if |events| > 1 {
      NoneAccepted(events[2..]);
      assert events[1..][1..] == events[2..];
    }
  }

  lemma {:induction false} SomeAccepted(runs: seq<seq<Event>>)
    requires IsHistory(runs)
    ensures AllAccepted(runs) > 0 <==> AcceptedBefore(runs, |runs|)
  {
    hide IsKilledRun, AcceptedUploads, Accepts;
    if runs != [] {
      var last := |runs| - 1;
      assert forall r :: 0 <= r < last ==> runs[..last][r] == runs[r];
      SomeAccepted(runs[..last]);
      AcceptedInRun(runs[last]);
    }
  }

  /** An upload that is accepted although an earlier one was. */
  ghost predicate AcceptedAgain(runs: seq<seq<Event>>, r: nat)
    requires r < |runs|
  {
    UploadsAgain(runs, r) && runs[r][1].accepted
  }

  /** Over any killed runs, at most one upload is accepted in all exactly when no run has one accepted after
      another run had. */
  lemma {:induction false} AcceptedOnce(runs: seq<seq<Event>>)
    requires IsHistory(runs)
    ensures AllAccepted(runs) <= 1 <==> forall r :: 0 <= r < |runs| ==> !AcceptedAgain(runs, r)
  {
    hide IsKilledRun, AcceptedUploads, Accepts;
    if runs != [] {
      var last := |runs| - 1;
      var before := runs[..last];
      assert forall r :: 0 <= r < last ==> before[r] == runs[r];
      AcceptedOnce(before);
      SomeAccepted(before);
      AcceptedInRun(runs[last]);
      SamePast(runs);
      assert AcceptedAgain(runs, last) <==> AllAccepted(before) > 0 && AcceptedUploads(runs[last]) == 1;
      if AllAccepted(before) > 1 {
        var r :| 0 <= r < last && AcceptedAgain(before, r);
        assert AcceptedAgain(runs, r);
      } else if AllAccepted(runs) > 1 {
        assert AcceptedAgain(runs, last);
      } else {
        forall r | 0 <= r < |runs|
          ensures !AcceptedAgain(runs, r)
        {
          assert r < last ==> !AcceptedAgain(before, r);
        }
      }
    }
  }

  lemma SamePast(runs: seq<seq<Event>>)
    requires runs != []
    ensures var last := |runs| - 1;
            (AcceptedBefore(runs[..last], last) <==> AcceptedBefore(runs, last)) &&
            forall r :: 0 <= r < last ==> (AcceptedAgain(runs[..last], r) <==> AcceptedAgain(runs, r))
  {
    hide Accepts;
    var last := |runs| - 1;
    var before := runs[..last];
    assert forall r :: 0 <= r < last ==> before[r] == runs[r];
    forall r | 0 <= r <= last
      ensures AcceptedBefore(before, r) <==> AcceptedBefore(runs, r)
    {
    }
  }

  /** The run starts after an acceptance that the version endpoint does not know yet, and gets past its first probe. */
  ghost predicate StartsTooEarly(w: World, r: nat)
    requires AllTimely(w) && r < |w.visits|
  {
    assert Timely(w, w.visits[r]);
    AcceptedBefore(AllEvents(w), r) && w.visits[r].done > 1 && w.phase(w.visits[r].times[0]) == Absent
  }

  /** A run that starts while the endpoint does not know the version uploads it as soon as it gets past its first
      probe. */
  lemma SecondEvent(w: World, v: Visit)
    requires ShowsItsPhase(w) && |v.times| == |DELAYS| + 2 && w.phase(v.times[0]) == Absent
    ensures |EventsOf(w, v)| > 1 <==> v.done > 1
    ensures v.done > 1 ==> EventsOf(w, v)[1] == Uploaded(v.code, v.accepted)
  {
    hide AnswerTo, Shows;
    AnswersByPhase(w, v, 0);
  }

  /** An upload comes after an accepted one exactly when its run starts too early, whatever the spacing of the runs. */
  lemma UploadsAgainWhenTooEarly(w: World, r: nat)
    requires ShowsItsPhase(w) && AllTimely(w) && r < |w.visits|
    ensures UploadsAgain(AllEvents(w), r) <==> StartsTooEarly(w, r)
    ensures UploadsAgain(AllEvents(w), r) ==> AllEvents(w)[r][1] == Uploaded(w.visits[r].code, w.visits[r].accepted)
  {
    hide IsKilledRun, Accepts, EventsOf, ShowsItsPhase, UploadsAgain;
    var v := w.visits[r];
    assert Timely(w, v);
    RunsAreKilledRuns(w);
    WhenUploadedAgain(AllEvents(w), r);
    StartsByPhase(w, v);
    if w.phase(v.times[0]) == Absent {
      SecondEvent(w, v);
    }
  }

  /** At most one upload is accepted in all exactly when none of the runs that start too early has one accepted. */
  lemma AcceptedOnceUnlessTooEarly(w: World)
    requires ShowsItsPhase(w) && AllTimely(w)
    ensures AllAccepted(AllEvents(w)) <= 1
       <==> forall r :: 0 <= r < |w.visits| && StartsTooEarly(w, r) ==> !w.visits[r].accepted
  {
    hide IsKilledRun, Accepts, EventsOf, ShowsItsPhase, UploadsAgain, StartsTooEarly, AllAccepted, Timely;
    var runs := AllEvents(w);
    RunsAreKilledRuns(w);
    AcceptedOnce(runs);
    forall r | 0 <= r < |runs|
      ensures AcceptedAgain(runs, r) <==> StartsTooEarly(w, r) && w.visits[r].accepted
    {
      UploadsAgainWhenTooEarly(w, r);
    }
  }

  /** Runs that start later than the lag are never too early: no more than one upload is ever accepted, and none is
      tried after. */
  lemma PublishedOnce(w: World)
    requires OneRegistry(w)
    ensures AllAccepted(AllEvents(w)) <= 1
    ensures forall r :: 0 <= r < |w.visits| ==> !UploadsAgain(AllEvents(w), r)
  {
    hide IsKilledRun, AcceptedUploads, Accepts, EventsOf, Advances, UploadsArrive, ShowsItsPhase, UploadsAgain, AllAccepted;
    var runs := AllEvents(w);
    forall r | 0 <= r < |runs|
      ensures !UploadsAgain(runs, r) && !StartsTooEarly(w, r)
    {
      UploadsAgainWhenTooEarly(w, r);
      if AcceptedBefore(runs, r) {
        var q :| 0 <= q < r && Accepts(runs[q]);
        AcceptedIsKnown(w, q, r);
      }
    }
    AcceptedOnceUnlessTooEarly(w);
  }

  /** Nothing but an accepted upload brings the version into the registry, and not before it is made. */
  ghost predicate NothingElseUploads(w: World)
    requires InOrder(w)
  {
    forall t {:trigger w.phase(t)} :: w.phase(t) != Absent ==> SomeAcceptedBy(w, t)
  }

  /** Some upload was accepted before time `t`. */
  ghost predicate SomeAcceptedBy(w: World, t: nat)
    requires InOrder(w)
  {
    exists r :: 0 <= r < |w.visits| && Accepts(AllEvents(w)[r]) && w.visits[r].uploadTime < t
  }

  /** Long enough after the last run, the registry has the version exactly when one upload was accepted. */
  lemma PresentWhenAccepted(w: World, t: nat)
    requires OneRegistry(w) && NothingElseUploads(w)
    requires forall r :: 0 <= r < |w.visits| ==> w.visits[r].end + w.lag < t
    ensures w.phase(t) != Absent <==> AllAccepted(AllEvents(w)) == 1
  {
    hide IsKilledRun, AcceptedUploads, Accepts, EventsOf, ShowsItsPhase, Advances, UploadsArrive, Timely, UploadsAgain, NeverForgets, Rank;
    var runs := AllEvents(w);
    AdvancingNeverForgets(w);
    PublishedOnce(w);
    SomeAccepted(runs);
    if AcceptedBefore(runs, |runs|) {
      var q :| 0 <= q < |runs| && Accepts(runs[q]);
      AcceptedArrives(w, q, t);
    }
  }

  /** A first run that is killed right after its upload is accepted, and a later run. */
  function TwoVisits(): seq<Visit> {
    [Visit([0, 2, 3, 4, 5, 6, 7], 1, 101, true, 2, 1), Visit([2, 3, 4, 5, 6, 7, 8], 2, 0, true, 1, 8)]
  }

  /** The version is there from time two on. */
  function TwoTimes(rel: Release, absent: Registry, downloadable: Registry): World {
    World(rel, t => if t < 2 then absent else downloadable, t => if t < 2 then Absent else Downloadable, 0, TwoVisits())
  }

  lemma TwoRuns(rel: Release, absent: Registry, downloadable: Registry)
    requires Shows(rel, absent, Absent) && Shows(rel, downloadable, Downloadable)
    ensures var w := TwoTimes(rel, absent, downloadable);
            && Advances(w.phase) && ShowsItsPhase(w)
            && EventsOf(w, TwoVisits()[0]) == [Probed(Unpublished), Uploaded(101, true)]
            && EventsOf(w, TwoVisits()[1]) == [Probed(Confirmed)]
  {
    hide Shows, PollEvents, AnswerTo;
    var w := TwoTimes(rel, absent, downloadable);
    AnswersByPhase(w, TwoVisits()[0], 0);
    AnswersByPhase(w, TwoVisits()[1], 0);
  }

  /** Such worlds exist: a run that is killed after its upload is accepted, and one that then finds the version. */
  lemma KilledAfterUpload(rel: Release, absent: Registry, downloadable: Registry)
    requires Shows(rel, absent, Absent) && Shows(rel, downloadable, Downloadable)
    ensures var w := TwoTimes(rel, absent, downloadable); OneRegistry(w) && NothingElseUploads(w)
  {
    hide Shows, EventsOf, Advances, ShowsItsPhase;
    TwoRuns(rel, absent, downloadable);
    var w := TwoTimes(rel, absent, downloadable);
    assert Accepts(EventsOf(w, w.visits[0])) by {
      assert EventsOf(w, w.visits[0])[1] == Uploaded(101, true);
    }
    assert !Accepts(EventsOf(w, w.visits[1]));
    assert AllEvents(w)[0] == EventsOf(w, w.visits[0]);
  }
}
