/** The GitHub release that scripts/publish_go_release.py works on, with commands that may fail in every way,
    and the steps that a publication takes on it. */
module GoStore {
  import opened Results
  import opened GoArchive

  datatype Error = CommandFailed | Rejected

  datatype Asset = Archive(platform: Platform) | Checksum(platform: Platform) | Unrelated(name: string)

  type Assets = map<Asset, string>

  datatype Tag = CoreTag | GoTag | OtherTag(name: string)

  /** What a Git reference or an annotated tag points at. */
  datatype Target = Commit(sha: string) | Annotated(sha: string) | OtherObject

  datatype Snapshot = Snapshot(assets: Assets, refs: map<Tag, Target>)

  /** How a command goes: it works, it fails before or after its effect, or an upload is reported to work and
      is lost. */
  datatype Fault = Works | FailsBefore | FailsAfter | Lost

  // ----- tags

  /** The commit behind a target when at most `checks` objects are looked at. */
  function Resolve(objects: map<string, Target>, target: Target, checks: nat): Option<string>
    decreases checks
  {
    if checks == 0 then None
    else match target
      case Commit(sha) => Some(sha)
      case OtherObject => None
      case Annotated(sha) => if sha in objects then Resolve(objects, objects[sha], checks - 1) else None
  }

  /** Following `depth` annotated tags from a target ends at the commit. */
  ghost predicate LeadsTo(objects: map<string, Target>, target: Target, depth: nat, commit: string)
    decreases depth
  {
    if depth == 0 then target == Commit(commit)
    else target.Annotated? && target.sha in objects && LeadsTo(objects, objects[target.sha], depth - 1, commit)
  }

  /** Fewer than `checks` annotated tags lead from a target to the commit. */
  ghost predicate Leads(objects: map<string, Target>, target: Target, checks: nat, commit: string) {
    exists depth: nat :: depth < checks && LeadsTo(objects, target, depth, commit)
  }

  lemma {:induction false} ResolveFinds(objects: map<string, Target>, target: Target, checks: nat, depth: nat, commit: string)
    requires LeadsTo(objects, target, depth, commit)
    ensures Resolve(objects, target, checks) == if depth < checks then Some(commit) else None
    decreases depth
  {
    if depth > 0 && checks > 0 {
      ResolveFinds(objects, objects[target.sha], checks - 1, depth - 1, commit);
    }
  }

  lemma {:induction false} ResolveFound(objects: map<string, Target>, target: Target, checks: nat, commit: string)
      returns (depth: nat)
    requires Resolve(objects, target, checks) == Some(commit)
    ensures depth < checks && LeadsTo(objects, target, depth, commit)
    decreases checks
  {
    if target.Annotated? {
      var before := ResolveFound(objects, objects[target.sha], checks - 1, commit);
      depth := before + 1;
    } else {
      depth := 0;
    }
  }

  /** A tag resolves exactly when fewer annotated tags than checks lead to a commit. */
  lemma ResolveFollows(objects: map<string, Target>, target: Target, checks: nat, commit: string)
    ensures Resolve(objects, target, checks) == Some(commit)
       <==> Leads(objects, target, checks, commit)
  {
    hide LeadsTo, Resolve;
    if Resolve(objects, target, checks) == Some(commit) {
      var depth := ResolveFound(objects, target, checks, commit);
      assert depth < checks && LeadsTo(objects, target, depth, commit);
    } else {
      if Leads(objects, target, checks, commit) {
        var depth: nat :| depth < checks && LeadsTo(objects, target, depth, commit);
        ResolveFinds(objects, target, checks, depth, commit);
      }
    }
  }

  const TAG_CHECKS := 8

  // ----- the store

  /** The release and the repository; `history` holds every state that it has been in. */
  class Store {
    var assets: Assets
    var refs: map<Tag, Target>
    const objects: map<string, Target>
    const tagName: Tag
    const draft: bool
    const faults: nat -> Fault
    var clock: nat
    ghost var history: seq<Snapshot>

    ghost function Now(): Snapshot
      reads this`assets, this`refs
    {
      Snapshot(assets, refs)
    }

    ghost predicate Valid()
      reads this`assets, this`refs, this`history
    {
      history != [] && history[|history| - 1] == Now()
    }

    constructor (assets: Assets, refs: map<Tag, Target>, objects: map<string, Target>, tagName: Tag, draft: bool,
                 faults: nat -> Fault)
      ensures Valid() && clock == 0 && history == [Snapshot(assets, refs)]
      ensures this.assets == assets && this.refs == refs && this.objects == objects
      ensures this.tagName == tagName && this.draft == draft && this.faults == faults
    {
      this.assets, this.refs, this.objects, this.tagName, this.draft, this.faults := assets, refs, objects, tagName, draft, faults;
      clock := 0;
      history := [Snapshot(assets, refs)];
    }

    /** The names of the assets. */
    method List() returns (r: Result<set<Asset>, Error>)
      modifies this`clock
      ensures clock == old(clock) + 1
      ensures r == if faults(old(clock)) == Works then Ok(assets.Keys) else Err(CommandFailed)
    {
      r := if faults(clock) == Works then Ok(assets.Keys) else Err(CommandFailed);
      clock := clock + 1;
    }

    method Download(asset: Asset) returns (r: Result<string, Error>)
      modifies this`clock
      ensures clock == old(clock) + 1
      ensures r == if faults(old(clock)) == Works && asset in assets then Ok(assets[asset]) else Err(CommandFailed)
    {
      r := if faults(clock) == Works && asset in assets then Ok(assets[asset]) else Err(CommandFailed);
      clock := clock + 1;
    }

    /** Adds an asset; an asset that is already there is never replaced. */
    method Upload(asset: Asset, bytes: string) returns (r: Result<(), Error>)
      requires Valid()
      modifies this`clock, this`assets, this`history
      ensures Valid() && clock == old(clock) + 1
      ensures var fault := old(faults(clock));
              var stored := old(asset !in assets) && (fault == Works || fault == FailsAfter);
              assets == (if stored then old(assets)[asset := bytes] else old(assets)) &&
              history == old(history) + [Snapshot(assets, refs)] &&
              r == if old(asset !in assets) && (fault == Works || fault == Lost) then Ok(()) else Err(CommandFailed)
    {
      var fault := faults(clock);
      var absent := asset !in assets;
      if absent && (fault == Works || fault == FailsAfter) {
        assets := assets[asset := bytes];
      }
      r := if absent && (fault == Works || fault == Lost) then Ok(()) else Err(CommandFailed);
      clock := clock + 1;
      history := history + [Snapshot(assets, refs)];
    }

    method Delete(asset: Asset) returns (r: Result<(), Error>)
      requires Valid()
      modifies this`clock, this`assets, this`history
      ensures Valid() && clock == old(clock) + 1
      ensures var fault := old(faults(clock));
              assets == (if fault == Works || fault == FailsAfter then old(assets) - {asset} else old(assets)) &&
              history == old(history) + [Snapshot(assets, refs)] &&
              r == if old(asset in assets) && fault == Works then Ok(()) else Err(CommandFailed)
    {
      var fault := faults(clock);
      r := if asset in assets && fault == Works then Ok(()) else Err(CommandFailed);
      if fault == Works || fault == FailsAfter {
        assets := assets - {asset};
      }
      clock := clock + 1;
      history := history + [Snapshot(assets, refs)];
    }

    /** Creates a tag; a tag that is already there is never moved. */
    method CreateTag(tag: Tag, commit: string) returns (r: Result<(), Error>)
      requires Valid()
      modifies this`clock, this`refs, this`history
      ensures Valid() && clock == old(clock) + 1
      ensures var fault := old(faults(clock));
              var stored := old(tag !in refs) && (fault == Works || fault == FailsAfter);
              refs == (if stored then old(refs)[tag := Commit(commit)] else old(refs)) &&
              history == old(history) + [Snapshot(assets, refs)] &&
              r == if old(tag !in refs) && fault == Works then Ok(()) else Err(CommandFailed)
    {
      var fault := faults(clock);
      var absent := tag !in refs;
      if absent && (fault == Works || fault == FailsAfter) {
        refs := refs[tag := Commit(commit)];
      }
      r := if absent && fault == Works then Ok(()) else Err(CommandFailed);
      clock := clock + 1;
      history := history + [Snapshot(assets, refs)];
    }

    /** The commit behind a tag, if there is such a tag. */
    method RemoteCommit(tag: Tag) returns (r: Result<Option<string>, Error>)
      modifies this`clock
      ensures clock >= old(clock)
      ensures r.Ok? && tag !in refs ==> r.value == None
      ensures r.Ok? && tag in refs ==> r.value.Some? && r.value == Resolve(objects, refs[tag], TAG_CHECKS)
      ensures (forall t :: t >= old(clock) ==> faults(t) == Works) ==>
                (r.Ok? <==> tag !in refs || Resolve(objects, refs[tag], TAG_CHECKS).Some?)
    {
      clock := clock + 1;
      if faults(clock - 1) != Works {
        return Err(CommandFailed);
      }
      if tag !in refs {
        return Ok(None);
      }
      var target := refs[tag];
      for i := 0 to TAG_CHECKS
        invariant clock > old(clock) && clock == old(clock) + 1 + i
        invariant refs == old(refs)
        invariant Resolve(objects, refs[tag], TAG_CHECKS) == Resolve(objects, target, TAG_CHECKS - i)
      {
        if target.Commit? {
          return Ok(Some(target.sha));
        }
        if !target.Annotated? {
          return Err(Rejected);
        }
        clock := clock + 1;
        if faults(clock - 1) != Works || target.sha !in objects {
          return Err(CommandFailed);
        }
        target := objects[target.sha];
      }
      return Err(Rejected);
    }
  }
}
